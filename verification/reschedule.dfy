/**
 * The reschedule screen reached from the appointment list
 * (screens/patient/RescheduleAppointmentScreen.tsx): it looks up the
 * appointment's doctor, offers that doctor's available dates and slots, and
 * rewrites the date and time of the appointment in the stored collection.
 */
module Reschedule {
  import opened Common
  import opened Text
  import opened Records
  import opened Doctors
  import opened KeyValueStore
  import Seqs

  /**
   * `isDateValid(date)`: the date is today or later. Dates are `YYYY-MM-DD`
   * strings, so the comparison is the string order.
   */
  predicate IsDateValid(date: string, today: string)
    ensures date == today ==> IsDateValid(date, today)
    ensures date != today ==> (IsDateValid(date, today) <==> Before(today, date))
  {
    BeforeIrreflexive(today);
    BeforeTrichotomy(date, today);
    !Before(date, today)
  }

  /** Whether a record is the one being moved: `appt.id === oldAppointment.id`. */
  predicate HasId(a: Appointment, id: Option<string>)
  {
    a.id == id
  }

  /** `appointments.map(...)` giving the record(s) with the id the new date and time; everything else is kept. */
  function Rescheduled(list: seq<Appointment>, id: Option<string>, date: string, time: string): (r: seq<Appointment>)
    ensures |r| == |list|
    ensures forall i :: 0 <= i < |list| && list[i].id != id ==> r[i] == list[i]
    ensures forall i :: 0 <= i < |list| && list[i].id == id ==>
      r[i].date == Some(date) && r[i].time == Some(time) &&
      r[i].(date := list[i].date, time := list[i].time) == list[i]
  {
    Seqs.MapWhere(list, (a: Appointment) => HasId(a, id),
                  (a: Appointment) => a.(date := Some(date), time := Some(time)))
  }

  /** Saving the same choice twice changes nothing more. */
  lemma RescheduledTwice(list: seq<Appointment>, id: Option<string>, date: string, time: string)
    ensures Rescheduled(Rescheduled(list, id, date, time), id, date, time) == Rescheduled(list, id, date, time)
  {
  }

  /** A later choice overwrites an earlier one. */
  lemma RescheduledLastWins(list: seq<Appointment>, id: Option<string>, d1: string, t1: string, d2: string, t2: string)
    ensures Rescheduled(Rescheduled(list, id, d1, t1), id, d2, t2) == Rescheduled(list, id, d2, t2)
  {
  }

  /** How a press of the save button ends. */
  datatype Outcome = MissingSelection | PastDate | Saved

  /** The checks of `handleReschedule`, in order: both choices present, then the date not in the past. */
  function Decision(date: string, time: string, today: string): (r: Outcome)
    ensures r == MissingSelection <==> date == "" || time == ""
    ensures r == PastDate <==> date != "" && time != "" && Before(date, today)
    ensures r == Saved <==> date != "" && time != "" && IsDateValid(date, today)
  {
    if date == "" || time == "" then MissingSelection
    else if !IsDateValid(date, today) then PastDate
    else Saved
  }

  /** The calendar-press guard: the day is not marked unavailable (`true`) and not in the past. */
  predicate CanPickDate(doctor: Doctor, day: string, today: string)
    ensures day in doctor.unavailableDates && doctor.unavailableDates[day] ==> !CanPickDate(doctor, day, today)
    ensures !(day in doctor.unavailableDates && doctor.unavailableDates[day]) ==> (CanPickDate(doctor, day, today) <==> IsDateValid(day, today))
  {
    !(day in doctor.unavailableDates && doctor.unavailableDates[day]) && IsDateValid(day, today)
  }

  /**
   * The save handler does not look at the doctor: an appointment whose
   * current date is now marked unavailable is saved unchanged in date, even
   * though the calendar would refuse that date.
   */
  lemma SaveIgnoresUnavailability(doctor: Doctor, day: string, time: string, today: string)
    requires day in doctor.unavailableDates && doctor.unavailableDates[day]
    requires day != "" && time != "" && IsDateValid(day, today)
    ensures !CanPickDate(doctor, day, today) && Decision(day, time, today) == Saved
  {
  }

  /** `doctors.find(doc => doc.id === oldAppointment.doctorId)` */
  function FindDoctor(doctors: seq<Doctor>, doctorId: Option<string>): (r: Option<Doctor>)
    ensures r.Some? <==> exists d :: d in doctors && Some(d.id) == doctorId
    ensures r.Some? ==> r.value in doctors && Some(r.value.id) == doctorId
    ensures r.Some? ==> exists i :: 0 <= i < |doctors| && doctors[i] == r.value && forall j :: 0 <= j < i ==> Some(doctors[j].id) != doctorId
  {
    Seqs.Find(doctors, (d: Doctor) => Some(d.id) == doctorId)
  }

  /** A record without a `doctorId` (every booked record) finds no doctor, so the screen stays on its loading view. */
  lemma NoDoctorWithoutDoctorId(doctors: seq<Doctor>)
    ensures FindDoctor(doctors, None).None?
  {
  }

  /** How the calendar marks a day. */
  datatype Mark = Disabled | Selected

  /**
   * `getMarkedDates()`: every key of `unavailableDates` is disabled, whatever
   * its flag; the selected date is marked selected only when it is not
   * already disabled.
   */
  method MarkedDates(unavailable: map<string, bool>, selectedDate: string) returns (marked: map<string, Mark>)
    ensures forall d :: d in unavailable ==> d in marked && marked[d] == Disabled
    ensures selectedDate != "" && selectedDate !in unavailable ==> selectedDate in marked && marked[selectedDate] == Selected
    ensures forall d :: d in marked ==> d in unavailable || (d == selectedDate && selectedDate != "")
  {
    marked := map[];
    var pending := unavailable.Keys;
    while pending != {}
      invariant pending <= unavailable.Keys
      invariant forall d :: d in unavailable.Keys - pending ==> d in marked && marked[d] == Disabled
      invariant forall d :: d in marked ==> d in unavailable.Keys - pending
      decreases pending
    {
      var d :| d in pending;
      marked := marked[d := Disabled];
      pending := pending - {d};
    }
    if selectedDate != "" && selectedDate !in marked {
      marked := marked[selectedDate := Selected];
    }
  }

  /** The reschedule screen's state; `oldAppointment` comes in with the route. */
  class RescheduleScreen {
    var doctor: Option<Doctor>
    var selectedDate: string
    var selectedTime: string
    const oldAppointment: Appointment
    const storage: AsyncStorage

    /** The choices start as the appointment's own date and time (absent reads as empty). */
    constructor (oldAppointment: Appointment, storage: AsyncStorage)
      ensures doctor == None
      ensures selectedDate == OrDefault(oldAppointment.date, "") && selectedTime == OrDefault(oldAppointment.time, "")
      ensures this.oldAppointment == oldAppointment && this.storage == storage
    {
      doctor := None;
      selectedDate := OrDefault(oldAppointment.date, "");
      selectedTime := OrDefault(oldAppointment.time, "");
      this.oldAppointment := oldAppointment;
      this.storage := storage;
    }

    /** `fetchDoctorInfo`: the stored doctor with the appointment's `doctorId`, if any; otherwise nothing changes. */
    method FetchDoctorInfo()
      modifies this
      ensures var found := FindDoctor(DoctorsOrEmpty(storage.data), oldAppointment.doctorId);
              doctor == (if found.Some? then found else old(doctor))
      ensures selectedDate == old(selectedDate) && selectedTime == old(selectedTime)
    {
      var found := FindDoctor(DoctorsOrEmpty(storage.data), oldAppointment.doctorId);
      if found.Some? {
        doctor := found;
      }
    }

    /** A calendar press, possible once the doctor is shown: an accepted day replaces the date and clears the time. */
    method PickDate(day: string, today: string)
      requires doctor.Some?
      modifies this
      ensures doctor == old(doctor)
      ensures CanPickDate(doctor.value, day, today) ==> selectedDate == day && selectedTime == ""
      ensures !CanPickDate(doctor.value, day, today) ==>
        selectedDate == old(selectedDate) && selectedTime == old(selectedTime)
    {
      if CanPickDate(doctor.value, day, today) {
        selectedDate := day;
        selectedTime := "";
      }
    }

    /** The slots offered are the doctor's own `timeSlots`, shown once a date is chosen. */
    method PickTime(time: string)
      requires doctor.Some? && selectedDate != "" && time in doctor.value.timeSlots
      modifies this
      ensures selectedTime == time && selectedDate == old(selectedDate) && doctor == old(doctor)
    {
      selectedTime := time;
    }

    /** The marks the calendar shows for the current state. */
    method CalendarMarks() returns (marked: map<string, Mark>)
      requires doctor.Some?
      ensures forall d :: d in doctor.value.unavailableDates ==> d in marked && marked[d] == Disabled
      ensures selectedDate != "" && selectedDate !in doctor.value.unavailableDates ==>
        selectedDate in marked && marked[selectedDate] == Selected
      ensures forall d :: d in marked ==> d in doctor.value.unavailableDates || (d == selectedDate && selectedDate != "")
    {
      marked := MarkedDates(doctor.value.unavailableDates, selectedDate);
    }

    /**
     * `handleReschedule(today)`, after the confirmation: refused without a
     * write when a choice is missing or the date is past; otherwise the stored
     * record(s) with the old id get the new date and time.
     */
    method HandleReschedule(today: string) returns (outcome: Outcome)
      modifies storage
      ensures outcome == Decision(selectedDate, selectedTime, today)
      ensures outcome != Saved ==> storage.data == old(storage.data)
      ensures outcome == Saved ==>
        storage.data == old(storage.data)[AppointmentsKey := AppointmentList(
          Rescheduled(AppointmentsOrEmpty(old(storage.data)), oldAppointment.id, selectedDate, selectedTime))]
    {
      outcome := Decision(selectedDate, selectedTime, today);
      if outcome != Saved {
        return;
      }
      var updated := Rescheduled(AppointmentsOrEmpty(storage.data), oldAppointment.id, selectedDate, selectedTime);
      storage.data := storage.data[AppointmentsKey := AppointmentList(updated)];
    }
  }
}
