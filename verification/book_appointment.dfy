/**
 * The patient booking screen (screens/patient/BookAppointmentScreen.tsx): the
 * patient picks a date and one of five fixed times, and booking appends a
 * record to the `appointments` collection.
 */
module BookAppointment {
  import opened Common
  import opened Text
  import opened Records
  import opened Doctors
  import opened KeyValueStore

  /** The times offered on this screen: a fixed list, not the doctor's own slots. */
  const AvailableTimeSlots: seq<string> := ["09:00 AM", "10:30 AM", "01:00 PM", "02:30 PM", "04:00 PM"]

  /** The fixed list holds five distinct times, none of them a seeded doctor slot spelled the same way. */
  lemma AvailableTimeSlotsShape()
    ensures |AvailableTimeSlots| == 5 && Distinct(AvailableTimeSlots)
    ensures forall t :: t in AvailableTimeSlots ==> t !in DefaultTimeSlots
  {
  }

  /**
   * The record `handleBook` builds: an id from the clock, the doctor's name
   * under `doctor`, the specialty, and the chosen date and time. It has no
   * `userId`, `doctorId` or `status`.
   */
  function NewAppointment(id: string, doctor: Doctor, date: string, time: string): (a: Appointment)
    ensures a.id == Some(id) && a.doctor == Some(doctor.name) && a.specialty == Some(doctor.specialty)
    ensures a.date == Some(date) && a.time == Some(time)
    ensures a.userId.None? && a.doctorId.None? && a.status.None? && a.doctorName.None?
    ensures a.patientName.None? && a.patientEmail.None? && a.patientPhone.None? && a.notes.None?
  {
    Appointment(Some(id), None, None, Some(doctor.name), None, Some(doctor.specialty),
                Some(date), Some(time), None, None, None, None, None)
  }

  /** The stored collection after a booking: the earlier records, unchanged, then the new one. */
  function Booked(s: Store, a: Appointment): (r: seq<Appointment>)
    ensures |r| == |AppointmentsOrEmpty(s)| + 1
    ensures r[..|r| - 1] == AppointmentsOrEmpty(s) && r[|r| - 1] == a
  {
    AppointmentsOrEmpty(s) + [a]
  }

  /** Booking the same doctor, date and time twice gives two records: nothing checks for duplicates. */
  lemma BookingTwiceKeepsBoth(s: Store, a: Appointment, b: Appointment)
    requires a.doctor == b.doctor && a.date == b.date && a.time == b.time
    ensures var s' := s[AppointmentsKey := AppointmentList(Booked(s, a))];
            var r := Booked(s', b);
            |r| == |AppointmentsOrEmpty(s)| + 2 && r[|r| - 2] == a && r[|r| - 1] == b
  {
    var s' := s[AppointmentsKey := AppointmentList(Booked(s, a))];
    assert AppointmentsOrEmpty(s') == Booked(s, a);
  }

  /** The booking screen's state; `doctor` comes in with the route. */
  class BookAppointmentScreen {
    var selectedDate: string
    var selectedTime: string
    const doctor: Doctor
    const storage: AsyncStorage

    constructor (doctor: Doctor, storage: AsyncStorage)
      ensures selectedDate == "" && selectedTime == ""
      ensures this.doctor == doctor && this.storage == storage
    {
      selectedDate := "";
      selectedTime := "";
      this.doctor := doctor;
      this.storage := storage;
    }

    /** A calendar press: the calendar offers no day before `today`, and a new date clears the time. */
    method PickDate(day: string, today: string)
      requires !Before(day, today)
      modifies this
      ensures selectedDate == day && selectedTime == ""
    {
      selectedDate := day;
      selectedTime := "";
    }

    /** The time list is shown only once a date is chosen, and offers the fixed times. */
    method PickTime(time: string)
      requires selectedDate != "" && time in AvailableTimeSlots
      modifies this
      ensures selectedTime == time && selectedDate == old(selectedDate)
    {
      selectedTime := time;
    }

    /**
     * `handleBook(now)`: with an empty date or time nothing happens. Otherwise
     * the new record is appended to the stored list (an absent list reads as
     * empty) and both selections are cleared.
     */
    method HandleBook(now: string) returns (booked: Option<Appointment>)
      modifies this, storage
      ensures old(selectedDate) == "" || old(selectedTime) == "" ==>
        booked.None? && storage.data == old(storage.data) &&
        selectedDate == old(selectedDate) && selectedTime == old(selectedTime)
      ensures old(selectedDate) != "" && old(selectedTime) != "" ==>
        booked == Some(NewAppointment(now, doctor, old(selectedDate), old(selectedTime))) &&
        storage.data == old(storage.data)[AppointmentsKey := AppointmentList(Booked(old(storage.data), booked.value))] &&
        selectedDate == "" && selectedTime == ""
    {
      if selectedDate == "" || selectedTime == "" {
        return None;
      }
      var a := NewAppointment(now, doctor, selectedDate, selectedTime);
      storage.data := storage.data[AppointmentsKey := AppointmentList(Booked(storage.data, a))];
      selectedDate := "";
      selectedTime := "";
      booked := Some(a);
    }
  }
}
