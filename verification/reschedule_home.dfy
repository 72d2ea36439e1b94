/**
 * The reschedule screen reached from the home tab
 * (screens/patient/RescheduleAppointmentScreenHome.tsx): fixed times, no
 * doctor lookup, and a save that checks only that both choices are made.
 */
module RescheduleHome {
  import opened Common
  import opened Text
  import opened Records
  import opened KeyValueStore
  import Reschedule

  /** The times this screen offers: the same fixed five as the booking screen, not the doctor's slots. */
  const AvailableTimeSlots: seq<string> := ["09:00 AM", "10:30 AM", "01:00 PM", "02:30 PM", "04:00 PM"]

  /** The only check of this screen's save: both a date and a time are chosen. */
  function Decision(date: string, time: string): (r: Reschedule.Outcome)
    ensures r == Reschedule.MissingSelection <==> date == "" || time == ""
    ensures r == Reschedule.Saved <==> date != "" && time != ""
    ensures r != Reschedule.PastDate
  {
    if date == "" || time == "" then Reschedule.MissingSelection else Reschedule.Saved
  }

  /**
   * The two screens disagree exactly on past dates: this one saves a date
   * before today that the other screen refuses; otherwise they agree.
   */
  lemma HomeSkipsPastCheck(date: string, time: string, today: string)
    ensures date != "" && time != "" && Before(date, today) ==>
      Decision(date, time) == Reschedule.Saved && Reschedule.Decision(date, time, today) == Reschedule.PastDate
    ensures !Before(date, today) ==> Decision(date, time) == Reschedule.Decision(date, time, today)
  {
  }

  /** The home reschedule screen's state; `oldAppointment` comes in with the route. */
  class RescheduleHomeScreen {
    var selectedDate: string
    var selectedTime: string
    const oldAppointment: Appointment
    const storage: AsyncStorage

    /** The choices start as the appointment's own date and time (absent reads as empty). */
    constructor (oldAppointment: Appointment, storage: AsyncStorage)
      ensures selectedDate == OrDefault(oldAppointment.date, "") && selectedTime == OrDefault(oldAppointment.time, "")
      ensures this.oldAppointment == oldAppointment && this.storage == storage
    {
      selectedDate := OrDefault(oldAppointment.date, "");
      selectedTime := OrDefault(oldAppointment.time, "");
      this.oldAppointment := oldAppointment;
      this.storage := storage;
    }

    /** A calendar press (the calendar offers no day before `today`): the date is replaced and the time cleared, with no other check. */
    method PickDate(day: string, today: string)
      requires !Before(day, today)
      modifies this
      ensures selectedDate == day && selectedTime == ""
    {
      selectedDate := day;
      selectedTime := "";
    }

    /** The time list is shown once a date is chosen, and offers the fixed times. */
    method PickTime(time: string)
      requires selectedDate != "" && time in AvailableTimeSlots
      modifies this
      ensures selectedTime == time && selectedDate == old(selectedDate)
    {
      selectedTime := time;
    }

    /**
     * `handleReschedule()`: refused without a write when a choice is missing;
     * otherwise the stored record(s) with the old id get the new date and time,
     * whether or not the date is past.
     */
    method HandleReschedule() returns (outcome: Reschedule.Outcome)
      modifies storage
      ensures outcome == Decision(selectedDate, selectedTime)
      ensures outcome != Reschedule.Saved ==> storage.data == old(storage.data)
      ensures outcome == Reschedule.Saved ==>
        storage.data == old(storage.data)[AppointmentsKey := AppointmentList(
          Reschedule.Rescheduled(AppointmentsOrEmpty(old(storage.data)), oldAppointment.id, selectedDate, selectedTime))]
    {
      outcome := Decision(selectedDate, selectedTime);
      if outcome != Reschedule.Saved {
        return;
      }
      var updated := Reschedule.Rescheduled(AppointmentsOrEmpty(storage.data), oldAppointment.id, selectedDate, selectedTime);
      storage.data := storage.data[AppointmentsKey := AppointmentList(updated)];
    }
  }
}
