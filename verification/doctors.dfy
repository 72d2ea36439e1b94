/**
 * The doctor record and the seed data the admin doctor screen stores when
 * nothing is stored yet (data/doctors.ts).
 */
module Doctors {

  /**
   * A doctor: `unavailableDates` maps a `YYYY-MM-DD` date to a flag (the app
   * only ever stores `true`), and `timeSlots` is the ordered list of slots the
   * doctor offers. There is no record of bookings on a doctor.
   */
  datatype Doctor = Doctor(
    id: string,
    name: string,
    specialty: string,
    bio: string,
    image: string,
    unavailableDates: map<string, bool>,
    timeSlots: seq<string>)

  /** The six slots every seeded doctor starts with, from morning to afternoon. */
  const DefaultTimeSlots: seq<string> :=
    ["8:00 AM", "9:30 AM", "11:00 AM", "1:30 PM", "3:00 PM", "4:30 PM"]

  const DefaultDoctors: seq<Doctor> := [
    Doctor("1", "Dr. Sarah Johnson", "Ophthalmology",
           "Specializes in cataract surgery and glaucoma treatment with 10 years of experience.",
           "https://example.com/doctor1.jpg",
           map["2023-11-15" := true, "2023-11-20" := true],
           DefaultTimeSlots),
    Doctor("2", "Dr. Michael Lee", "Cardiology",
           "Expert in heart failure management and cardiac imaging.",
           "https://example.com/doctor2.jpg",
           map[],
           DefaultTimeSlots)
  ]

  /** Every date present in the map is marked `true`: the only value the app writes. */
  predicate MarksOnlyTrue(m: map<string, bool>)
  {
    forall d :: d in m ==> m[d]
  }

  /** No two entries of a list are equal. */
  predicate Distinct(s: seq<string>)
  {
    forall i, j :: 0 <= i < j < |s| ==> s[i] != s[j]
  }

  /** The default slots: six distinct slots from '8:00 AM' to '4:30 PM'. */
  lemma DefaultTimeSlotsShape()
    ensures |DefaultTimeSlots| == 6 && Distinct(DefaultTimeSlots)
    ensures DefaultTimeSlots[0] == "8:00 AM" && DefaultTimeSlots[5] == "4:30 PM"
  {
  }

  /**
   * The seed: two doctors with ids '1' and '2', each starting with the default
   * slots; Dr. Sarah Johnson with two unavailable dates, Dr. Michael Lee with
   * none; every stored flag is `true`.
   */
  lemma DefaultDoctorsShape()
    ensures |DefaultDoctors| == 2
    ensures DefaultDoctors[0].id == "1" && DefaultDoctors[1].id == "2"
    ensures forall d :: d in DefaultDoctors ==> d.timeSlots == DefaultTimeSlots
    ensures forall d :: d in DefaultDoctors ==> MarksOnlyTrue(d.unavailableDates)
    ensures DefaultDoctors[0].name == "Dr. Sarah Johnson" && |DefaultDoctors[0].unavailableDates| == 2
    ensures DefaultDoctors[1].name == "Dr. Michael Lee" && |DefaultDoctors[1].unavailableDates| == 0
  {
    var m := DefaultDoctors[0].unavailableDates;
    assert m.Keys == {"2023-11-15", "2023-11-20"};
    assert |m.Keys| == 2;
  }
}
