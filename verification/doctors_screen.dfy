/**
 * The admin doctor screen (screens/admin/DoctorsScreen.tsx): seeding the
 * doctor list, toggling a doctor's unavailable dates, and adding or removing
 * time slots. Each edit rewrites the whole `doctors` list in state and in the
 * store and re-selects the edited doctor.
 */
module DoctorsScreen {
  import opened Common
  import opened Text
  import Seqs
  import opened Doctors
  import opened KeyValueStore

  /**
   * The toggle applied to a copy of `unavailableDates`: a date marked `true`
   * is deleted; any other date (absent, or marked `false`) becomes `true`.
   */
  function ToggleDate(m: map<string, bool>, date: string): (r: map<string, bool>)
    ensures date in m && m[date] ==> date !in r
    ensures !(date in m && m[date]) ==> date in r && r[date]
    ensures forall d :: d != date ==> (d in r <==> d in m) && (d in r ==> r[d] == m[d])
  {
    if date in m && m[date] then m - {date} else m[date := true]
  }

  /** Toggling the same date twice restores the map when the date was absent or marked `true`. */
  lemma ToggleDateTwice(m: map<string, bool>, date: string)
    requires date !in m || m[date]
    ensures ToggleDate(ToggleDate(m, date), date) == m
  {
    var r := ToggleDate(ToggleDate(m, date), date);
    assert r.Keys == m.Keys;
  }

  /** A date stored as `false` is removed by two toggles (the only value the screen writes is `true`). */
  lemma ToggleDateTwiceFromFalse(m: map<string, bool>, date: string)
    requires date in m && !m[date]
    ensures ToggleDate(ToggleDate(m, date), date) == m - {date}
  {
    var r := ToggleDate(ToggleDate(m, date), date);
    assert r.Keys == m.Keys - {date};
  }

  /** The toggle keeps the invariant that every stored flag is `true`. */
  lemma ToggleDateKeepsMarksTrue(m: map<string, bool>, date: string)
    requires MarksOnlyTrue(m)
    ensures MarksOnlyTrue(ToggleDate(m, date))
  {
  }

  /** `[...timeSlots, text.trim()]`: the trimmed slot goes last, with no duplicate check. */
  function AddSlot(slots: seq<string>, text: string): (r: seq<string>)
    ensures |r| == |slots| + 1 && r[..|slots|] == slots && r[|slots|] == Trim(text)
  {
    slots + [Trim(text)]
  }

  /** `timeSlots.filter(t => t !== time)`: every copy of `time` goes, the rest keep their order. */
  function RemoveSlot(slots: seq<string>, time: string): (r: seq<string>)
    ensures time !in r
    ensures forall t :: t != time ==> (t in r <==> t in slots)
    ensures |r| <= |slots|
  {
    Seqs.Filter(slots, (t: string) => t != time)
  }

  /** Removing works piecewise, so the remaining slots keep their relative order. */
  lemma RemoveSlotKeepsOrder(a: seq<string>, b: seq<string>, time: string)
    ensures RemoveSlot(a + b, time) == RemoveSlot(a, time) + RemoveSlot(b, time)
  {
    Seqs.FilterConcat(a, b, (t: string) => t != time);
  }

  /** Removing a slot that is not offered changes nothing. */
  lemma RemoveAbsentSlot(slots: seq<string>, time: string)
    requires time !in slots
    ensures RemoveSlot(slots, time) == slots
  {
    Seqs.FilterKeepsAll(slots, (t: string) => t != time);
  }

  /** Adding a new slot and then removing it restores the doctor's slots. */
  lemma AddThenRemoveSlot(slots: seq<string>, text: string)
    requires Trim(text) !in slots
    ensures RemoveSlot(AddSlot(slots, text), Trim(text)) == slots
  {
    var t := Trim(text);
    RemoveSlotKeepsOrder(slots, [t], t);
    RemoveAbsentSlot(slots, t);
    assert RemoveSlot([t], t) == [];
  }

  /** The blank-input guard of `addTimeSlot`: `!newTimeSlot.trim()`. */
  predicate IsBlank(text: string)
    ensures IsBlank(text) <==> forall i :: 0 <= i < |text| ==> IsSpace(text[i])
  {
    Trim(text) == ""
  }

  /** Whether doctor `d` is the selected one (`doctor.id === selectedDoctor.id`). */
  predicate HasId(d: Doctor, id: string)
  {
    d.id == id
  }

  /** `doctors.map(...)` toggling `date` on the doctors with the selected id; all others stay as they are. */
  function ToggledIn(doctors: seq<Doctor>, id: string, date: string): (r: seq<Doctor>)
    ensures |r| == |doctors|
    ensures forall i :: 0 <= i < |doctors| && doctors[i].id != id ==> r[i] == doctors[i]
    ensures forall i :: 0 <= i < |doctors| && doctors[i].id == id ==>
      r[i].unavailableDates == ToggleDate(doctors[i].unavailableDates, date) &&
      r[i].(unavailableDates := doctors[i].unavailableDates) == doctors[i]
  {
    Seqs.MapWhere(doctors, (d: Doctor) => HasId(d, id),
                  (d: Doctor) => d.(unavailableDates := ToggleDate(d.unavailableDates, date)))
  }

  /** `doctors.map(...)` appending the trimmed slot to the doctors with the selected id. */
  function SlotAddedIn(doctors: seq<Doctor>, id: string, text: string): (r: seq<Doctor>)
    ensures |r| == |doctors|
    ensures forall i :: 0 <= i < |doctors| && doctors[i].id != id ==> r[i] == doctors[i]
    ensures forall i :: 0 <= i < |doctors| && doctors[i].id == id ==>
      r[i].timeSlots == AddSlot(doctors[i].timeSlots, text) &&
      r[i].(timeSlots := doctors[i].timeSlots) == doctors[i]
  {
    Seqs.MapWhere(doctors, (d: Doctor) => HasId(d, id),
                  (d: Doctor) => d.(timeSlots := AddSlot(d.timeSlots, text)))
  }

  /** `doctors.map(...)` removing a slot from the doctors with the selected id. */
  function SlotRemovedIn(doctors: seq<Doctor>, id: string, time: string): (r: seq<Doctor>)
    ensures |r| == |doctors|
    ensures forall i :: 0 <= i < |doctors| && doctors[i].id != id ==> r[i] == doctors[i]
    ensures forall i :: 0 <= i < |doctors| && doctors[i].id == id ==>
      r[i].timeSlots == RemoveSlot(doctors[i].timeSlots, time) &&
      r[i].(timeSlots := doctors[i].timeSlots) == doctors[i]
  {
    Seqs.MapWhere(doctors, (d: Doctor) => HasId(d, id),
                  (d: Doctor) => d.(timeSlots := RemoveSlot(d.timeSlots, time)))
  }

  /** `doctors.find(d => d.id === id) || null` */
  function FindById(doctors: seq<Doctor>, id: string): (r: Option<Doctor>)
    ensures r.Some? <==> exists d :: d in doctors && d.id == id
    ensures r.Some? ==> r.value in doctors && r.value.id == id
    ensures r.Some? ==> exists i :: 0 <= i < |doctors| && doctors[i] == r.value && forall j :: 0 <= j < i ==> doctors[j].id != id
  {
    Seqs.Find(doctors, (d: Doctor) => HasId(d, id))
  }

  /** Toggling a date twice on the same doctor restores the whole list, when no stored flag is `false`. */
  lemma ToggledInTwice(doctors: seq<Doctor>, id: string, date: string)
    requires forall d :: d in doctors ==> MarksOnlyTrue(d.unavailableDates)
    ensures ToggledIn(ToggledIn(doctors, id, date), id, date) == doctors
  {
    var once := ToggledIn(doctors, id, date);
    var twice := ToggledIn(once, id, date);
    forall i | 0 <= i < |doctors|
      ensures twice[i] == doctors[i]
    {
      if doctors[i].id == id {
        assert doctors[i] in doctors;
        ToggleDateTwice(doctors[i].unavailableDates, date);
      }
    }
  }

  /** After a toggle the re-selected doctor is the updated record with the selected id. */
  lemma ReselectAfterToggle(doctors: seq<Doctor>, selected: Doctor, date: string)
    requires selected in doctors
    ensures FindById(ToggledIn(doctors, selected.id, date), selected.id).Some?
    ensures FindById(ToggledIn(doctors, selected.id, date), selected.id).value.unavailableDates ==
            ToggleDate(FindById(doctors, selected.id).value.unavailableDates, date)
  {
    var updated := ToggledIn(doctors, selected.id, date);
    var p := (d: Doctor) => HasId(d, selected.id);
    var k := Seqs.FindIndex(doctors, p);
    var k' := Seqs.FindIndex(updated, p);
    var j :| 0 <= j < |doctors| && doctors[j] == selected;
    assert k <= j;
    assert p(updated[k]);
    assert k' == k by {
      assert k' <= k;
      assert forall i :: 0 <= i < k ==> !p(doctors[i]) && updated[i] == doctors[i];
    }
  }

  /** The admin doctor screen's state. */
  class DoctorsScreen {
    var doctors: seq<Doctor>
    var selectedDoctor: Option<Doctor>
    var newTimeSlot: string
    const storage: AsyncStorage

    constructor (storage: AsyncStorage)
      ensures doctors == [] && selectedDoctor == None && newTimeSlot == "" && this.storage == storage
    {
      doctors := [];
      selectedDoctor := None;
      newTimeSlot := "";
      this.storage := storage;
    }

    /** `loadDoctors`: the stored list if there is one, else the seed, which is also stored. */
    method LoadDoctors()
      modifies this, storage
      ensures StoredDoctors(old(storage.data)).Some? ==>
        doctors == StoredDoctors(old(storage.data)).value && storage.data == old(storage.data)
      ensures StoredDoctors(old(storage.data)).None? ==>
        doctors == DefaultDoctors && storage.data == old(storage.data)[DoctorsKey := DoctorList(DefaultDoctors)]
      ensures selectedDoctor == old(selectedDoctor) && newTimeSlot == old(newTimeSlot)
    {
      var saved := StoredDoctors(storage.data);
      if saved.Some? {
        doctors := saved.value;
      } else {
        storage.data := storage.data[DoctorsKey := DoctorList(DefaultDoctors)];
        doctors := DefaultDoctors;
      }
    }

    /** Tapping a doctor card selects that doctor; the list and the store stay as they are. */
    method SelectDoctor(d: Doctor)
      requires d in doctors
      modifies this
      ensures selectedDoctor == Some(d)
      ensures doctors == old(doctors) && newTimeSlot == old(newTimeSlot)
    {
      selectedDoctor := Some(d);
    }

    /** Writes an edited list to state and store and re-selects the doctor with the selected id. */
    method Commit(updated: seq<Doctor>, id: string)
      modifies this, storage
      ensures doctors == updated && selectedDoctor == FindById(updated, id)
      ensures storage.data == old(storage.data)[DoctorsKey := DoctorList(updated)]
      ensures newTimeSlot == old(newTimeSlot)
    {
      doctors := updated;
      selectedDoctor := FindById(updated, id);
      storage.data := storage.data[DoctorsKey := DoctorList(updated)];
    }

    /**
     * `toggleDateAvailability(date)`: nothing happens without a selected doctor
     * or for a date before `today` (a `YYYY-MM-DD` string, compared as a string,
     * so today itself can be toggled).
     */
    method ToggleDateAvailability(date: string, today: string)
      modifies this, storage
      ensures old(selectedDoctor).None? || Before(date, today) ==>
        doctors == old(doctors) && selectedDoctor == old(selectedDoctor) && storage.data == old(storage.data)
      ensures old(selectedDoctor).Some? && !Before(date, today) ==>
        var id := old(selectedDoctor).value.id;
        doctors == ToggledIn(old(doctors), id, date) && selectedDoctor == FindById(doctors, id) &&
        storage.data == old(storage.data)[DoctorsKey := DoctorList(doctors)]
      ensures newTimeSlot == old(newTimeSlot)
    {
      if selectedDoctor.None? {
        return;
      }
      if Before(date, today) {
        return;
      }
      var id := selectedDoctor.value.id;
      Commit(ToggledIn(doctors, id, date), id);
    }

    /** `addTimeSlot()`: refuses blank input; otherwise appends the trimmed slot and clears the input. */
    method AddTimeSlot()
      modifies this, storage
      ensures IsBlank(old(newTimeSlot)) || old(selectedDoctor).None? ==>
        doctors == old(doctors) && selectedDoctor == old(selectedDoctor) &&
        newTimeSlot == old(newTimeSlot) && storage.data == old(storage.data)
      ensures !IsBlank(old(newTimeSlot)) && old(selectedDoctor).Some? ==>
        var id := old(selectedDoctor).value.id;
        doctors == SlotAddedIn(old(doctors), id, old(newTimeSlot)) && selectedDoctor == FindById(doctors, id) &&
        newTimeSlot == "" && storage.data == old(storage.data)[DoctorsKey := DoctorList(doctors)]
    {
      if IsBlank(newTimeSlot) || selectedDoctor.None? {
        return;
      }
      var id := selectedDoctor.value.id;
      Commit(SlotAddedIn(doctors, id, newTimeSlot), id);
      newTimeSlot := "";
    }

    /** `removeTimeSlot(time)`: removes every copy of `time` from the selected doctor. */
    method RemoveTimeSlot(time: string)
      modifies this, storage
      ensures old(selectedDoctor).None? ==>
        doctors == old(doctors) && selectedDoctor == old(selectedDoctor) && storage.data == old(storage.data)
      ensures old(selectedDoctor).Some? ==>
        var id := old(selectedDoctor).value.id;
        doctors == SlotRemovedIn(old(doctors), id, time) && selectedDoctor == FindById(doctors, id) &&
        storage.data == old(storage.data)[DoctorsKey := DoctorList(doctors)]
      ensures newTimeSlot == old(newTimeSlot)
    {
      if selectedDoctor.None? {
        return;
      }
      var id := selectedDoctor.value.id;
      Commit(SlotRemovedIn(doctors, id, time), id);
    }
  }
}
