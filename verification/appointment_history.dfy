/**
 * The patient's appointment list (screens/patient/AppointmentHistoryScreen.tsx):
 * loading the current user's records with defaults filled in, cancelling one,
 * the status filter, the status colour and the avatar initials.
 */
module AppointmentHistory {
  import opened Common
  import opened Text
  import Seqs
  import opened Records
  import opened Doctors
  import opened KeyValueStore
  import BookAppointment

  /** `status || 'pending'` */
  const Pending := "pending"
  const Canceled := "canceled"

  /**
   * The record as the list shows it: the user's name (or 'Patient'), e-mail
   * and phone copied in, and a missing or empty status read as 'pending'.
   */
  function WithPatientDefaults(a: Appointment, user: User): (r: Appointment)
    ensures r.patientName == Some(if user.name != "" then user.name else "Patient")
    ensures r.patientEmail == Some(user.email) && r.patientPhone == user.phone
    ensures Truthy(a.status) ==> r.status == a.status
    ensures !Truthy(a.status) ==> r.status == Some(Pending)
    ensures r.(patientName := a.patientName, patientEmail := a.patientEmail,
               patientPhone := a.patientPhone, status := a.status) == a
  {
    a.(patientName := Some(if user.name != "" then user.name else "Patient"),
       patientEmail := Some(user.email),
       patientPhone := user.phone,
       status := Some(OrDefault(a.status, Pending)))
  }

  /** Whether a record belongs to the user: `appt.userId === currentUser.id`, where two absent ids are equal. */
  predicate Owns(user: User, a: Appointment)
    ensures a.userId.None? ==> (Owns(user, a) <==> user.id.None?)
    ensures a.userId.Some? && user.id.Some? ==> (Owns(user, a) <==> a.userId.value == user.id.value)
  {
    a.userId == user.id
  }

  /** The list `loadAppointments` shows: the user's records, in stored order, with defaults filled in. */
  function UserAppointments(all: seq<Appointment>, user: User): (r: seq<Appointment>)
    ensures |r| <= |all|
    ensures forall b :: b in r ==> Owns(user, b) && Truthy(b.status)
    ensures forall b :: b in r <==> exists a :: a in all && Owns(user, a) && b == WithPatientDefaults(a, user)
    decreases |all|
  {
    if all == [] then []
    else
      var rest := UserAppointments(all[1..], user);
      assert forall a :: a in all <==> a == all[0] || a in all[1..];
      if Owns(user, all[0]) then [WithPatientDefaults(all[0], user)] + rest else rest
  }

  /** Loading works piecewise: the user's records keep their stored order. */
  lemma {:induction false} UserAppointmentsConcat(a: seq<Appointment>, b: seq<Appointment>, user: User)
    ensures UserAppointments(a + b, user) == UserAppointments(a, user) + UserAppointments(b, user)
    decreases |a|
  {
    if a == [] {
      assert a + b == b;
    } else {
      assert (a + b)[1..] == a[1..] + b;
      UserAppointmentsConcat(a[1..], b, user);
    }
  }

  /** A record of another user (or an id-less record, for a user with an id) makes the loaded list strictly shorter. */
  lemma {:induction false} UserAppointmentsDropsOthers(all: seq<Appointment>, user: User, other: Appointment)
    requires other in all && !Owns(user, other)
    ensures |UserAppointments(all, user)| < |all|
    decreases |all|
  {
    if all[0] != other {
      assert other in all[1..];
      UserAppointmentsDropsOthers(all[1..], user, other);
    }
  }

  /** A list with none of the user's records loads as empty. */
  lemma {:induction false} UserAppointmentsNoneOwned(all: seq<Appointment>, user: User)
    requires forall a :: a in all ==> !Owns(user, a)
    ensures UserAppointments(all, user) == []
    decreases |all|
  {
    if all != [] {
      assert all[0] in all;
      UserAppointmentsNoneOwned(all[1..], user);
    }
  }

  /** A booked record has no `userId`, so a user with an id never sees it: booking leaves that user's list as it was. */
  lemma BookedRecordsAreInvisible(s: Store, doctor: Doctor, now: string, date: string, time: string, user: User)
    requires user.id.Some?
    ensures var a := BookAppointment.NewAppointment(now, doctor, date, time);
            UserAppointments(BookAppointment.Booked(s, a), user) == UserAppointments(AppointmentsOrEmpty(s), user)
  {
    var a := BookAppointment.NewAppointment(now, doctor, date, time);
    UserAppointmentsConcat(AppointmentsOrEmpty(s), [a], user);
    assert [a][1..] == [];
  }

  /** Whether a record is the one being cancelled: `app.id === id`. */
  predicate HasId(a: Appointment, id: Option<string>)
  {
    a.id == id
  }

  /** `appointments.map(...)` setting status 'canceled' on the record(s) with the id; the rest, and the length, stay. */
  function CancelIn(list: seq<Appointment>, id: Option<string>): (r: seq<Appointment>)
    ensures |r| == |list|
    ensures forall i :: 0 <= i < |list| && list[i].id != id ==> r[i] == list[i]
    ensures forall i :: 0 <= i < |list| && list[i].id == id ==>
      r[i].status == Some(Canceled) && r[i].(status := list[i].status) == list[i]
  {
    Seqs.MapWhere(list, (a: Appointment) => HasId(a, id), (a: Appointment) => a.(status := Some(Canceled)))
  }

  /** Cancelling the same record twice is the same as cancelling it once. */
  lemma CancelIdempotent(list: seq<Appointment>, id: Option<string>)
    ensures CancelIn(CancelIn(list, id), id) == CancelIn(list, id)
  {
  }

  /**
   * Cancel writes the loaded list as the whole `appointments` collection: every
   * written record is the user's, so another user's record that was stored is
   * gone and the collection shrinks.
   */
  lemma CancelDropsOtherUsers(all: seq<Appointment>, user: User, id: Option<string>, other: Appointment)
    requires other in all && !Owns(user, other)
    ensures var written := CancelIn(UserAppointments(all, user), id);
            (forall b :: b in written ==> Owns(user, b)) && |written| < |all|
  {
    var loaded := UserAppointments(all, user);
    var written := CancelIn(loaded, id);
    forall b | b in written
      ensures Owns(user, b)
    {
      var i :| 0 <= i < |written| && written[i] == b;
      assert loaded[i] in loaded;
    }
    UserAppointmentsDropsOthers(all, user, other);
  }

  /** Reschedule and Cancel are offered only for a record whose status is not 'canceled'; a record without them shows red. */
  predicate CanModify(a: Appointment)
    ensures !CanModify(a) ==> StatusColor(a.status) == Red
  {
    assert ToLower(Canceled) == Canceled;
    a.status != Some(Canceled)
  }

  /** After a cancel the cancelled record offers no actions; the others offer what they did. */
  lemma CancelRemovesActions(list: seq<Appointment>, id: Option<string>)
    ensures forall i :: 0 <= i < |list| ==>
      (CanModify(CancelIn(list, id)[i]) <==> list[i].id != id && CanModify(list[i]))
  {
  }

  /** The filter buttons. */
  const StatusFilters: seq<string> := ["All", "Pending", "Confirmed", "Canceled"]

  /** `statusFilter === 'All' || app.status?.toLowerCase() === statusFilter.toLowerCase()` */
  predicate ShownBy(filter: string, a: Appointment)
  {
    filter == "All" || (a.status.Some? && ToLower(a.status.value) == ToLower(filter))
  }

  /** The records the list shows under a filter, in order. */
  function Visible(list: seq<Appointment>, filter: string): (r: seq<Appointment>)
    ensures |r| <= |list|
    ensures forall a :: a in r <==>
      a in list && (filter == "All" || (a.status.Some? && ToLower(a.status.value) == ToLower(filter)))
  {
    Seqs.Filter(list, (a: Appointment) => ShownBy(filter, a))
  }

  /** 'All' shows the whole list. */
  lemma AllShowsEverything(list: seq<Appointment>)
    ensures Visible(list, "All") == list
  {
    Seqs.FilterKeepsAll(list, (a: Appointment) => ShownBy("All", a));
  }

  /** A record just cancelled is listed under 'Canceled' and not under 'Pending' or 'Confirmed'. */
  lemma CanceledRecordFilter(list: seq<Appointment>, id: Option<string>, i: nat)
    requires i < |list| && list[i].id == id
    ensures CancelIn(list, id)[i] in Visible(CancelIn(list, id), "Canceled")
    ensures CancelIn(list, id)[i] !in Visible(CancelIn(list, id), "Pending")
    ensures CancelIn(list, id)[i] !in Visible(CancelIn(list, id), "Confirmed")
  {
    assert ToLower("Canceled") == Canceled;
    assert ToLower(Canceled) == Canceled;
    assert ToLower("Pending") == Pending;
    assert ToLower("Confirmed") == "confirmed";
  }

  /** The badge colours. */
  const Green := "#4CAF50"
  const Orange := "#FF9800"
  const Red := "#F44336"
  const Blue := "#2196F3"

  /** `getStatusColor(status)`: matched after lower-casing; an absent status gets the default blue. */
  function StatusColor(status: Option<string>): (r: string)
    ensures var s := ToLower(OrDefault(status, ""));
      (r == Green <==> s == "confirmed") && (r == Orange <==> s == Pending) &&
      (r == Red <==> s == "declined" || s == Canceled) &&
      (r == Blue <==> s !in {"confirmed", Pending, "declined", Canceled})
  {
    var s := ToLower(OrDefault(status, ""));
    if s == "confirmed" then Green
    else if s == Pending then Orange
    else if s == "declined" || s == Canceled then Red
    else Blue
  }

  /** Every record on the list has a status, so none gets the absent-status fallback; a loaded record without one shows orange. */
  lemma LoadedStatusColor(a: Appointment, user: User)
    requires !Truthy(a.status)
    ensures StatusColor(WithPatientDefaults(a, user).status) == Orange
  {
    assert ToLower(Pending) == Pending;
  }

  /** `getInitials(name)`: '?' for an absent or empty name, else the first letters of the first two space-separated words, upper-cased. */
  function Initials(name: Option<string>): (r: string)
    ensures !Truthy(name) ==> r == "?"
    ensures Truthy(name) ==> |r| <= 2 && forall i :: 0 <= i < |r| ==> !IsLower(r[i])
    ensures Truthy(name) && name.value[0] != ' ' ==> |r| >= 1 && r[0] == UpperChar(name.value[0])
  {
    if !Truthy(name) then "?" else FirstLetters(name.value)
  }

  /** A name starting with two words separated by one space gives their first letters, upper-cased; nothing is trimmed first. */
  lemma InitialsTwoWords(a: string, b: string, rest: string)
    requires a != [] && b != [] && ' ' !in a && ' ' !in b
    requires rest == [] || rest[0] == ' '
    ensures Initials(Some(a + " " + b + rest)) == [UpperChar(a[0]), UpperChar(b[0])]
  {
    FirstLettersTwoWords(a, b, rest);
  }

  /** A name with a leading space has an empty first word, so its initials are at most the next word's letter. */
  lemma InitialsLeadingSpace(b: string, rest: string)
    requires b != [] && ' ' !in b
    requires rest == [] || rest[0] == ' '
    ensures Initials(Some(" " + b + rest)) == [UpperChar(b[0])]
  {
    assert " " + b + rest == [] + " " + b + rest;
    SplitTwoWords([], b, rest);
    FirstLettersOfWords(" " + b + rest, [], b);
  }

  /** The patient list screen's state. */
  class AppointmentHistoryScreen {
    var appointments: seq<Appointment>
    var statusFilter: string
    const storage: AsyncStorage

    constructor (storage: AsyncStorage)
      ensures appointments == [] && statusFilter == "All" && this.storage == storage
    {
      appointments := [];
      statusFilter := "All";
      this.storage := storage;
    }

    /** `loadAppointments`: with no current user the list is left as it was; otherwise it is the user's records. */
    method LoadAppointments()
      modifies this
      ensures CurrentUser(storage.data).None? ==> appointments == old(appointments)
      ensures CurrentUser(storage.data).Some? ==>
        appointments == UserAppointments(AppointmentsOrEmpty(storage.data), CurrentUser(storage.data).value)
      ensures statusFilter == old(statusFilter)
    {
      var user := CurrentUser(storage.data);
      if user.None? {
        return;
      }
      appointments := UserAppointments(AppointmentsOrEmpty(storage.data), user.value);
    }

    /** A filter button. */
    method SetStatusFilter(filter: string)
      requires filter in StatusFilters
      modifies this
      ensures statusFilter == filter && appointments == old(appointments)
    {
      statusFilter := filter;
    }

    /** `deleteAppointment(id)` after "Yes": the shown list, with that record cancelled, becomes the whole stored collection. */
    method DeleteAppointment(id: Option<string>)
      modifies this, storage
      ensures appointments == CancelIn(old(appointments), id)
      ensures storage.data == old(storage.data)[AppointmentsKey := AppointmentList(appointments)]
      ensures statusFilter == old(statusFilter)
    {
      appointments := CancelIn(appointments, id);
      storage.data := storage.data[AppointmentsKey := AppointmentList(appointments)];
    }
  }
}
