/**
 * The admin appointment list (screens/admin/AdAppointmentsScreen.tsx): every
 * stored record is normalised to the admin's shape on load, "cancel" deletes
 * the record and writes the normalised remainder back, and the status badge
 * has its own colour table.
 */
module AdAppointments {
  import opened Common
  import opened Text
  import Seqs
  import opened Records
  import opened KeyValueStore
  import AppointmentHistory

  /**
   * One stored record in the admin's shape: each field that is absent or
   * empty gets its default (`nowIso` for the date), and the fields the admin
   * shape does not have (`userId`, `doctorId`, `doctorName`) are dropped.
   */
  function Normalized(a: Appointment, nowIso: string): (r: Appointment)
    ensures r.id == Some(OrDefault(a.id, "")) && r.patientName == Some(OrDefault(a.patientName, "Unknown Patient"))
    ensures r.status == Some(OrDefault(a.status, "Pending")) && r.doctor == Some(OrDefault(a.doctor, "Unknown Doctor"))
    ensures r.specialty == Some(OrDefault(a.specialty, "General")) && r.date == Some(OrDefault(a.date, nowIso))
    ensures r.time == Some(OrDefault(a.time, "--:--")) && r.patientEmail == Some(OrDefault(a.patientEmail, ""))
    ensures r.patientPhone == Some(OrDefault(a.patientPhone, "")) && r.notes == Some(OrDefault(a.notes, ""))
    ensures r.userId.None? && r.doctorId.None? && r.doctorName.None?
  {
    Appointment(
      id := Some(OrDefault(a.id, "")),
      userId := None,
      doctorId := None,
      doctor := Some(OrDefault(a.doctor, "Unknown Doctor")),
      doctorName := None,
      specialty := Some(OrDefault(a.specialty, "General")),
      date := Some(OrDefault(a.date, nowIso)),
      time := Some(OrDefault(a.time, "--:--")),
      status := Some(OrDefault(a.status, "Pending")),
      patientName := Some(OrDefault(a.patientName, "Unknown Patient")),
      patientEmail := Some(OrDefault(a.patientEmail, "")),
      patientPhone := Some(OrDefault(a.patientPhone, "")),
      notes := Some(OrDefault(a.notes, "")))
  }

  /** Present (non-empty) fields survive normalisation unchanged. */
  lemma NormalizedKeepsPresentFields(a: Appointment, nowIso: string)
    ensures var r := Normalized(a, nowIso);
      (Truthy(a.id) ==> r.id == a.id) && (Truthy(a.patientName) ==> r.patientName == a.patientName) &&
      (Truthy(a.status) ==> r.status == a.status) && (Truthy(a.doctor) ==> r.doctor == a.doctor) &&
      (Truthy(a.specialty) ==> r.specialty == a.specialty) && (Truthy(a.date) ==> r.date == a.date) &&
      (Truthy(a.time) ==> r.time == a.time) && (Truthy(a.notes) ==> r.notes == a.notes) &&
      (Truthy(a.patientEmail) ==> r.patientEmail == a.patientEmail) &&
      (Truthy(a.patientPhone) ==> r.patientPhone == a.patientPhone)
  {
  }

  /** Normalising a normalised record changes nothing. */
  lemma NormalizedIdempotent(a: Appointment, nowIso: string)
    ensures Normalized(Normalized(a, nowIso), nowIso) == Normalized(a, nowIso)
  {
  }

  /** `parsedAppointments.map(...)`: one output record per stored record, in stored order. */
  function NormalizeAll(all: seq<Appointment>, nowIso: string): (r: seq<Appointment>)
    ensures |r| == |all|
    ensures forall i :: 0 <= i < |all| ==> r[i] == Normalized(all[i], nowIso)
  {
    seq(|all|, i requires 0 <= i < |all| => Normalized(all[i], nowIso))
  }

  /** Whether a record survives the admin's cancel of `id`: `app.id !== id`. */
  predicate Keeps(id: string, a: Appointment)
  {
    a.id != Some(id)
  }

  /** `appointments.filter(app => app.id !== id)`: every record with the id goes, the rest keep their order. */
  function AdminCancel(list: seq<Appointment>, id: string): (r: seq<Appointment>)
    ensures forall a :: a in r <==> a in list && a.id != Some(id)
    ensures |r| <= |list|
  {
    Seqs.Filter(list, (a: Appointment) => Keeps(id, a))
  }

  /** The admin's cancel works piecewise, so the remaining records keep their order. */
  lemma AdminCancelKeepsOrder(a: seq<Appointment>, b: seq<Appointment>, id: string)
    ensures AdminCancel(a + b, id) == AdminCancel(a, id) + AdminCancel(b, id)
  {
    Seqs.FilterConcat(a, b, (x: Appointment) => Keeps(id, x));
  }

  /** Cancelling an id no record has leaves the list as it was. */
  lemma AdminCancelAbsent(list: seq<Appointment>, id: string)
    requires forall a :: a in list ==> a.id != Some(id)
    ensures AdminCancel(list, id) == list
  {
    Seqs.FilterKeepsAll(list, (a: Appointment) => Keeps(id, a));
  }

  /** The cancelled record is deleted, not marked: no remaining record has its id, so none can show a cancelled status for it. */
  lemma AdminCancelDeletes(list: seq<Appointment>, id: string, i: nat)
    requires i < |list| && list[i].id == Some(id)
    ensures list[i] !in AdminCancel(list, id)
    ensures |AdminCancel(list, id)| < |list|
  {
    assert list == list[..i] + [list[i]] + list[i + 1..];
    AdminCancelKeepsOrder(list[..i] + [list[i]], list[i + 1..], id);
    AdminCancelKeepsOrder(list[..i], [list[i]], id);
    assert AdminCancel([list[i]], id) == [];
  }

  /**
   * After the admin cancels anything, the written collection holds only
   * normalised records, which have no `userId`: a patient with an id then
   * finds none of their appointments.
   */
  lemma AdminCancelHidesPatientRecords(all: seq<Appointment>, nowIso: string, id: string, user: User)
    requires user.id.Some?
    ensures AppointmentHistory.UserAppointments(AdminCancel(NormalizeAll(all, nowIso), id), user) == []
  {
    var normalized := NormalizeAll(all, nowIso);
    var written := AdminCancel(normalized, id);
    forall a | a in written
      ensures !AppointmentHistory.Owns(user, a)
    {
      var i :| 0 <= i < |normalized| && normalized[i] == a;
    }
    AppointmentHistory.UserAppointmentsNoneOwned(written, user);
  }

  /** The admin badge colours. */
  const Green := "#4CAF50"
  const Orange := "#FF9800"
  const Red := "#F44336"
  const Blue := "#2196F3"

  /** `getStatusColor(status)`: matched after lower-casing; only 'cancelled' with two l's is red. */
  function StatusColor(status: Option<string>): (r: string)
    ensures var s := ToLower(OrDefault(status, ""));
      (r == Green <==> s == "confirmed") && (r == Orange <==> s == "pending") &&
      (r == Red <==> s == "cancelled") && (r == Blue <==> s !in {"confirmed", "pending", "cancelled"})
  {
    var s := ToLower(OrDefault(status, ""));
    if s == "confirmed" then Green
    else if s == "pending" then Orange
    else if s == "cancelled" then Red
    else Blue
  }

  /** Matching ignores case: 'Pending' (the admin default) and 'PENDING' show orange. */
  lemma StatusColorIgnoresCase()
    ensures StatusColor(Some("Pending")) == Orange && StatusColor(Some("PENDING")) == Orange
  {
    assert ToLower("Pending") == "pending";
    assert ToLower("PENDING") == "pending";
  }

  /** A patient-cancelled record ('canceled', one l) is red on the patient's list but blue on the admin's. */
  lemma CanceledColoursDiffer()
    ensures StatusColor(Some("canceled")) == Blue
    ensures AppointmentHistory.StatusColor(Some("canceled")) == Red
  {
    assert ToLower("canceled") == "canceled";
  }

  /** The admin appointment screen's state. */
  class AdAppointmentsScreen {
    var appointments: seq<Appointment>
    const storage: AsyncStorage

    constructor (storage: AsyncStorage)
      ensures appointments == [] && this.storage == storage
    {
      appointments := [];
      this.storage := storage;
    }

    /** `fetchAppointments(nowIso)`: the normalised stored list, or the list as it was when nothing is stored. */
    method FetchAppointments(nowIso: string)
      modifies this
      ensures StoredAppointments(storage.data).None? ==> appointments == old(appointments)
      ensures StoredAppointments(storage.data).Some? ==>
        appointments == NormalizeAll(StoredAppointments(storage.data).value, nowIso)
    {
      var stored := StoredAppointments(storage.data);
      if stored.Some? {
        appointments := NormalizeAll(stored.value, nowIso);
      }
    }

    /** `cancelAppointment(id)` after "Yes": the shown list without that record is written as the whole collection. */
    method CancelAppointment(id: string)
      modifies this, storage
      ensures appointments == AdminCancel(old(appointments), id)
      ensures storage.data == old(storage.data)[AppointmentsKey := AppointmentList(appointments)]
    {
      appointments := AdminCancel(appointments, id);
      storage.data := storage.data[AppointmentsKey := AppointmentList(appointments)];
    }
  }
}
