/**
 * The admin patient list (screens/admin/AdPatientsScreen.tsx): the
 * registered users, and deleting one of them.
 */
module AdPatients {
  import opened Common
  import Seqs
  import opened Records
  import opened KeyValueStore

  /** Whether a user survives deleting `id`: `patient.id !== id`. */
  predicate Keeps(id: Option<string>, u: User)
  {
    u.id != id
  }

  /** `patients.filter(patient => patient.id !== id)`: every user with the id goes; the rest stay. */
  function WithoutPatient(users: seq<User>, id: Option<string>): (r: seq<User>)
    ensures forall u :: u in r <==> u in users && u.id != id
    ensures |r| <= |users|
  {
    Seqs.Filter(users, (u: User) => Keeps(id, u))
  }

  /** Deleting works piecewise, so the remaining users keep their order. */
  lemma WithoutPatientKeepsOrder(a: seq<User>, b: seq<User>, id: Option<string>)
    ensures WithoutPatient(a + b, id) == WithoutPatient(a, id) + WithoutPatient(b, id)
  {
    Seqs.FilterConcat(a, b, (u: User) => Keeps(id, u));
  }

  /** Deleting an id no user has leaves the list as it was. */
  lemma WithoutPatientAbsent(users: seq<User>, id: Option<string>)
    requires forall u :: u in users ==> u.id != id
    ensures WithoutPatient(users, id) == users
  {
    Seqs.FilterKeepsAll(users, (u: User) => Keeps(id, u));
  }

  /** The admin patient screen's state. */
  class AdPatientsScreen {
    var patients: seq<User>
    const storage: AsyncStorage

    constructor (storage: AsyncStorage)
      ensures patients == [] && this.storage == storage
    {
      patients := [];
      this.storage := storage;
    }

    /** `fetchPatients`: the stored users, or an empty list when nothing is stored. */
    method FetchPatients()
      modifies this
      ensures patients == UsersOrEmpty(storage.data)
      ensures StoredUsers(storage.data).None? ==> patients == []
    {
      patients := UsersOrEmpty(storage.data);
    }

    /**
     * `deletePatient(id)` after "Delete": the list without that user is
     * written to `registeredUsers`; the user's appointments, notifications
     * and `currentUser` entry are left in place.
     */
    method DeletePatient(id: Option<string>)
      modifies this, storage
      ensures patients == WithoutPatient(old(patients), id)
      ensures storage.data == old(storage.data)[RegisteredUsersKey := UserList(patients)]
      ensures AppointmentsOrEmpty(storage.data) == AppointmentsOrEmpty(old(storage.data))
      ensures CurrentUser(storage.data) == CurrentUser(old(storage.data))
    {
      patients := WithoutPatient(patients, id);
      storage.data := storage.data[RegisteredUsersKey := UserList(patients)];
    }
  }
}
