/**
 * The admin dashboard figures (screens/admin/AdminDashboardScreen.tsx).
 */
module Dashboard {
  import opened Common
  import Seqs
  import opened Records
  import opened KeyValueStore
  import Register

  /** The three figures on the dashboard. */
  datatype Stats = Stats(todayAppointments: nat, activeDoctors: nat, registeredPatients: nat)

  /** The figures before the first load. */
  const InitialStats := Stats(0, 2, 0)

  /** `u.role === 'patient' || !u.role`: a role that is absent, empty or 'patient'. */
  predicate IsPatient(u: User)
    ensures IsPatient(u) <==> u.role.None? || u.role == Some("") || u.role == Some("patient")
  {
    u.role == Some("patient") || !Truthy(u.role)
  }

  /** The users counted as patients, in order. */
  function Patients(users: seq<User>): (r: seq<User>)
    ensures forall u :: u in r <==> u in users && (u.role == Some("patient") || !Truthy(u.role))
    ensures |r| <= |users|
  {
    Seqs.Filter(users, IsPatient)
  }

  /**
   * `fetchStats`: every stored appointment counts as today's (there is no
   * date filter), the doctor count is fixed at 2, and the patients are the
   * users whose role is 'patient' or missing. A missing collection counts as
   * empty.
   */
  function FetchStats(s: Store): (r: Stats)
    ensures r.todayAppointments == |AppointmentsOrEmpty(s)| && r.activeDoctors == 2
    ensures r.registeredPatients == |Patients(UsersOrEmpty(s))| <= |UsersOrEmpty(s)|
    ensures StoredAppointments(s).None? ==> r.todayAppointments == 0
    ensures StoredUsers(s).None? ==> r.registeredPatients == 0
  {
    Stats(|AppointmentsOrEmpty(s)|, 2, |Patients(UsersOrEmpty(s))|)
  }

  /** Counting patients works piecewise. */
  lemma PatientsConcat(a: seq<User>, b: seq<User>)
    ensures Patients(a + b) == Patients(a) + Patients(b)
  {
    Seqs.FilterConcat(a, b, IsPatient);
  }

  /** A registration (which stores no role) adds exactly one patient to the figure. */
  lemma RegistrationAddsPatient(s: Store, users: seq<User>, candidate: User)
    requires Register.Register(UsersOrEmpty(s), candidate) == Register.Registered(users)
    requires candidate.role.None?
    ensures FetchStats(s[RegisteredUsersKey := UserList(users)][CurrentUserKey := UserRecord(candidate)]).registeredPatients ==
            FetchStats(s).registeredPatients + 1
  {
    var s' := s[RegisteredUsersKey := UserList(users)][CurrentUserKey := UserRecord(candidate)];
    assert UsersOrEmpty(s') == UsersOrEmpty(s) + [candidate];
    PatientsConcat(UsersOrEmpty(s), [candidate]);
    assert Patients([candidate]) == [candidate];
  }

  /** A booking, which appends one record, raises "today's appointments" by one whatever its date. */
  lemma BookingAddsAppointment(s: Store, a: Appointment)
    ensures FetchStats(s[AppointmentsKey := AppointmentList(AppointmentsOrEmpty(s) + [a])]).todayAppointments ==
            FetchStats(s).todayAppointments + 1
  {
  }

  /** An administrator account stored with role 'admin' is not counted. */
  lemma AdminRoleNotCounted(u: User)
    requires u.role == Some("admin")
    ensures Patients([u]) == []
  {
    Seqs.FilterDropsAll([u], IsPatient);
  }
}
