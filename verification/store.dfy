/**
 * The device's key-value store (AsyncStorage), as a map from key to the
 * collection stored under it. Every screen reads a whole collection, changes
 * it and writes the whole collection back under the same key.
 */
module KeyValueStore {
  import opened Common
  import opened Records
  import opened Doctors

  /** What a key holds, once the stored JSON is parsed. */
  datatype Value =
    | AppointmentList(appointments: seq<Appointment>)
    | DoctorList(doctors: seq<Doctor>)
    | UserList(users: seq<User>)
    | NotificationList(notifications: seq<Notification>)
    | UserRecord(user: User)
    | Str(text: string)

  type Store = map<string, Value>

  const AppointmentsKey := "appointments"
  const DoctorsKey := "doctors"
  const RegisteredUsersKey := "registeredUsers"
  const AdminNotificationsKey := "adminNotifications"
  const CurrentUserKey := "currentUser"
  const UserRoleKey := "userRole"
  const UserEmailKey := "userEmail"
  const UserPasswordKey := "userPassword"

  /** Every key of the app other than the per-patient notification lists. */
  const FixedKeys: set<string> := {AppointmentsKey, DoctorsKey, RegisteredUsersKey, AdminNotificationsKey,
                                   CurrentUserKey, UserRoleKey, UserEmailKey, UserPasswordKey}

  const NotificationsPrefix := "notifications_"

  /** The per-patient key `notifications_<email>`. */
  function NotificationsKey(email: string): (k: string)
    ensures |k| == |NotificationsPrefix| + |email|
    ensures k[..|NotificationsPrefix|] == NotificationsPrefix && k[|NotificationsPrefix|..] == email
  {
    NotificationsPrefix + email
  }

  /** Different patients have different keys, and none of them is a fixed key of the app. */
  lemma NotificationsKeySeparate(a: string, b: string)
    ensures NotificationsKey(a) == NotificationsKey(b) ==> a == b
    ensures NotificationsKey(a) !in FixedKeys
  {
    var k := NotificationsKey(a);
    assert k[0] == 'n' && k[1] == 'o';
    if NotificationsKey(a) == NotificationsKey(b) {
      assert a == NotificationsKey(a)[|NotificationsPrefix|..];
    }
  }

  /** `getItem('appointments')` parsed; absent (`null`) when nothing is stored. */
  function StoredAppointments(s: Store): Option<seq<Appointment>>
  {
    if AppointmentsKey in s && s[AppointmentsKey].AppointmentList? then Some(s[AppointmentsKey].appointments) else None
  }

  /** `stored ? JSON.parse(stored) : []` for `appointments`. */
  function AppointmentsOrEmpty(s: Store): seq<Appointment>
  {
    var stored := StoredAppointments(s);
    if stored.Some? then stored.value else []
  }

  function StoredDoctors(s: Store): Option<seq<Doctor>>
  {
    if DoctorsKey in s && s[DoctorsKey].DoctorList? then Some(s[DoctorsKey].doctors) else None
  }

  function DoctorsOrEmpty(s: Store): seq<Doctor>
  {
    var stored := StoredDoctors(s);
    if stored.Some? then stored.value else []
  }

  function StoredUsers(s: Store): Option<seq<User>>
  {
    if RegisteredUsersKey in s && s[RegisteredUsersKey].UserList? then Some(s[RegisteredUsersKey].users) else None
  }

  function UsersOrEmpty(s: Store): seq<User>
  {
    var stored := StoredUsers(s);
    if stored.Some? then stored.value else []
  }

  /** The notification list under any key (`adminNotifications` or a patient's key). */
  function StoredNotifications(s: Store, key: string): Option<seq<Notification>>
  {
    if key in s && s[key].NotificationList? then Some(s[key].notifications) else None
  }

  function CurrentUser(s: Store): Option<User>
  {
    if CurrentUserKey in s && s[CurrentUserKey].UserRecord? then Some(s[CurrentUserKey].user) else None
  }

  /** A plain string stored under `key` (`userEmail`, `userPassword`). */
  function StoredText(s: Store, key: string): Option<string>
  {
    if key in s && s[key].Str? then Some(s[key].text) else None
  }

  /** The store object every screen shares. */
  class AsyncStorage {
    var data: Store

    constructor (initial: Store)
      ensures data == initial
    {
      data := initial;
    }
  }
}
