/**
 * The patient's notification list (screens/patient/NotificationsScreen.tsx):
 * loaded from the key `notifications_<email>` of the current user, and
 * resolving a notification deletes it from that key.
 */
module PatientNotifications {
  import opened Common
  import opened Records
  import opened KeyValueStore
  import AdNotifications

  /** The patient notification screen's state. */
  class PatientNotificationsScreen {
    var notifications: seq<Notification>
    var userEmail: string
    const storage: AsyncStorage

    constructor (storage: AsyncStorage)
      ensures notifications == [] && userEmail == "" && this.storage == storage
    {
      notifications := [];
      userEmail := "";
      this.storage := storage;
    }

    /**
     * With no current user nothing is loaded. Otherwise the user's e-mail is
     * kept and the list is what is stored under that user's key, or empty.
     */
    method LoadUserAndNotifications()
      modifies this
      ensures CurrentUser(storage.data).None? ==> notifications == old(notifications) && userEmail == old(userEmail)
      ensures CurrentUser(storage.data).Some? ==>
        var email := CurrentUser(storage.data).value.email;
        var stored := StoredNotifications(storage.data, NotificationsKey(email));
        userEmail == email && notifications == (if stored.Some? then stored.value else [])
    {
      var user := CurrentUser(storage.data);
      if user.None? {
        return;
      }
      userEmail := user.value.email;
      var stored := StoredNotifications(storage.data, NotificationsKey(userEmail));
      notifications := if stored.Some? then stored.value else [];
    }

    /**
     * `resolveNotification(id)` after "Resolve": every notification with the
     * id goes, and the rest is written under the user's key, no other key.
     */
    method ResolveNotification(id: string)
      modifies this, storage
      ensures notifications == AdNotifications.Without(old(notifications), id) && userEmail == old(userEmail)
      ensures storage.data == old(storage.data)[NotificationsKey(userEmail) := NotificationList(notifications)]
    {
      notifications := AdNotifications.Without(notifications, id);
      storage.data := storage.data[NotificationsKey(userEmail) := NotificationList(notifications)];
    }
  }

  /** Resolving a patient's notification leaves every other patient's list, and every fixed key, as it was. */
  lemma ResolveTouchesOnlyOwnKey(s: Store, email: string, other: string, ns: seq<Notification>)
    requires other != email
    ensures var s' := s[NotificationsKey(email) := NotificationList(ns)];
            StoredNotifications(s', NotificationsKey(other)) == StoredNotifications(s, NotificationsKey(other)) &&
            StoredNotifications(s', AdminNotificationsKey) == StoredNotifications(s, AdminNotificationsKey) &&
            AppointmentsOrEmpty(s') == AppointmentsOrEmpty(s) && CurrentUser(s') == CurrentUser(s)
    ensures var s' := s[NotificationsKey(email) := NotificationList(ns)];
            forall k :: k in FixedKeys ==> (k in s' <==> k in s) && (k in s ==> s'[k] == s[k])
  {
    NotificationsKeySeparate(other, email);
    NotificationsKeySeparate(email, other);
  }
}
