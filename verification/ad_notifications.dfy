/**
 * The admin notification list (screens/admin/AdNotificationScreen.tsx):
 * marking a notification read, resolving (deleting) it, and the text shown
 * for it. Every change writes the whole list to `adminNotifications`.
 */
module AdNotifications {
  import opened Common
  import Seqs
  import opened Records
  import opened KeyValueStore

  /** Whether a notification has the given id: `n.id === id`. */
  predicate HasId(n: Notification, id: string)
  {
    n.id == id
  }

  /** `notifications.map(n => n.id === id ? { ...n, read: true } : n)` */
  function MarkAsRead(ns: seq<Notification>, id: string): (r: seq<Notification>)
    ensures |r| == |ns|
    ensures forall i :: 0 <= i < |ns| && ns[i].id != id ==> r[i] == ns[i]
    ensures forall i :: 0 <= i < |ns| && ns[i].id == id ==> r[i] == ns[i].(read := Some(true))
  {
    Seqs.MapWhere(ns, (n: Notification) => HasId(n, id), (n: Notification) => n.(read := Some(true)))
  }

  /** Marking read twice is the same as marking it once. */
  lemma MarkAsReadIdempotent(ns: seq<Notification>, id: string)
    ensures MarkAsRead(MarkAsRead(ns, id), id) == MarkAsRead(ns, id)
  {
  }

  /** Marking different notifications read gives the same list in either order. */
  lemma MarkAsReadCommutes(ns: seq<Notification>, a: string, b: string)
    ensures MarkAsRead(MarkAsRead(ns, a), b) == MarkAsRead(MarkAsRead(ns, b), a)
  {
  }

  /** `notifications.filter(n => n.id !== id)`: every notification with the id goes; the rest stay. */
  function Without(ns: seq<Notification>, id: string): (r: seq<Notification>)
    ensures forall n :: n in r <==> n in ns && n.id != id
    ensures |r| <= |ns|
  {
    Seqs.Filter(ns, (n: Notification) => !HasId(n, id))
  }

  /** Removal works piecewise, so the remaining notifications keep their order. */
  lemma WithoutKeepsOrder(a: seq<Notification>, b: seq<Notification>, id: string)
    ensures Without(a + b, id) == Without(a, id) + Without(b, id)
  {
    Seqs.FilterConcat(a, b, (n: Notification) => !HasId(n, id));
  }

  /** Removing an id no notification has leaves the list as it was. */
  lemma WithoutAbsent(ns: seq<Notification>, id: string)
    requires forall n :: n in ns ==> n.id != id
    ensures Without(ns, id) == ns
  {
    Seqs.FilterKeepsAll(ns, (n: Notification) => !HasId(n, id));
  }

  /** Removing twice is the same as removing once. */
  lemma WithoutTwice(ns: seq<Notification>, id: string)
    ensures Without(Without(ns, id), id) == Without(ns, id)
  {
    Seqs.FilterTwice(ns, (n: Notification) => !HasId(n, id));
  }

  /** `message ?? body ?? 'No details available.'`: an empty message is still shown, only an absent one falls through. */
  function DisplayText(n: Notification): (r: string)
    ensures n.message.Some? ==> r == n.message.value
    ensures n.message.None? && n.body.Some? ==> r == n.body.value
    ensures n.message.None? && n.body.None? ==> r == "No details available."
  {
    match n.message
    case Some(m) => m
    case None => match n.body
      case Some(b) => b
      case None => "No details available."
  }

  /** The admin notification screen's state. */
  class AdNotificationScreen {
    var notifications: seq<Notification>
    const storage: AsyncStorage

    constructor (storage: AsyncStorage)
      ensures notifications == [] && this.storage == storage
    {
      notifications := [];
      this.storage := storage;
    }

    /** Loading takes the stored list, or keeps the current one when nothing is stored. */
    method LoadNotifications()
      modifies this
      ensures var stored := StoredNotifications(storage.data, AdminNotificationsKey);
              notifications == (if stored.Some? then stored.value else old(notifications))
    {
      var stored := StoredNotifications(storage.data, AdminNotificationsKey);
      if stored.Some? {
        notifications := stored.value;
      }
    }

    /** A tap marks the notification read and writes the whole list. */
    method MarkRead(id: string)
      modifies this, storage
      ensures notifications == MarkAsRead(old(notifications), id)
      ensures storage.data == old(storage.data)[AdminNotificationsKey := NotificationList(notifications)]
    {
      notifications := MarkAsRead(notifications, id);
      storage.data := storage.data[AdminNotificationsKey := NotificationList(notifications)];
    }

    /** A swipe action resolves (deletes) the notification and writes the whole list. */
    method DeleteNotification(id: string)
      modifies this, storage
      ensures notifications == Without(old(notifications), id)
      ensures storage.data == old(storage.data)[AdminNotificationsKey := NotificationList(notifications)]
    {
      notifications := Without(notifications, id);
      storage.data := storage.data[AdminNotificationsKey := NotificationList(notifications)];
    }
  }
}
