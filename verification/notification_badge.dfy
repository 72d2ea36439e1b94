/**
 * The unread badge on the admin's notification icon
 * (components/NotificationIconWithBadge.tsx).
 */
module NotificationBadge {
  import opened Common
  import Seqs
  import opened Records
  import opened KeyValueStore
  import AdNotifications

  /** `!n.read`: absent or `false` counts as unread. */
  predicate IsUnread(n: Notification)
  {
    n.read != Some(true)
  }

  /** The number of unread notifications. */
  function UnreadCount(ns: seq<Notification>): (c: nat)
    ensures c <= |ns|
    ensures c == 0 <==> forall n :: n in ns ==> !IsUnread(n)
    ensures c == |ns| <==> forall n :: n in ns ==> IsUnread(n)
    decreases |ns|
  {
    if ns == [] then 0
    else
      assert forall n :: n in ns <==> n == ns[0] || n in ns[1..];
      (if IsUnread(ns[0]) then 1 else 0) + UnreadCount(ns[1..])
  }

  /** The count is the length of the filtered list, as `filter(...).length` computes it. */
  lemma {:induction false} UnreadCountIsFilterLength(ns: seq<Notification>)
    ensures UnreadCount(ns) == |Seqs.Filter(ns, IsUnread)|
    decreases |ns|
  {
    if ns != [] {
      UnreadCountIsFilterLength(ns[1..]);
      assert Seqs.Filter(ns, IsUnread) == (if IsUnread(ns[0]) then [ns[0]] else []) + Seqs.Filter(ns[1..], IsUnread) by {
        assert ns == [ns[0]] + ns[1..];
        Seqs.FilterConcat([ns[0]], ns[1..], IsUnread);
      }
    }
  }

  /** Counting works piecewise. */
  lemma {:induction false} UnreadCountConcat(a: seq<Notification>, b: seq<Notification>)
    ensures UnreadCount(a + b) == UnreadCount(a) + UnreadCount(b)
    decreases |a|
  {
    if a == [] {
      assert a + b == b;
    } else {
      assert (a + b)[0] == a[0] && (a + b)[1..] == a[1..] + b;
      UnreadCountConcat(a[1..], b);
    }
  }

  /** A list whose unread entries are unread in another list of the same length counts no more, and strictly less if the other has one more. */
  lemma {:induction false} UnreadCountMonotone(x: seq<Notification>, y: seq<Notification>)
    requires |x| == |y|
    requires forall i :: 0 <= i < |x| && IsUnread(x[i]) ==> IsUnread(y[i])
    ensures UnreadCount(x) <= UnreadCount(y)
    ensures (exists k :: 0 <= k < |x| && !IsUnread(x[k]) && IsUnread(y[k])) ==> UnreadCount(x) < UnreadCount(y)
    decreases |x|
  {
    if x != [] {
      assert forall i :: 0 <= i < |x| - 1 ==> x[1..][i] == x[i + 1] && y[1..][i] == y[i + 1];
      UnreadCountMonotone(x[1..], y[1..]);
      if exists k :: 0 <= k < |x| && !IsUnread(x[k]) && IsUnread(y[k]) {
        var k :| 0 <= k < |x| && !IsUnread(x[k]) && IsUnread(y[k]);
        if k > 0 {
          assert !IsUnread(x[1..][k - 1]) && IsUnread(y[1..][k - 1]);
        }
      }
    }
  }

  /** Marking read never raises the count, and lowers it when the id belongs to an unread notification. */
  lemma MarkAsReadLowersCount(ns: seq<Notification>, id: string)
    ensures UnreadCount(AdNotifications.MarkAsRead(ns, id)) <= UnreadCount(ns)
    ensures (exists n :: n in ns && n.id == id && IsUnread(n)) ==> UnreadCount(AdNotifications.MarkAsRead(ns, id)) < UnreadCount(ns)
  {
    var r := AdNotifications.MarkAsRead(ns, id);
    if exists n :: n in ns && n.id == id && IsUnread(n) {
      var n :| n in ns && n.id == id && IsUnread(n);
      var k :| 0 <= k < |ns| && ns[k] == n;
      assert !IsUnread(r[k]);
    }
    UnreadCountMonotone(r, ns);
  }

  /**
   * `fetchUnreadCount`: the stored list's count, 0 when nothing is stored,
   * and the previous count when reading fails.
   */
  function FetchUnreadCount(stored: Option<seq<Notification>>, readFailed: bool, previous: nat): (c: nat)
    ensures readFailed ==> c == previous
    ensures !readFailed && stored.None? ==> c == 0
    ensures !readFailed && stored.Some? ==> c == |Seqs.Filter(stored.value, IsUnread)|
  {
    if readFailed then previous
    else if stored.Some? then (UnreadCountIsFilterLength(stored.value); UnreadCount(stored.value))
    else 0
  }

  /** `unreadCount > 0`: the badge is shown exactly when some stored notification is unread. */
  predicate ShowBadge(count: nat)
  {
    count > 0
  }

  lemma ShowBadgeIffUnread(ns: seq<Notification>)
    ensures ShowBadge(FetchUnreadCount(Some(ns), false, 0)) <==> exists n :: n in ns && IsUnread(n)
  {
    UnreadCountIsFilterLength(ns);
  }
}
