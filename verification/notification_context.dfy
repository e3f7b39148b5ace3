/** The notification store: an ordered list of notifications, newest first, with a derived
    unread count (src/contexts/NotificationContext.tsx). The clock is a parameter: `now` is the
    reading of `Date.now()` in milliseconds. */
module NotificationContext {
  import opened Wrappers
  import Text
  import Seqs
  import Hooks

  datatype Kind = Order | Promo | System | Stock

  datatype Notification = Notification(
    id: string,
    title: string,
    message: string,
    kind: Kind,
    read: bool,
    createdAt: int)

  const HourMillis: int := 3600000

  /** The three sample notifications the store starts with; `now` is the clock at load time. */
  function InitialNotifications(now: int): seq<Notification>
  {
    [ Notification("1", "Welcome to Saranya Ice Creams!",
        "Thank you for visiting. Enjoy 10% off on your first order!", Promo, false, now),
      Notification("2", "New Flavor Alert",
        "Try our new Mango Passion fruit ice cream - limited edition!", Promo, false, now - HourMillis),
      Notification("3", "Low Stock Warning",
        "Belgian Chocolate is running low on stock.", Stock, false, now - 2 * HourMillis) ]
  }

  predicate IsUnread(n: Notification)
  {
    !n.read
  }

  /** `unreadCount`: the length of the list filtered to the entries not yet read. */
  function UnreadCount(ns: seq<Notification>): (c: nat)
    ensures c <= |ns|
    ensures c == 0 <==> forall i :: 0 <= i < |ns| ==> ns[i].read
  {
    Seqs.FilterEmpty(ns, IsUnread);
    |Seqs.Filter(ns, IsUnread)|
  }

  /** The entry `addNotification` builds: its id is the clock rendered in decimal. */
  function NewNotification(title: string, message: string, kind: Kind, now: nat): Notification
  {
    Notification(Text.NatToString(now), title, message, kind, false, now)
  }

  /** `addNotification`: the new entry goes in front of the previous list. */
  function WithAdded(ns: seq<Notification>, title: string, message: string, kind: Kind, now: nat)
    : seq<Notification>
  {
    [NewNotification(title, message, kind, now)] + ns
  }

  /** `markAsRead(id)`: every entry carrying `id` becomes read. */
  function MarkedRead(ns: seq<Notification>, id: string): seq<Notification>
  {
    seq(|ns|, i requires 0 <= i < |ns| => if ns[i].id == id then ns[i].(read := true) else ns[i])
  }

  /** `markAllAsRead`: every entry becomes read. */
  function AllMarkedRead(ns: seq<Notification>): seq<Notification>
  {
    seq(|ns|, i requires 0 <= i < |ns| => ns[i].(read := true))
  }

  /** Unread entries of a concatenation are those of its parts. */
  lemma UnreadCountAppend(a: seq<Notification>, b: seq<Notification>)
    ensures UnreadCount(a + b) == UnreadCount(a) + UnreadCount(b)
  {
    Seqs.FilterAppend(a, b, IsUnread);
  }

  /** The seed list: ids '1', '2', '3', all unread, each strictly older than the one before. */
  lemma InitialState(now: int)
    ensures var ns := InitialNotifications(now);
            && |ns| == 3
            && ns[0].id == "1" && ns[1].id == "2" && ns[2].id == "3"
            && UnreadCount(ns) == 3
            && forall i, j :: 0 <= i < j < |ns| ==> ns[i].createdAt > ns[j].createdAt
  {
    var ns := InitialNotifications(now);
    assert Seqs.Filter(ns, IsUnread) == ns by {
      Seqs.FilterAll(ns, IsUnread);
    }
  }

  /** Adding yields a list one longer whose head is the fresh unread entry and whose tail is the
      previous list; the unread count grows by exactly one. */
  lemma AddNotificationEffect(ns: seq<Notification>, title: string, message: string, kind: Kind, now: nat)
    ensures var r := WithAdded(ns, title, message, kind, now);
            && |r| == |ns| + 1
            && r[0].title == title && r[0].message == message && r[0].kind == kind
            && !r[0].read && r[0].createdAt == now
            && r[1..] == ns
            && UnreadCount(r) == UnreadCount(ns) + 1
  {
    var n := NewNotification(title, message, kind, now);
    UnreadCountAppend([n], ns);
    assert Seqs.Filter([n], IsUnread) == [n] by {
      Seqs.FilterAll([n], IsUnread);
    }
  }

  /** Marking one id read keeps length and order, sets `read` on exactly the entries with that id
      and changes no other field. */
  lemma MarkAsReadEffect(ns: seq<Notification>, id: string)
    ensures var r := MarkedRead(ns, id);
            && |r| == |ns|
            && forall i :: 0 <= i < |ns| ==>
                 && r[i].read == (ns[i].read || ns[i].id == id)
                 && r[i].(read := ns[i].read) == ns[i]
  {
  }

  /** Marking an id that no entry carries changes nothing. */
  lemma MarkAsReadMissingId(ns: seq<Notification>, id: string)
    requires forall i :: 0 <= i < |ns| ==> ns[i].id != id
    ensures MarkedRead(ns, id) == ns
  {
  }

  predicate IsUnreadWithId(id: string, n: Notification)
  {
    !n.read && n.id == id
  }

  /** Marking `id` read lowers the unread count by the number of unread entries carrying `id`. */
  lemma {:induction false} MarkAsReadUnreadCount(ns: seq<Notification>, id: string)
    ensures UnreadCount(MarkedRead(ns, id))
            == UnreadCount(ns) - |Seqs.Filter(ns, n => IsUnreadWithId(id, n))|
  {
    if ns != [] {
      var r := MarkedRead(ns, id);
      assert r == [r[0]] + MarkedRead(ns[1..], id);
      assert ns == [ns[0]] + ns[1..];
      MarkAsReadUnreadCount(ns[1..], id);
      UnreadCountAppend([r[0]], MarkedRead(ns[1..], id));
      UnreadCountAppend([ns[0]], ns[1..]);
      Seqs.FilterAppend([ns[0]], ns[1..], n => IsUnreadWithId(id, n));
    }
  }

  /** After marking everything read nothing is unread; length, order and every other field stay. */
  lemma MarkAllAsReadEffect(ns: seq<Notification>)
    ensures var r := AllMarkedRead(ns);
            && |r| == |ns|
            && UnreadCount(r) == 0
            && forall i :: 0 <= i < |ns| ==> r[i].read && r[i].(read := ns[i].read) == ns[i]
  {
  }

  /** Marking everything read twice is the same as once. */
  lemma MarkAllAsReadIdempotent(ns: seq<Notification>)
    ensures AllMarkedRead(AllMarkedRead(ns)) == AllMarkedRead(ns)
  {
  }

  /** A fresh store has three unread entries; marking '2' read leaves two, with '2' read and the
      other two entries as they were. */
  lemma MarkSecondSeedRead(now: int)
    ensures var ns := InitialNotifications(now);
            var r := MarkedRead(ns, "2");
            && UnreadCount(ns) == 3
            && UnreadCount(r) == 2
            && r[1].read && r[0] == ns[0] && r[2] == ns[2]
  {
    var ns := InitialNotifications(now);
    InitialState(now);
    MarkAsReadUnreadCount(ns, "2");
    var p := (n: Notification) => IsUnreadWithId("2", n);
    assert Seqs.Filter(ns, p) == [ns[1]] by {
      assert ns == [ns[0]] + [ns[1]] + [ns[2]];
      Seqs.FilterAppend([ns[0]] + [ns[1]], [ns[2]], p);
      Seqs.FilterAppend([ns[0]], [ns[1]], p);
    }
  }

  /** The provider's state: one list, replaced as a whole by each operation. */
  class NotificationStore {
    var notifications: seq<Notification>

    constructor (now: int)
      ensures notifications == InitialNotifications(now)
    {
      notifications := InitialNotifications(now);
    }

    function Unread(): (c: nat)
      reads this
      ensures c == UnreadCount(notifications)
    {
      UnreadCount(notifications)
    }

    method AddNotification(title: string, message: string, kind: Kind, now: nat)
      modifies this
      ensures notifications == WithAdded(old(notifications), title, message, kind, now)
      ensures Unread() == old(Unread()) + 1
    {
      AddNotificationEffect(notifications, title, message, kind, now);
      notifications := WithAdded(notifications, title, message, kind, now);
    }

    method MarkAsRead(id: string)
      modifies this
      ensures notifications == MarkedRead(old(notifications), id)
      ensures Unread() <= old(Unread())
    {
      MarkAsReadUnreadCount(notifications, id);
      notifications := MarkedRead(notifications, id);
    }

    method MarkAllAsRead()
      modifies this
      ensures notifications == AllMarkedRead(old(notifications))
      ensures Unread() == 0
    {
      MarkAllAsReadEffect(notifications);
      notifications := AllMarkedRead(notifications);
    }

    method ClearNotifications()
      modifies this
      ensures notifications == []
      ensures Unread() == 0
    {
      notifications := [];
    }
  }

  /** `useNotifications`: outside a `NotificationProvider` there is no store and the hook throws. */
  function UseNotifications(provided: Option<NotificationStore>): (r: Result<NotificationStore, string>)
    ensures r.Failure? <==> provided.None?
    ensures r.Failure? ==> r.error == "useNotifications must be used within a NotificationProvider"
    ensures r.Success? ==> r.value == provided.value
  {
    Hooks.UseContext(provided, "useNotifications must be used within a NotificationProvider")
  }
}
