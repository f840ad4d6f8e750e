/**
 * The notification bell: a list of notifications, a count of the unread
 * ones, and the operations to mark one or all as read and to remove one.
 */
module Notifications {
  import opened Common

  datatype Kind = Warning | Info | Success

  datatype Notification = Notification(
    id: string, title: string, message: string, kind: Kind, date: string, time: string, read: bool)

  /** The notifications the bell starts with. */
  const MockNotifications: seq<Notification> := [
    Notification("1", "Plan de Acción Pendiente", "El plan de acción \"Optimización L06\" vence en 2 días",
      Warning, "2024-02-15", "09:30", false),
    Notification("2", "Datos por Ingresar", "Faltan datos de Safety para la línea L07",
      Info, "2024-02-14", "15:45", false),
    Notification("3", "Meta Alcanzada", "La línea ENT alcanzó la meta de Casi Casi Cerrados",
      Success, "2024-02-14", "11:20", true)
  ]

  /** `unreadCount`: how many notifications are not read. */
  function UnreadCount(ns: seq<Notification>): (n: nat)
    ensures n <= |ns|
    ensures n == 0 <==> forall i :: 0 <= i < |ns| ==> ns[i].read
  {
    if ns == [] then 0
    else
      assert forall i :: 1 <= i < |ns| ==> ns[i] == ns[1..][i - 1];
      (if ns[0].read then 0 else 1) + UnreadCount(ns[1..])
  }

  /** The bell starts with three notifications, two of them unread. */
  lemma MockUnread()
    ensures |MockNotifications| == 3 && UnreadCount(MockNotifications) == 2
  {
    var ns := MockNotifications;
    assert ns[1..][1..][1..] == [];
  }

  /** `markAsRead`: the notifications with that id become read; nothing else changes. */
  function MarkRead(ns: seq<Notification>, id: string): (r: seq<Notification>)
    ensures |r| == |ns|
    ensures forall i :: 0 <= i < |ns| ==>
      r[i].read == (ns[i].read || ns[i].id == id) && r[i].(read := ns[i].read) == ns[i]
  {
    seq(|ns|, i requires 0 <= i < |ns| => if ns[i].id == id then ns[i].(read := true) else ns[i])
  }

  /** Marking the same id twice is marking it once. */
  lemma MarkReadIdempotent(ns: seq<Notification>, id: string)
    ensures MarkRead(MarkRead(ns, id), id) == MarkRead(ns, id)
  {
  }

  /** Marking an id read removes exactly its unread notifications from the count. */
  lemma {:induction false} MarkReadCount(ns: seq<Notification>, id: string)
    ensures UnreadCount(MarkRead(ns, id)) + UnreadCount(WithId(ns, id)) == UnreadCount(ns)
  {
    if ns != [] {
      var m := MarkRead(ns, id);
      MarkReadCount(ns[1..], id);
      assert m[1..] == MarkRead(ns[1..], id);
      assert UnreadCount(m) == (if m[0].read then 0 else 1) + UnreadCount(m[1..]);
      var w := if ns[0].id == id then [ns[0]] else [];
      assert WithId(ns, id) == w + WithId(ns[1..], id);
      if ns[0].id == id {
        assert (w + WithId(ns[1..], id))[1..] == WithId(ns[1..], id);
      } else {
        assert w + WithId(ns[1..], id) == WithId(ns[1..], id);
      }
    }
  }

  /** The notifications carrying `id`, in order. */
  function WithId(ns: seq<Notification>, id: string): seq<Notification> {
    Filter(ns, (n: Notification) => n.id == id)
  }

  /** `markAllAsRead`: every notification becomes read, nothing else changes. */
  function MarkAllRead(ns: seq<Notification>): (r: seq<Notification>)
    ensures |r| == |ns|
    ensures forall i :: 0 <= i < |ns| ==> r[i].read && r[i].(read := ns[i].read) == ns[i]
    ensures UnreadCount(r) == 0
  {
    seq(|ns|, i requires 0 <= i < |ns| => ns[i].(read := true))
  }

  /**
   * `removeNotification`: drops the notifications with that id, keeping
   * every copy of the others in order.
   */
  function Remove(ns: seq<Notification>, id: string): (r: seq<Notification>)
    ensures Subsequence(r, ns)
    ensures forall n :: multiset(r)[n] == if n.id == id then 0 else multiset(ns)[n]
    ensures forall i :: 0 <= i < |r| ==> r[i].id != id
    ensures forall n :: n in ns && n.id != id ==> n in r
    ensures (forall i :: 0 <= i < |ns| ==> ns[i].id != id) ==> r == ns
  {
    var r := Filter(ns, (n: Notification) => n.id != id);
    assert forall n :: n in ns && n.id != id ==> multiset(r)[n] == multiset(ns)[n] > 0;
    r
  }

  /** The bell's state: the notifications and whether the dropdown is open. */
  class NotificationBell {
    var notifications: seq<Notification>
    var showDropdown: bool

    constructor ()
      ensures notifications == MockNotifications && !showDropdown
    {
      notifications := MockNotifications;
      showDropdown := false;
    }

    /** `unreadCount`, the number on the badge. */
    function Unread(): nat
      reads this
    {
      UnreadCount(notifications)
    }

    /** The bell button opens a closed dropdown and closes an open one. */
    method ToggleDropdown()
      modifies this
      ensures showDropdown == !old(showDropdown) && notifications == old(notifications)
    {
      showDropdown := !showDropdown;
    }

    method MarkAsRead(id: string)
      modifies this
      ensures notifications == MarkRead(old(notifications), id) && showDropdown == old(showDropdown)
    {
      notifications := MarkRead(notifications, id);
    }

    method MarkAllAsRead()
      modifies this
      ensures notifications == MarkAllRead(old(notifications)) && Unread() == 0
      ensures showDropdown == old(showDropdown)
    {
      notifications := MarkAllRead(notifications);
    }

    method RemoveNotification(id: string)
      modifies this
      ensures notifications == Remove(old(notifications), id) && showDropdown == old(showDropdown)
    {
      notifications := Remove(notifications, id);
    }
  }
}
