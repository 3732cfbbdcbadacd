/** The notification collection: creation, the per-user newest-first listing
    and marking all of a user's notifications as read. */
module Notifications {
  import opened Common

  /** A stored notification; `kind` is the schema's `type` path. */
  datatype Notification = Notification(id: Id, userId: string, message: string, read: bool, createdAt: nat, kind: string)

  function NotificationId(n: Notification): Id { n.id }

  /** `createNotification`: `userId`, `message` and `type` are required strings,
      `read` defaults to false and `createdAt` to the current time. */
  function Create(ns: seq<Notification>, newId: Id, userId: string, message: string, kind: string, now: nat)
    : (r: Result<(seq<Notification>, Notification)>)
    ensures r.Ok? <==> userId != "" && message != "" && kind != ""
    ensures r.Err? ==> r.failure == StoreRejected
    ensures r.Ok? ==> r.value.0 == ns + [r.value.1] &&
                      r.value.1 == Notification(newId, userId, message, false, now, kind)
  {
    if userId != "" && message != "" && kind != "" then
      var n := Notification(newId, userId, message, false, now, kind);
      Ok((ns + [n], n))
    else Err(StoreRejected)
  }

  /** The ascending key of `sort({ createdAt: -1 })`. */
  function NewestFirstKey(n: Notification): int { 0 - (n.createdAt as int) }

  /** `getNotifications`. */
  function GetNotifications(ns: seq<Notification>, userId: string): (r: seq<Notification>)
    ensures multiset(r) == multiset(Filter(ns, (n: Notification) => n.userId == userId))
    ensures forall i, j :: 0 <= i < j < |r| ==> r[i].createdAt >= r[j].createdAt
  {
    var listed := SortByKey(Filter(ns, (n: Notification) => n.userId == userId), NewestFirstKey);
    assert forall i, j :: 0 <= i < j < |listed| ==> NewestFirstKey(listed[i]) <= NewestFirstKey(listed[j]);
    listed
  }

  /** The listing holds exactly the user's notifications, each as often as stored. */
  lemma ListingIsExactlyTheUsers(ns: seq<Notification>, userId: string)
    ensures forall n :: n in GetNotifications(ns, userId) <==> n in ns && n.userId == userId
    ensures |GetNotifications(ns, userId)| == |Filter(ns, (n: Notification) => n.userId == userId)|
  {
    var r := GetNotifications(ns, userId);
    var f := Filter(ns, (n: Notification) => n.userId == userId);
    forall n ensures n in r <==> n in f {
      assert n in r <==> n in multiset(r);
      assert n in f <==> n in multiset(f);
    }
    assert |r| == |multiset(r)| == |multiset(f)| == |f|;
  }

  /** `markAllAsRead`: `updateMany({ userId }, { read: true })`. */
  function MarkAllAsRead(ns: seq<Notification>, userId: string): (r: seq<Notification>)
    ensures |r| == |ns|
  {
    seq(|ns|, i requires 0 <= i < |ns| => if ns[i].userId == userId then ns[i].(read := true) else ns[i])
  }

  /** Afterwards every notification of the user is read; the user's others keep
      their message, type, owner and time, and other users' notifications are
      untouched. */
  lemma MarkAllAsReadEffect(ns: seq<Notification>, userId: string)
    ensures var r := MarkAllAsRead(ns, userId);
      forall i :: 0 <= i < |ns| ==>
        if ns[i].userId == userId then r[i].read && r[i].(read := ns[i].read) == ns[i]
        else r[i] == ns[i]
  {
  }

  /** Marking twice is marking once. */
  lemma MarkAllAsReadIdempotent(ns: seq<Notification>, userId: string)
    ensures MarkAllAsRead(MarkAllAsRead(ns, userId), userId) == MarkAllAsRead(ns, userId)
  {
  }

  /** After marking, every notification in the user's listing is read. */
  lemma ListingAfterMarkAllRead(ns: seq<Notification>, userId: string)
    ensures forall n :: n in GetNotifications(MarkAllAsRead(ns, userId), userId) ==> n.read
  {
    ListingIsExactlyTheUsers(MarkAllAsRead(ns, userId), userId);
    MarkAllAsReadEffect(ns, userId);
  }

  ghost predicate WellFormed(ns: seq<Notification>, nextId: Id) {
    UniqueKeys(ns, NotificationId) && KeysBelow(ns, NotificationId, nextId)
  }

  /** The notification collection. */
  class Inbox {
    var notifications: seq<Notification>
    var nextId: Id

    ghost predicate Valid() reads this {
      WellFormed(notifications, nextId)
    }

    constructor (initial: seq<Notification>, firstFreeId: Id)
      requires WellFormed(initial, firstFreeId)
      ensures Valid() && notifications == initial && nextId == firstFreeId
    {
      notifications := initial;
      nextId := firstFreeId;
    }

    /** `createNotification`, at time `now`. */
    method CreateNotification(userId: string, message: string, kind: string, now: nat) returns (r: Result<Notification>)
      requires Valid()
      modifies this
      ensures Valid()
      ensures var c := Create(old(notifications), old(nextId), userId, message, kind, now);
        (c.Ok? ==> r == Ok(c.value.1) && notifications == c.value.0 && nextId == old(nextId) + 1) &&
        (c.Err? ==> r == Err(StoreRejected) && notifications == old(notifications) && nextId == old(nextId))
    {
      if userId == "" || message == "" || kind == "" {
        return Err(StoreRejected);
      }
      var n := Notification(nextId, userId, message, false, now, kind);
      notifications := notifications + [n];
      nextId := nextId + 1;
      r := Ok(n);
    }

    /** `markAllAsRead`. */
    method MarkAllRead(userId: string)
      requires Valid()
      modifies this
      ensures Valid() && nextId == old(nextId)
      ensures notifications == MarkAllAsRead(old(notifications), userId)
    {
      notifications := MarkAllAsRead(notifications, userId);
      assert forall i :: 0 <= i < |notifications| ==> NotificationId(notifications[i]) == NotificationId(old(notifications)[i]);
    }
  }
}
