/** notificationController.js: listing and bulk read-marking of a user's notifications. */
module Notifications {
  import opened Results
  import opened Models
  import opened Seqs
  import opened Store

  /** `getNotifications`: the caller's notifications, newest first. */
  function NotificationsOf(ns: seq<Notification>, caller: Id): (r: seq<Notification>)
    ensures forall n :: multiset(r)[n] == if n.recipient == caller then multiset(ns)[n] else 0
    ensures forall i, j :: 0 <= i < j < |r| ==> r[i].createdAt >= r[j].createdAt
  {
    var mine := Filter(ns, (n: Notification) => n.recipient == caller);
    SortBy(mine, (n: Notification) => n.createdAt, true)
  }

  /**
   * `Notification.updateMany({ recipient: caller, read: false }, { $set: { read: true } })`
   * at time `now`: each matching record is marked read and its `updatedAt` stamped.
   */
  function MarkedRead(ns: seq<Notification>, caller: Id, now: Time): (r: seq<Notification>)
    ensures |r| == |ns|
    ensures forall i :: 0 <= i < |r| && r[i].recipient == caller ==> r[i].read
    ensures forall i :: 0 <= i < |r| && (ns[i].recipient != caller || ns[i].read) ==> r[i] == ns[i]
    ensures forall i :: 0 <= i < |r| ==> r[i] == ns[i].(read := r[i].read, updatedAt := r[i].updatedAt)
  {
    seq(|ns|, i requires 0 <= i < |ns| =>
      if ns[i].recipient == caller && !ns[i].read then ns[i].(read := true, updatedAt := now) else ns[i])
  }

  /** Marking read twice gives the same records as marking read once. */
  lemma MarkedReadIdempotent(ns: seq<Notification>, caller: Id, first: Time, second: Time)
    ensures MarkedRead(MarkedRead(ns, caller, first), caller, second) == MarkedRead(ns, caller, first)
  {
  }

  /** `markAsRead`: marks all of the caller's notifications read and answers with them, newest first. */
  method MarkAsRead(db: Database, caller: Id) returns (updated: seq<Notification>)
    requires db.Valid()
    modifies db`notifications, db`clock
    ensures db.Valid()
    ensures db.notifications == MarkedRead(old(db.notifications), caller, old(db.clock))
    ensures updated == NotificationsOf(db.notifications, caller)
    ensures forall i :: 0 <= i < |updated| ==> updated[i].read && updated[i].recipient == caller
  {
    var now := db.Tick();
    db.notifications := MarkedRead(db.notifications, caller, now);
    updated := NotificationsOf(db.notifications, caller);
    forall i | 0 <= i < |updated| ensures updated[i].read && updated[i].recipient == caller {
      assert updated[i] in multiset(updated);
      assert updated[i] in db.notifications;
    }
  }
}
