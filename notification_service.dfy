/** Notifications (src/services/notificationService.ts): each user reads,
    counts, marks and deletes their own notifications. */
module NotificationService {
  import opened Wrappers
  import opened Models
  import opened Ordering
  import opened Database

  /** The notifications of one user. */
  function Owned(m: map<Id, Notification>, userId: Id): (r: map<Id, Notification>)
    ensures forall k :: k in r <==> k in m && m[k].userId == userId
    ensures forall k :: k in r ==> r[k] == m[k]
  {
    map k | k in m && m[k].userId == userId :: m[k]
  }

  /** The user's unread notifications. */
  function UnreadOf(m: map<Id, Notification>, userId: Id): (r: set<Id>)
    ensures forall k :: k in r <==> k in m && m[k].userId == userId && !m[k].isRead
  {
    set k | k in m && m[k].userId == userId && !m[k].isRead
  }

  function NotificationCreatedAt(n: Notification): int { n.createdAt }

  /** getNotifications: the user's notifications, newest first, `LIMIT limit
      OFFSET offset` with limit 50 and offset 0 by default. */
  function GetNotifications(m: map<Id, Notification>, userId: Id, limit: Option<nat>, offset: Option<nat>)
    : (r: seq<Id>)
    ensures forall i :: 0 <= i < |r| ==> r[i] in m && m[r[i]].userId == userId
    ensures NewestOrder(r, m, NotificationCreatedAt)
    ensures |r| <= limit.GetOr(50)
    ensures |r| == WindowLength(|Owned(m, userId)|, offset.GetOr(0), limit.GetOr(50))
    ensures RunOf(r, NewestFirst(Owned(m, userId), NotificationCreatedAt), offset.GetOr(0))
    ensures forall k :: k in m && m[k].userId == userId && k !in r ==>
              (offset.GetOr(0) > 0 && NoOlderThan(k, r, m, NotificationCreatedAt))
              || NoNewerThan(k, r, m, NotificationCreatedAt)
  {
    var mine := Owned(m, userId);
    var r := NewestPage(mine, NotificationCreatedAt, offset.GetOr(0), Some(limit.GetOr(50)));
    NewestPageWider(mine, m, NotificationCreatedAt, offset.GetOr(0), Some(limit.GetOr(50)));
    r
  }

  /** getUnreadCount. */
  function UnreadCount(m: map<Id, Notification>, userId: Id): nat {
    |UnreadOf(m, userId)|
  }

  /** The `SELECT COUNT(*) ... WHERE user_id = $1` of getNotificationsWithCounts. */
  function TotalCount(m: map<Id, Notification>, userId: Id): nat {
    |Owned(m, userId)|
  }

  /** A user never has more unread notifications than notifications. */
  lemma UnreadWithinTotal(m: map<Id, Notification>, userId: Id)
    ensures UnreadCount(m, userId) <= TotalCount(m, userId)
  {
    assert UnreadOf(m, userId) <= Owned(m, userId).Keys;
    SubsetCard(UnreadOf(m, userId), Owned(m, userId).Keys);
  }

  lemma SubsetCard(a: set<Id>, b: set<Id>)
    requires a <= b
    ensures |a| <= |b|
  {
    assert b == a + (b - a);
  }

  datatype NotificationsWithCounts = NotificationsWithCounts(
    notifications: seq<Id>, unreadCount: nat, totalCount: nat)

  /** getNotificationsWithCounts. */
  function GetNotificationsWithCounts(m: map<Id, Notification>, userId: Id, limit: Option<nat>,
                                      offset: Option<nat>): (r: NotificationsWithCounts)
    ensures r.unreadCount <= r.totalCount
    ensures r.totalCount == |Owned(m, userId)|
    ensures r.unreadCount == |UnreadOf(m, userId)|
    ensures forall i :: 0 <= i < |r.notifications| ==>
      r.notifications[i] in m && m[r.notifications[i]].userId == userId
    ensures r.notifications == GetNotifications(m, userId, limit, offset)
  {
    UnreadWithinTotal(m, userId);
    NotificationsWithCounts(GetNotifications(m, userId, limit, offset), UnreadCount(m, userId),
                            TotalCount(m, userId))
  }

  /** The ownership check shared by markAsRead and deleteNotification. */
  predicate OwnedBy(m: map<Id, Notification>, id: Id, userId: Id) {
    id in m && m[id].userId == userId
  }

  /** markAsRead: 404 unless the notification is the user's; otherwise only
      that row is marked read. */
  function MarkAsReadOutcome(s: Store, id: Id, userId: Id): (o: Outcome<Notification>)
    requires s.Valid()
    ensures o.after.Valid()
    ensures !OwnedBy(s.notifications, id, userId) ==>
      o.result == Err(AppError("Notification not found", 404)) && o.after == s
    ensures OwnedBy(s.notifications, id, userId) ==>
      && o.result == Ok(s.notifications[id].(isRead := true))
      && o.after == s.(notifications := o.after.notifications)
      && o.after.notifications.Keys == s.notifications.Keys
      && o.after.notifications[id] == s.notifications[id].(isRead := true)
      && (forall k :: k in s.notifications && k != id ==> o.after.notifications[k] == s.notifications[k])
  {
    if !OwnedBy(s.notifications, id, userId) then Fail(s, "Notification not found", 404)
    else
      var n := s.notifications[id].(isRead := true);
      Outcome(Ok(n), s.(notifications := s.notifications[id := n]))
  }

  /** Marking a notification read twice has the effect of marking it once. */
  lemma MarkAsReadIdempotent(s: Store, id: Id, userId: Id)
    requires s.Valid()
    ensures var once := MarkAsReadOutcome(s, id, userId);
      var twice := MarkAsReadOutcome(once.after, id, userId);
      twice.after == once.after && twice.result == once.result
  {
    var once := MarkAsReadOutcome(s, id, userId);
    if OwnedBy(s.notifications, id, userId) {
      assert once.after.notifications[id := once.after.notifications[id].(isRead := true)]
          == once.after.notifications;
    }
  }

  /** `UPDATE notifications SET is_read = true WHERE user_id = $1 AND
      is_read = false`. */
  function MarkAllRead(m: map<Id, Notification>, userId: Id): (r: map<Id, Notification>)
    ensures r.Keys == m.Keys
    ensures forall k :: k in m && m[k].userId == userId ==> r[k] == m[k].(isRead := true)
    ensures forall k :: k in m && m[k].userId != userId ==> r[k] == m[k]
  {
    map k | k in m :: if m[k].userId == userId && !m[k].isRead then m[k].(isRead := true) else m[k]
  }

  /** markAllAsRead: the count reported is the number of the user's unread
      notifications. */
  function MarkAllAsReadOutcome(s: Store, userId: Id): (o: Outcome<nat>)
    requires s.Valid()
    ensures o.after.Valid()
    ensures o.result == Ok(UnreadCount(s.notifications, userId))
    ensures o.after == s.(notifications := MarkAllRead(s.notifications, userId))
  {
    Outcome(Ok(UnreadCount(s.notifications, userId)), s.(notifications := MarkAllRead(s.notifications, userId)))
  }

  /** After markAllAsRead the user has nothing unread, and every other user's
      unread count is what it was. */
  lemma MarkAllAsReadClears(m: map<Id, Notification>, userId: Id, other: Id)
    requires other != userId
    ensures UnreadCount(MarkAllRead(m, userId), userId) == 0
    ensures UnreadOf(MarkAllRead(m, userId), other) == UnreadOf(m, other)
  {
    var r := MarkAllRead(m, userId);
    assert UnreadOf(r, userId) == {};
  }

  /** deleteNotification: 404 unless the notification is the user's; then
      exactly that row is removed. */
  function DeleteNotificationOutcome(s: Store, id: Id, userId: Id): (o: Outcome<string>)
    requires s.Valid()
    ensures o.after.Valid()
    ensures !OwnedBy(s.notifications, id, userId) ==>
      o.result == Err(AppError("Notification not found", 404)) && o.after == s
    ensures OwnedBy(s.notifications, id, userId) ==>
      && o.result == Ok("Notification deleted successfully")
      && o.after == s.(notifications := o.after.notifications)
      && o.after.notifications.Keys == s.notifications.Keys - {id}
      && (forall k :: k in o.after.notifications ==> o.after.notifications[k] == s.notifications[k])
  {
    if !OwnedBy(s.notifications, id, userId) then Fail(s, "Notification not found", 404)
    else Outcome(Ok("Notification deleted successfully"), s.(notifications := s.notifications - {id}))
  }

  /** Deleting one of a user's notifications lowers their total by one. */
  lemma DeleteLowersTotal(s: Store, id: Id, userId: Id)
    requires s.Valid() && OwnedBy(s.notifications, id, userId)
    ensures TotalCount(DeleteNotificationOutcome(s, id, userId).after.notifications, userId)
            == TotalCount(s.notifications, userId) - 1
  {
    var after := DeleteNotificationOutcome(s, id, userId).after.notifications;
    assert Owned(after, userId).Keys == Owned(s.notifications, userId).Keys - {id};
  }

  class NotificationServiceImpl {
    const db: Db

    constructor (db: Db)
      ensures this.db == db
    {
      this.db := db;
    }

    method MarkAsRead(id: Id, userId: Id) returns (r: Result<Notification>)
      requires db.Valid()
      modifies db
      ensures var o := MarkAsReadOutcome(old(db.State()), id, userId);
        r == o.result && db.State() == o.after
      ensures db.Valid()
    {
      if !OwnedBy(db.notifications, id, userId) {
        return Err(AppError("Notification not found", 404));
      }
      var n := db.notifications[id].(isRead := true);
      db.notifications := db.notifications[id := n];
      r := Ok(n);
    }

    method MarkAllAsRead(userId: Id) returns (r: Result<nat>)
      requires db.Valid()
      modifies db
      ensures var o := MarkAllAsReadOutcome(old(db.State()), userId);
        r == o.result && db.State() == o.after
      ensures db.Valid()
    {
      var count := UnreadCount(db.notifications, userId);
      db.notifications := MarkAllRead(db.notifications, userId);
      r := Ok(count);
    }

    method DeleteNotification(id: Id, userId: Id) returns (r: Result<string>)
      requires db.Valid()
      modifies db
      ensures var o := DeleteNotificationOutcome(old(db.State()), id, userId);
        r == o.result && db.State() == o.after
      ensures db.Valid()
    {
      if !OwnedBy(db.notifications, id, userId) {
        return Err(AppError("Notification not found", 404));
      }
      db.notifications := db.notifications - {id};
      r := Ok("Notification deleted successfully");
    }
  }
}
