/** The in-memory store of the notifications service: an insertion-ordered
    dictionary from notification id to notification, with per-user queries
    and the read-state updates. */
module NotificationServices {
  import opened Common
  import opened Sequences
  import opened NotificationSchemas

  /** A notification of user `u` that has not been read yet. */
  predicate UnreadOf(n: Notification, u: string)
  {
    n.userId == u && !n.isRead
  }

  /** The notifications of user `u`, in store order. */
  function ForUser(vals: seq<Notification>, u: string): (r: seq<Notification>)
    ensures |r| <= |vals|
    ensures forall n :: n in r <==> n in vals && n.userId == u
  {
    if vals == [] then []
    else
      var init := vals[..|vals| - 1];
      assert forall n :: n in vals <==> n in init || n == vals[|vals| - 1];
      ForUser(init, u) + (if vals[|vals| - 1].userId == u then [vals[|vals| - 1]] else [])
  }

  lemma {:induction false} ForUserAppend(a: seq<Notification>, b: seq<Notification>, u: string)
    ensures ForUser(a + b, u) == ForUser(a, u) + ForUser(b, u)
  {
    if b != [] {
      assert (a + b)[..|a + b| - 1] == a + b[..|b| - 1];
      ForUserAppend(a, b[..|b| - 1], u);
    } else {
      assert a + b == a;
    }
  }

  /** The page that `get_user_notifications(u, skip, limit)` returns: the user's
      notifications are filtered out first and then sliced. */
  function UserPage(vals: seq<Notification>, u: string, skip: nat, limit: nat): (r: seq<Notification>)
    ensures |r| <= limit
    ensures forall n :: n in r ==> n in vals && n.userId == u
  {
    Page(ForUser(vals, u), skip, limit)
  }

  /** Pagination of a user's notifications has no gaps and no overlaps. */
  lemma UserPagesTile(vals: seq<Notification>, u: string, n: nat, m: nat)
    ensures UserPage(vals, u, 0, n) + UserPage(vals, u, n, m) == UserPage(vals, u, 0, n + m)
  {
    PagesTile(ForUser(vals, u), 0, n, m);
  }

  /** The number of unread notifications of `u` (the `sum(1 for ...)` of the source). */
  function UnreadCount(vals: seq<Notification>, u: string): (c: nat)
    ensures c <= |vals|
  {
    if vals == [] then 0
    else
      var init := vals[..|vals| - 1];
      assert forall i :: 0 <= i < |init| ==> init[i] == vals[i];
      UnreadCount(init, u) + (if UnreadOf(vals[|vals| - 1], u) then 1 else 0)
  }

  lemma UnreadCountStep(vals: seq<Notification>, i: nat, u: string)
    requires i < |vals|
    ensures UnreadCount(vals[..i + 1], u) == UnreadCount(vals[..i], u) + (if UnreadOf(vals[i], u) then 1 else 0)
  {
    assert vals[..i + 1][..i] == vals[..i];
  }

  /** Counting over the dictionary's values is counting its keys whose record
      is an unread notification of `u`. */
  lemma {:induction false} UnreadCountCountsKeys(keys: seq<string>, m: map<string, Notification>, u: string)
    requires forall k :: k in keys ==> k in m
    requires Distinct(keys)
    ensures UnreadCount(ValuesOf(keys, m), u) == |set k | k in keys && UnreadOf(m[k], u)|
  {
    if keys != [] {
      var init := keys[..|keys| - 1];
      var last := keys[|keys| - 1];
      assert ValuesOf(keys, m)[..|keys| - 1] == ValuesOf(init, m);
      UnreadCountCountsKeys(init, m, u);
      var before := set k | k in init && UnreadOf(m[k], u);
      assert last !in init;
      assert forall k :: k in keys <==> k in init || k == last;
      if UnreadOf(m[last], u) {
        assert (set k | k in keys && UnreadOf(m[k], u)) == before + {last};
      } else {
        assert (set k | k in keys && UnreadOf(m[k], u)) == before;
      }
    }
  }

  /** What `mark_all_as_read(u)` does to one notification. */
  function MarkedIfUnreadOf(n: Notification, u: string, now: Timestamp): Notification
  {
    if UnreadOf(n, u) then n.(isRead := true, updatedAt := now) else n
  }

  /** The store's values after `mark_all_as_read(u)`. */
  function MarkAllOf(vals: seq<Notification>, u: string, now: Timestamp): (r: seq<Notification>)
    ensures |r| == |vals|
  {
    seq(|vals|, i requires 0 <= i < |vals| => MarkedIfUnreadOf(vals[i], u, now))
  }

  /** The count is zero exactly when no notification of `u` is unread. */
  lemma {:induction false} UnreadCountZero(vals: seq<Notification>, u: string)
    ensures UnreadCount(vals, u) == 0 <==> forall i :: 0 <= i < |vals| ==> !UnreadOf(vals[i], u)
  {
    if vals != [] {
      var init := vals[..|vals| - 1];
      UnreadCountZero(init, u);
      assert forall i :: 0 <= i < |init| ==> init[i] == vals[i];
    }
  }

  /** After marking all of `u`'s notifications as read, `u` has none unread. */
  lemma MarkAllClearsUnread(vals: seq<Notification>, u: string, now: Timestamp)
    ensures UnreadCount(MarkAllOf(vals, u, now), u) == 0
  {
    UnreadCountZero(MarkAllOf(vals, u, now), u);
  }

  /** The loop of `mark_all_as_read` has visited the first `i` keys of `keys`. */
  ghost predicate MarkedUpTo(keys: seq<string>, m0: map<string, Notification>, m: map<string, Notification>,
                             i: nat, u: string, now: Timestamp)
    requires forall k :: k in keys ==> k in m0 && k in m
  {
    && i <= |keys|
    && (forall j :: 0 <= j < i ==> m[keys[j]] == MarkedIfUnreadOf(m0[keys[j]], u, now))
    && (forall j :: i <= j < |keys| ==> m[keys[j]] == m0[keys[j]])
  }

  /** One iteration of that loop. */
  lemma MarkStep(keys: seq<string>, m0: map<string, Notification>, m: map<string, Notification>,
                 i: nat, u: string, now: Timestamp)
    requires forall k :: k in keys ==> k in m0 && k in m
    requires Distinct(keys) && i < |keys|
    requires MarkedUpTo(keys, m0, m, i, u, now)
    ensures m[keys[i]] == m0[keys[i]]
    ensures var n := m[keys[i]];
      MarkedUpTo(keys, m0, if UnreadOf(n, u) then m[keys[i] := n.(isRead := true, updatedAt := now)] else m,
                 i + 1, u, now)
  {
  }

  /** The per-key postcondition of the loop in `mark_all_as_read`, read off the store's values. */
  lemma ValuesAfterMarkAll(keys: seq<string>, m0: map<string, Notification>, m: map<string, Notification>,
                           u: string, now: Timestamp)
    requires forall k :: k in keys ==> k in m0 && k in m
    requires MarkedUpTo(keys, m0, m, |keys|, u, now)
    ensures ValuesOf(keys, m) == MarkAllOf(ValuesOf(keys, m0), u, now)
    ensures UnreadCount(ValuesOf(keys, m), u) == 0
  {
    MarkAllClearsUnread(ValuesOf(keys, m0), u, now);
  }

  /** Marking all as read a second time changes nothing. */
  lemma MarkAllIdempotent(vals: seq<Notification>, u: string, t1: Timestamp, t2: Timestamp)
    ensures MarkAllOf(MarkAllOf(vals, u, t1), u, t2) == MarkAllOf(vals, u, t1)
  {
  }

  /** `vals` with the notification whose id is `id` taken out. */
  function WithoutId(vals: seq<Notification>, id: string): (r: seq<Notification>)
    ensures forall n :: n in r <==> n in vals && n.id != id
  {
    if vals == [] then []
    else
      var init := vals[..|vals| - 1];
      var last := vals[|vals| - 1];
      assert forall n :: n in vals <==> n in init || n == last;
      WithoutId(init, id) + (if last.id == id then [] else [last])
  }

  /** Deleting a key from an insertion-ordered dictionary: the remaining values
      keep their contents and their relative order. */
  lemma {:induction false} ValuesAfterDelete(keys: seq<string>, m: map<string, Notification>, id: string)
    requires forall k :: k in keys ==> k in m && m[k].id == k
    ensures forall k :: k in Without(keys, id) ==> k in m - {id}
    ensures ValuesOf(Without(keys, id), m - {id}) == WithoutId(ValuesOf(keys, m), id)
  {
    if keys != [] {
      var init := keys[..|keys| - 1];
      var last := keys[|keys| - 1];
      assert forall k :: k in keys <==> k in init || k == last;
      ValuesAfterDelete(init, m, id);
      assert ValuesOf(keys, m)[..|keys| - 1] == ValuesOf(init, m);
      if last != id {
        assert ValuesOf(Without(init, id) + [last], m - {id})
            == ValuesOf(Without(init, id), m - {id}) + [m[last]];
      }
    }
  }

  /** `process_kafka_event`: the create command an event maps to. */
  function ToCreateCommand(e: KafkaNotificationEvent): (c: NotificationCreate)
    ensures c.userId == e.userId && c.kind == e.notificationType
    ensures c.title == e.title && c.message == e.message
    ensures c.relatedProjectId == e.relatedProjectId && c.relatedUserId == e.relatedUserId
    ensures c.relatedTaskId == e.relatedTaskId
  {
    NotificationCreate(e.userId, e.notificationType, e.title, e.message,
                       e.relatedProjectId, e.relatedUserId, e.relatedTaskId)
  }

  class NotificationService {
    /** The dictionary's keys in insertion order. */
    var order: seq<string>
    /** `self.notifications`: id to notification. */
    var notifications: map<string, Notification>

    ghost predicate Valid()
      reads this
    {
      && Distinct(order)
      && (forall k :: k in order <==> k in notifications)
      && (forall k :: k in notifications ==> notifications[k].id == k)
    }

    /** `self.notifications.values()`, in insertion order. */
    function Values(): seq<Notification>
      reads this
      requires Valid()
    {
      ValuesOf(order, notifications)
    }

    constructor ()
      ensures Valid()
      ensures order == [] && notifications == map[]
    {
      order := [];
      notifications := map[];
    }

    /** `create_notification`; `id` stands for the fresh `uuid4()` and `now`
        for the clock. */
    method CreateNotification(cmd: NotificationCreate, id: string, now: Timestamp) returns (r: Notification)
      requires Valid()
      requires id !in notifications
      modifies this
      ensures Valid()
      ensures r.id == id && r.userId == cmd.userId && r.kind == cmd.kind
      ensures r.title == cmd.title && r.message == cmd.message
      ensures r.relatedProjectId == cmd.relatedProjectId && r.relatedUserId == cmd.relatedUserId
      ensures r.relatedTaskId == cmd.relatedTaskId
      ensures !r.isRead && r.createdAt == now && r.updatedAt == now
      ensures notifications == old(notifications)[id := r]
      ensures order == old(order) + [id]
      ensures Values() == old(Values()) + [r]
    {
      r := Notification(id, cmd.userId, cmd.kind, cmd.title, cmd.message, false, now, now,
                        cmd.relatedProjectId, cmd.relatedUserId, cmd.relatedTaskId);
      ValuesOfInsert(order, notifications, id, r);
      notifications := notifications[id := r];
      order := order + [id];
    }

    /** `get_user_notifications`; the bounds on `limit` are those of the HTTP route. */
    function GetUserNotifications(u: string, skip: nat, limit: nat): (r: seq<Notification>)
      reads this
      requires Valid()
      requires 1 <= limit <= 100
      ensures |r| <= limit
      ensures forall n :: n in r ==> n.userId == u && n.id in notifications && notifications[n.id] == n
    {
      UserPage(Values(), u, skip, limit)
    }

    /** `get_unread_count`: the number of the user's stored notifications not yet read. */
    function GetUnreadCount(u: string): (c: nat)
      reads this
      requires Valid()
      ensures c == |set k | k in notifications && UnreadOf(notifications[k], u)|
    {
      UnreadCountCountsKeys(order, notifications, u);
      assert (set k | k in order && UnreadOf(notifications[k], u))
          == (set k | k in notifications && UnreadOf(notifications[k], u));
      UnreadCount(Values(), u)
    }

    /** `mark_as_read`. */
    method MarkAsRead(id: string, now: Timestamp) returns (r: Option<Notification>)
      requires Valid()
      modifies this
      ensures Valid()
      ensures order == old(order)
      ensures r.Some? <==> id in old(notifications)
      ensures id !in old(notifications) ==> notifications == old(notifications)
      ensures id in old(notifications) ==>
        r.value == old(notifications)[id].(isRead := true, updatedAt := now) &&
        notifications == old(notifications)[id := r.value]
      ensures forall k :: k in notifications ==> notifications[k].isRead == (old(notifications)[k].isRead || k == id)
    {
      if id in notifications {
        var n := notifications[id].(isRead := true, updatedAt := now);
        notifications := notifications[id := n];
        r := Some(n);
      } else {
        r := None;
      }
    }

    /** `mark_all_as_read`: the loop over the stored notifications. */
    method MarkAllAsRead(u: string, now: Timestamp) returns (count: nat)
      requires Valid()
      modifies this
      ensures Valid()
      ensures order == old(order)
      ensures notifications.Keys == old(notifications).Keys
      ensures forall k :: k in notifications ==> notifications[k] == MarkedIfUnreadOf(old(notifications)[k], u, now)
      ensures Values() == MarkAllOf(old(Values()), u, now)
      ensures count == UnreadCount(old(Values()), u)
      ensures UnreadCount(Values(), u) == 0
    {
      ghost var m0 := notifications;
      ghost var vals := Values();
      count := 0;
      var i := 0;
      while i < |order|
        invariant 0 <= i <= |order|
        invariant order == old(order)
        invariant notifications.Keys == m0.Keys
        invariant MarkedUpTo(order, m0, notifications, i, u, now)
        invariant count == UnreadCount(vals[..i], u)
      {
        var key := order[i];
        var n := notifications[key];
        MarkStep(order, m0, notifications, i, u, now);
        UnreadCountStep(vals, i, u);
        if n.userId == u && !n.isRead {
          notifications := notifications[key := n.(isRead := true, updatedAt := now)];
          count := count + 1;
        }
        i := i + 1;
      }
      assert vals[..i] == vals;
      assert forall k :: k in notifications ==> k in order;
      ValuesAfterMarkAll(order, m0, notifications, u, now);
    }

    /** `delete_notification`. */
    method DeleteNotification(id: string) returns (deleted: bool)
      requires Valid()
      modifies this
      ensures Valid()
      ensures deleted <==> id in old(notifications)
      ensures notifications == old(notifications) - {id}
      ensures order == Without(old(order), id)
      ensures Values() == WithoutId(old(Values()), id)
    {
      ValuesAfterDelete(order, notifications, id);
      deleted := id in notifications;
      if deleted {
        notifications := notifications - {id};
        order := Without(order, id);
      } else {
        assert Without(order, id) == order by {
          WithoutAbsent(order, id);
        }
        assert notifications - {id} == notifications;
      }
    }

    /** `process_kafka_event`: map the event to a create command and create it. */
    method ProcessKafkaEvent(e: KafkaNotificationEvent, id: string, now: Timestamp) returns (r: Notification)
      requires Valid()
      requires id !in notifications
      modifies this
      ensures Valid()
      ensures r.id == id && r.kind == e.notificationType && r.userId == e.userId
      ensures r.title == e.title && r.message == e.message
      ensures r.relatedProjectId == e.relatedProjectId && r.relatedUserId == e.relatedUserId
      ensures r.relatedTaskId == e.relatedTaskId
      ensures !r.isRead && r.createdAt == now && r.updatedAt == now
      ensures notifications == old(notifications)[id := r]
      ensures order == old(order) + [id]
      ensures Values() == old(Values()) + [r]
    {
      r := CreateNotification(ToCreateCommand(e), id, now);
    }
  }

  lemma {:induction false} WithoutAbsent(s: seq<string>, x: string)
    requires x !in s
    ensures Without(s, x) == s
  {
    if s != [] {
      assert x !in s[..|s| - 1];
      WithoutAbsent(s[..|s| - 1], x);
    }
  }
}
