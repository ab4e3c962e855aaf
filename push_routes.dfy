/**
 * The push routes of the Express backend: the VAPID key lookup, subscription upsert and
 * deactivation over `push_subscriptions`, the paged `notification_logs` history with its
 * read marks, and the test send. The two tables are fields of one object (rows in table
 * order, which stands for the order the unordered `SELECT`s return them in); a send's result
 * for a subscription is a parameter, since `webpush.sendNotification` is not part of this model.
 */
module PushRoutes {
  import opened Util
  import opened JsUtil

  const DefaultNotificationLimit := 30

  const MsgPushNotConfigured := "푸시 알림이 설정되지 않았습니다"
  const MsgBadSubscription := "잘못된 구독 정보입니다"
  const MsgSubscribed := "푸시 알림이 등록되었습니다"
  const MsgUnsubscribed := "푸시 알림이 해제되었습니다"
  const MsgNoActiveSubscription := "해당 사용자의 활성 푸시 구독이 없습니다"
  const TestTitle := "5늘5분 - 테스트 알림"
  const TestFallbackBody := "테스트 알림입니다"
  const TestCategory := "테스트 알림"

  /** `GET /vapid-public-key`: 503 when the server has no public key. */
  function VapidKeyReply(key: string): (r: Reply)
    ensures r.success <==> key != []
    ensures r.success ==> r.status == 200 && r.text == key
    ensures !r.success ==> r == Reply(503, false, MsgPushNotConfigured)
  {
    if key == [] then Reply(503, false, MsgPushNotConfigured) else Reply(200, true, key)
  }

  // ---------------------------------------------------------------------------
  // push_subscriptions

  datatype Subscription = Subscription(id: int, userId: int, endpoint: string, p256dh: string, auth: string, active: bool)

  /** `ON CONFLICT (endpoint)`: endpoints, like subscription ids, are unique in the table. */
  predicate TableOk(subs: seq<Subscription>, nextId: int)
  {
    (forall i, j :: 0 <= i < j < |subs| ==> subs[i].endpoint != subs[j].endpoint && subs[i].id != subs[j].id)
    && forall i :: 0 <= i < |subs| ==> subs[i].id < nextId
  }

  /** The row holding `endpoint`, if any. */
  function FindEndpoint(subs: seq<Subscription>, endpoint: string): (r: Option<nat>)
    ensures r.Some? ==> r.value < |subs| && subs[r.value].endpoint == endpoint
    ensures r.None? ==> forall i :: 0 <= i < |subs| ==> subs[i].endpoint != endpoint
  {
    if subs == [] then None
    else if subs[|subs| - 1].endpoint == endpoint then Some(|subs| - 1)
    else FindEndpoint(subs[..|subs| - 1], endpoint)
  }

  /**
   * The upsert: an existing row for the endpoint keeps its id and is handed to `user` with
   * the new keys and made active; otherwise a row with id `newId` is appended.
   */
  function Upsert(subs: seq<Subscription>, user: int, endpoint: string, p256dh: string, auth: string, newId: int): seq<Subscription>
  {
    match FindEndpoint(subs, endpoint)
    case Some(k) => subs[k := Subscription(subs[k].id, user, endpoint, p256dh, auth, true)]
    case None => subs + [Subscription(newId, user, endpoint, p256dh, auth, true)]
  }

  /**
   * After the upsert the endpoint has exactly one row, active and owned by the caller,
   * the table stays well formed, and every other endpoint keeps its row.
   */
  lemma UpsertOneRow(subs: seq<Subscription>, nextId: int, user: int, endpoint: string, p256dh: string, auth: string)
    requires TableOk(subs, nextId)
    ensures var t := Upsert(subs, user, endpoint, p256dh, auth, nextId);
      var n := if FindEndpoint(subs, endpoint).Some? then nextId else nextId + 1;
      TableOk(t, n)
      && FindEndpoint(t, endpoint).Some?
      && t[FindEndpoint(t, endpoint).value] == Subscription(t[FindEndpoint(t, endpoint).value].id, user, endpoint, p256dh, auth, true)
      && (forall i :: 0 <= i < |subs| && subs[i].endpoint != endpoint ==> t[i] == subs[i])
      && |t| == |subs| + (if FindEndpoint(subs, endpoint).Some? then 0 else 1)
  {
  }

  /** The rows of `subs` with an id in `ids` switched off: `UPDATE ... SET is_active = FALSE WHERE subscription_id = ...`. */
  function Deactivated(subs: seq<Subscription>, ids: set<int>): (r: seq<Subscription>)
    ensures |r| == |subs|
    ensures forall i :: 0 <= i < |subs| ==> r[i] == if subs[i].id in ids then subs[i].(active := false) else subs[i]
  {
    seq(|subs|, i requires 0 <= i < |subs| => if subs[i].id in ids then subs[i].(active := false) else subs[i])
  }

  lemma DeactivatedMore(subs: seq<Subscription>, ids: set<int>, id: int)
    ensures Deactivated(Deactivated(subs, ids), {id}) == Deactivated(subs, ids + {id})
  {
  }

  /** `DELETE /unsubscribe`: with an endpoint only the caller's row for it, without one all the caller's rows. */
  function Unsubscribed(subs: seq<Subscription>, user: int, endpoint: string): (r: seq<Subscription>)
    ensures |r| == |subs|
    ensures forall i :: 0 <= i < |subs| ==> r[i] == if subs[i].userId == user && (endpoint == [] || subs[i].endpoint == endpoint)
      then subs[i].(active := false) else subs[i]
  {
    seq(|subs|, i requires 0 <= i < |subs| =>
      if subs[i].userId == user && (endpoint == [] || subs[i].endpoint == endpoint) then subs[i].(active := false) else subs[i])
  }

  /** `SELECT ... WHERE user_id = $1 AND is_active = TRUE`. */
  function ActiveRows(subs: seq<Subscription>, user: int): (r: seq<Subscription>)
    ensures |r| <= |subs|
    ensures forall s :: s in r <==> s in subs && s.userId == user && s.active
  {
    if subs == [] then []
    else
      var last := subs[|subs| - 1];
      ActiveRows(subs[..|subs| - 1], user) + (if last.userId == user && last.active then [last] else [])
  }

  /** Unsubscribing without an endpoint leaves the caller without an active row and touches no one else's rows. */
  lemma UnsubscribeAll(subs: seq<Subscription>, user: int, other: int)
    requires other != user
    ensures ActiveRows(Unsubscribed(subs, user, []), user) == []
    ensures ActiveRows(Unsubscribed(subs, user, []), other) == ActiveRows(subs, other)
  {
    UnsubscribeClears(subs, user);
    UnsubscribeOthers(subs, user, [], other);
  }

  lemma {:induction false} UnsubscribeClears(subs: seq<Subscription>, user: int)
    ensures ActiveRows(Unsubscribed(subs, user, []), user) == []
  {
    if subs != [] {
      var p := subs[..|subs| - 1];
      UnsubscribeClears(p, user);
      assert Unsubscribed(subs, user, [])[..|subs| - 1] == Unsubscribed(p, user, []);
    }
  }

  lemma {:induction false} UnsubscribeOthers(subs: seq<Subscription>, user: int, endpoint: string, other: int)
    requires other != user
    ensures ActiveRows(Unsubscribed(subs, user, endpoint), other) == ActiveRows(subs, other)
  {
    if subs != [] {
      var p := subs[..|subs| - 1];
      UnsubscribeOthers(p, user, endpoint, other);
      assert Unsubscribed(subs, user, endpoint)[..|subs| - 1] == Unsubscribed(p, user, endpoint);
    }
  }

  /** With an endpoint, only that endpoint's row can go inactive, and only when the caller owns it. */
  lemma UnsubscribeOne(subs: seq<Subscription>, user: int, endpoint: string, i: nat)
    requires endpoint != [] && i < |subs|
    ensures Unsubscribed(subs, user, endpoint)[i] != subs[i] ==> subs[i].endpoint == endpoint && subs[i].userId == user
  {
  }

  // ---------------------------------------------------------------------------
  // Sending

  /** The result of one `webpush.sendNotification`: delivered, or rejected with the push service's status code, if any. */
  datatype Delivery = Delivered | Failed(statusCode: Option<int>)

  /** 410 Gone or 404 Not Found: the subscription has expired. */
  predicate Gone(d: Delivery)
  {
    d.Failed? && d.statusCode.Some? && (d.statusCode.value == 410 || d.statusCode.value == 404)
  }

  /** How many of the sends over `rows` were delivered. */
  function DeliveredCount(rows: seq<Subscription>, outcome: Subscription -> Delivery): (n: nat)
    ensures n <= |rows|
  {
    if rows == [] then 0
    else DeliveredCount(rows[..|rows| - 1], outcome) + (if outcome(rows[|rows| - 1]).Delivered? then 1 else 0)
  }

  /** The ids of the rows whose send came back gone. */
  function GoneIds(rows: seq<Subscription>, outcome: Subscription -> Delivery): (ids: set<int>)
    ensures forall id :: id in ids <==> exists i :: 0 <= i < |rows| && rows[i].id == id && Gone(outcome(rows[i]))
  {
    if rows == [] then {}
    else
      var last := rows[|rows| - 1];
      var ids := GoneIds(rows[..|rows| - 1], outcome);
      assert forall i :: 0 <= i < |rows| - 1 ==> rows[..|rows| - 1][i] == rows[i];
      ids + (if Gone(outcome(last)) then {last.id} else {})
  }

  // ---------------------------------------------------------------------------
  // notification_logs

  datatype NotificationLog = NotificationLog(id: int, userId: int, title: string, body: string, category: string, isRead: bool)

  /** `WHERE user_id = $1 ORDER BY created_at DESC`: the user's logs, the latest insert first. */
  function NewestFor(logs: seq<NotificationLog>, user: int): (r: seq<NotificationLog>)
    ensures |r| <= |logs|
    ensures forall l :: l in r <==> l in logs && l.userId == user
  {
    if logs == [] then []
    else
      var last := logs[|logs| - 1];
      (if last.userId == user then [last] else []) + NewestFor(logs[..|logs| - 1], user)
  }

  /** A log just written for a user heads that user's history. */
  lemma NewestForAppend(logs: seq<NotificationLog>, l: NotificationLog)
    ensures NewestFor(logs + [l], l.userId) == [l] + NewestFor(logs, l.userId)
  {
    assert (logs + [l])[..|logs|] == logs;
  }

  /** `COUNT(*) ... WHERE user_id = $1 AND is_read = FALSE`. */
  function UnreadFor(logs: seq<NotificationLog>, user: int): (n: nat)
    ensures n <= |NewestFor(logs, user)|
  {
    if logs == [] then 0
    else
      var last := logs[|logs| - 1];
      UnreadFor(logs[..|logs| - 1], user) + (if last.userId == user && !last.isRead then 1 else 0)
  }

  /** `PUT /notifications/:id/read`: marks the log with that id, but only among the caller's own. */
  function ReadOne(logs: seq<NotificationLog>, id: int, user: int): (r: seq<NotificationLog>)
    ensures |r| == |logs|
    ensures forall i :: 0 <= i < |logs| ==> r[i] == if logs[i].id == id && logs[i].userId == user then logs[i].(isRead := true) else logs[i]
  {
    if logs == [] then []
    else
      var last := logs[|logs| - 1];
      ReadOne(logs[..|logs| - 1], id, user) + [if last.id == id && last.userId == user then last.(isRead := true) else last]
  }

  /** `PUT /notifications/read-all`: marks every log of the caller. */
  function ReadAll(logs: seq<NotificationLog>, user: int): (r: seq<NotificationLog>)
    ensures |r| == |logs|
    ensures forall i :: 0 <= i < |logs| ==> r[i] == if logs[i].userId == user then logs[i].(isRead := true) else logs[i]
  {
    if logs == [] then []
    else
      var last := logs[|logs| - 1];
      ReadAll(logs[..|logs| - 1], user) + [if last.userId == user then last.(isRead := true) else last]
  }

  /** After read-all the caller has no unread notification, and everyone else keeps their count. */
  lemma {:induction false} ReadAllCounts(logs: seq<NotificationLog>, user: int, other: int)
    requires other != user
    ensures UnreadFor(ReadAll(logs, user), user) == 0
    ensures UnreadFor(ReadAll(logs, user), other) == UnreadFor(logs, other)
  {
    if logs != [] {
      var p := logs[..|logs| - 1];
      ReadAllCounts(p, user, other);
      assert ReadAll(logs, user)[..|logs| - 1] == ReadAll(p, user);
    }
  }

  /** Marking one notification read never raises the caller's unread count and leaves other users' counts alone. */
  lemma {:induction false} ReadOneCounts(logs: seq<NotificationLog>, id: int, user: int, other: int)
    requires other != user
    ensures UnreadFor(ReadOne(logs, id, user), user) <= UnreadFor(logs, user)
    ensures UnreadFor(ReadOne(logs, id, user), other) == UnreadFor(logs, other)
  {
    if logs != [] {
      var p := logs[..|logs| - 1];
      ReadOneCounts(p, id, user, other);
      assert ReadOne(logs, id, user)[..|logs| - 1] == ReadOne(p, id, user);
    }
  }

  /** A history entry as the route sends it: `id: String(notification_id)`. */
  datatype NotificationView = NotificationView(id: string, title: string, body: string, category: string, isRead: bool)

  function Views(w: seq<NotificationLog>): (r: seq<NotificationView>)
    ensures |r| == |w|
    ensures forall i :: 0 <= i < |w| ==> r[i] == NotificationView(IntToString(w[i].id), w[i].title, w[i].body, w[i].category, w[i].isRead)
  {
    seq(|w|, i requires 0 <= i < |w| => NotificationView(IntToString(w[i].id), w[i].title, w[i].body, w[i].category, w[i].isRead))
  }

  datatype NotificationsReply =
    | NotificationsOk(notifications: seq<NotificationView>, unreadCount: nat, page: int, limit: int, total: nat, totalPages: nat)
    | NotificationsServerError

  /**
   * `GET /notifications` once `page` and `limit` are read. A NaN page or a page below 1 gives
   * a NaN or negative `OFFSET`, which PostgreSQL refuses, so the route answers 500.
   */
  function ListNotifications(logs: seq<NotificationLog>, user: int, page: Option<int>, limit: int): NotificationsReply
    requires 1 <= limit <= 100
  {
    match page
    case None => NotificationsServerError
    case Some(p) =>
      var offset := PageOffset(p, limit);
      if offset < 0 then NotificationsServerError
      else
        var m := NewestFor(logs, user);
        NotificationsOk(Views(Window(m, offset, limit)), UnreadFor(logs, user), p, limit, |m|, CeilDiv(|m|, limit))
  }

  /** The route itself; an absent `page` arrives as `"1"` and an absent `limit` as `"30"`, the route's defaults. */
  function Notifications(logs: seq<NotificationLog>, user: int, page: string, rawLimit: string): NotificationsReply
  {
    ListNotifications(logs, user, ParseInt(page), PageLimit(rawLimit, DefaultNotificationLimit))
  }

  /** The history answers exactly when the page is a number of at least 1. */
  lemma NotificationsAnswer(logs: seq<NotificationLog>, user: int, page: Option<int>, limit: int)
    requires 1 <= limit <= 100
    ensures ListNotifications(logs, user, page, limit).NotificationsOk? <==> page.Some? && page.value >= 1
  {
  }

  /**
   * An answered history holds the `limit` entries at `(page - 1) * limit` of the caller's
   * logs, newest first, with `total` the caller's log count, `totalPages = ceil(total / limit)`
   * and the caller's unread count; every entry is the caller's.
   */
  lemma NotificationsWindow(logs: seq<NotificationLog>, user: int, page: Option<int>, limit: int)
    requires 1 <= limit <= 100 && ListNotifications(logs, user, page, limit).NotificationsOk?
    ensures var r := ListNotifications(logs, user, page, limit);
      var m := NewestFor(logs, user);
      var offset := PageOffset(r.page, limit);
      && page == Some(r.page) && r.limit == limit && offset >= 0
      && r.total == |m| && r.totalPages == CeilDiv(|m|, limit) && r.unreadCount == UnreadFor(logs, user)
      && r.notifications == Views(Window(m, offset, limit))
  {
    var p := page.value;
    var m := NewestFor(logs, user);
    var w := Views(Window(m, PageOffset(p, limit), limit));
    assert ListNotifications(logs, user, page, limit) == NotificationsOk(w, UnreadFor(logs, user), p, limit, |m|, CeilDiv(|m|, limit));
  }

  /** The defaults: page 1 of at most 30 entries. */
  lemma NotificationsDefaults(logs: seq<NotificationLog>, user: int)
    ensures var r := Notifications(logs, user, "1", "30");
      r.NotificationsOk? && r.page == 1 && r.limit == 30
  {
    ReadsAs("1", 1);
    ReadsAs("30", 30);
    NotificationsAnswer(logs, user, Some(1), 30);
  }

  lemma ReadsAs(s: string, n: nat)
    requires s == NatToString(n)
    ensures ParseInt(s) == Some(n)
  {
    ParseIntNat(n);
  }

  /** `targetUserId || userId`: a missing or zero target means the caller. */
  function SendTo(user: int, target: Option<int>): (to: int)
    ensures target.Some? && target.value != 0 ==> to == target.value
    ensures target.None? || target.value == 0 ==> to == user
  {
    if target.Some? && target.value != 0 then target.value else user
  }

  class PushDb {
    var subs: seq<Subscription>
    var nextSubId: int
    var logs: seq<NotificationLog>
    var nextLogId: int

    ghost predicate Valid()
      reads this
    {
      TableOk(subs, nextSubId) && forall i :: 0 <= i < |logs| ==> logs[i].id < nextLogId
    }

    constructor (subs: seq<Subscription>, nextSubId: int, logs: seq<NotificationLog>, nextLogId: int)
      requires TableOk(subs, nextSubId) && forall i :: 0 <= i < |logs| ==> logs[i].id < nextLogId
      ensures Valid()
      ensures this.subs == subs && this.nextSubId == nextSubId && this.logs == logs && this.nextLogId == nextLogId
    {
      this.subs := subs;
      this.nextSubId := nextSubId;
      this.logs := logs;
      this.nextLogId := nextLogId;
    }

    /** `POST /subscribe`: all three fields are needed (an absent one arrives as ""), then the upsert. */
    method Subscribe(user: int, endpoint: string, p256dh: string, auth: string) returns (reply: Reply)
      requires Valid()
      modifies this
      ensures Valid()
      ensures endpoint == [] || p256dh == [] || auth == [] ==> (reply == Reply(400, false, MsgBadSubscription) && subs == old(subs)
        && nextSubId == old(nextSubId))
      ensures endpoint != [] && p256dh != [] && auth != [] ==> (reply == Reply(200, true, MsgSubscribed)
        && subs == Upsert(old(subs), user, endpoint, p256dh, auth, old(nextSubId))
        && nextSubId == old(nextSubId) + (if FindEndpoint(old(subs), endpoint).Some? then 0 else 1))
      ensures logs == old(logs) && nextLogId == old(nextLogId)
    {
      if endpoint == [] || p256dh == [] || auth == [] {
        return Reply(400, false, MsgBadSubscription);
      }
      UpsertOneRow(subs, nextSubId, user, endpoint, p256dh, auth);
      var isNew := FindEndpoint(subs, endpoint).None?;
      subs := Upsert(subs, user, endpoint, p256dh, auth, nextSubId);
      if isNew {
        nextSubId := nextSubId + 1;
      }
      reply := Reply(200, true, MsgSubscribed);
    }

    /** `DELETE /unsubscribe`; an absent endpoint arrives as "". */
    method Unsubscribe(user: int, endpoint: string) returns (reply: Reply)
      requires Valid()
      modifies this
      ensures Valid()
      ensures reply == Reply(200, true, MsgUnsubscribed)
      ensures subs == Unsubscribed(old(subs), user, endpoint)
      ensures nextSubId == old(nextSubId) && logs == old(logs) && nextLogId == old(nextLogId)
    {
      subs := Unsubscribed(subs, user, endpoint);
      reply := Reply(200, true, MsgUnsubscribed);
    }

    method MarkRead(id: int, user: int)
      requires Valid()
      modifies this
      ensures Valid()
      ensures logs == ReadOne(old(logs), id, user)
      ensures subs == old(subs) && nextSubId == old(nextSubId) && nextLogId == old(nextLogId)
    {
      logs := ReadOne(logs, id, user);
    }

    method MarkAllRead(user: int)
      requires Valid()
      modifies this
      ensures Valid()
      ensures logs == ReadAll(old(logs), user)
      ensures subs == old(subs) && nextSubId == old(nextSubId) && nextLogId == old(nextLogId)
    {
      logs := ReadAll(logs, user);
    }

    /**
     * The send loop over the rows a `SELECT` returned: every send is counted once as a
     * success or a failure, and a row is deactivated exactly when its send came back gone.
     */
    method SendAll(rows: seq<Subscription>, outcome: Subscription -> Delivery) returns (sent: nat, failed: nat)
      requires Valid()
      modifies this
      ensures Valid()
      ensures sent + failed == |rows|
      ensures sent == DeliveredCount(rows, outcome)
      ensures subs == Deactivated(old(subs), GoneIds(rows, outcome))
      ensures nextSubId == old(nextSubId) && logs == old(logs) && nextLogId == old(nextLogId)
    {
      sent, failed := 0, 0;
      var i := 0;
      while i < |rows|
        invariant 0 <= i <= |rows|
        invariant Valid()
        invariant sent + failed == i
        invariant sent == DeliveredCount(rows[..i], outcome)
        invariant subs == Deactivated(old(subs), GoneIds(rows[..i], outcome))
        invariant nextSubId == old(nextSubId) && logs == old(logs) && nextLogId == old(nextLogId)
      {
        var d := outcome(rows[i]);
        assert rows[..i + 1][..i] == rows[..i];
        if d.Delivered? {
          sent := sent + 1;
        } else {
          failed := failed + 1;
          if Gone(d) {
            DeactivatedMore(old(subs), GoneIds(rows[..i], outcome), rows[i].id);
            subs := Deactivated(subs, {rows[i].id});
          }
        }
        i := i + 1;
      }
      assert rows[..i] == rows;
    }

    /** Appends one log for `user` with the next id. */
    method AddLog(user: int, title: string, body: string, category: string)
      requires Valid()
      modifies this
      ensures Valid()
      ensures logs == old(logs) + [NotificationLog(old(nextLogId), user, title, body, category, false)]
      ensures nextLogId == old(nextLogId) + 1 && subs == old(subs) && nextSubId == old(nextSubId)
    {
      logs := logs + [NotificationLog(nextLogId, user, title, body, category, false)];
      nextLogId := nextLogId + 1;
    }

    /**
     * `POST /test`: sends to every active subscription of the target, deactivates the gone
     * ones, and logs one notification for the target even when every send failed. The body
     * is the latest news title, or a fixed text when there is no news.
     */
    method SendTest(user: int, target: Option<int>, latestTitle: Option<string>, outcome: Subscription -> Delivery)
      returns (reply: Reply, sent: nat, failed: nat)
      requires Valid()
      modifies this
      ensures Valid()
      ensures var rows := ActiveRows(old(subs), SendTo(user, target));
        if rows == [] then
          reply == Reply(404, false, MsgNoActiveSubscription) && sent == 0 && failed == 0
          && subs == old(subs) && logs == old(logs) && nextLogId == old(nextLogId)
        else
          reply.status == 200 && reply.success
          && reply.text == "테스트 알림 발송 완료 (성공: " + NatToString(sent) + ", 실패: " + NatToString(failed) + ")"
          && sent + failed == |rows| && sent == DeliveredCount(rows, outcome)
          && subs == Deactivated(old(subs), GoneIds(rows, outcome))
          && logs == old(logs) + [NotificationLog(old(nextLogId), SendTo(user, target), TestTitle,
                                                  OrElse(latestTitle, TestFallbackBody), TestCategory, false)]
      ensures nextSubId == old(nextSubId)
    {
      var to := SendTo(user, target);
      var rows := ActiveRows(subs, to);
      if rows == [] {
        return Reply(404, false, MsgNoActiveSubscription), 0, 0;
      }
      var body := OrElse(latestTitle, TestFallbackBody);
      sent, failed := SendAll(rows, outcome);
      AddLog(to, TestTitle, body, TestCategory);
      reply := Reply(200, true, "테스트 알림 발송 완료 (성공: " + NatToString(sent) + ", 실패: " + NatToString(failed) + ")");
    }
  }

  /** The sends touch only the rows they were given: a row not among them keeps its state. */
  lemma SendTouchesOnlyRows(subs: seq<Subscription>, rows: seq<Subscription>, outcome: Subscription -> Delivery, i: nat)
    requires i < |subs| && forall j :: 0 <= j < |rows| ==> rows[j].id != subs[i].id
    ensures Deactivated(subs, GoneIds(rows, outcome))[i] == subs[i]
  {
  }
}
