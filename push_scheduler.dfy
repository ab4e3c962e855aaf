/**
 * The per-minute push scheduler of the Express backend: it works out the Korean clock time
 * and weekday, picks the users whose `notification_time` is this minute, and sends each of
 * them, on a weekday they chose, the latest-news notification through every active
 * subscription, logging one notification per user reached. It runs on the same tables as
 * the push routes, and a send's result is a parameter as there.
 */
module PushScheduler {
  import opened Util
  import opened PushRoutes

  const KstOffsetMinutes := 9 * 60
  const MsPerMinute := 60000
  const MsPerHour := 3600000
  const MsPerDay := 86400000
  const DayNames: seq<string> := ["일", "월", "화", "수", "목", "금", "토"]
  const ScheduledTitle := "5늘5분 뉴스 브리핑"
  const ScheduledCategory := "맞춤 뉴스 배달"
  const SingleNewsText := "새로운 뉴스가 도착했습니다"

  // ---------------------------------------------------------------------------
  // Korean time

  /**
   * `getHours`, `getMinutes` and `getDay` of the instant `t` (milliseconds since the epoch) on
   * a server whose `getTimezoneOffset()` is `tz` minutes: local time is UTC minus the offset,
   * and 1 January 1970 was a Thursday (day 4).
   */
  function LocalHour(t: int, tz: int): (h: nat)
    ensures h < 24
  {
    ((t - tz * MsPerMinute) / MsPerHour) % 24
  }

  function LocalMinute(t: int, tz: int): (m: nat)
    ensures m < 60
  {
    ((t - tz * MsPerMinute) / MsPerMinute) % 60
  }

  function LocalDay(t: int, tz: int): (d: nat)
    ensures d < 7
  {
    ((t - tz * MsPerMinute) / MsPerDay + 4) % 7
  }

  /** `kstTime`: the instant shifted by nine hours plus the server's own offset. */
  function KstTime(now: int, tz: int): int
  {
    now + (KstOffsetMinutes + tz) * MsPerMinute
  }

  /** The shift cancels the server's offset: the Korean fields are those of UTC plus nine hours, whatever the server's zone. */
  lemma KstIgnoresZone(now: int, tz: int)
    ensures LocalHour(KstTime(now, tz), tz) == ((now + 9 * MsPerHour) / MsPerHour) % 24
    ensures LocalMinute(KstTime(now, tz), tz) == ((now + 9 * MsPerHour) / MsPerMinute) % 60
    ensures LocalDay(KstTime(now, tz), tz) == ((now + 9 * MsPerHour) / MsPerDay + 4) % 7
  {
    assert KstTime(now, tz) - tz * MsPerMinute == now + 9 * MsPerHour;
  }

  /** `DAY_MAP`: 0 is Sunday. */
  function DayName(d: nat): (s: string)
    requires d < 7
    ensures s == DayNames[d]
  {
    DayNames[d]
  }

  lemma DayNamesDistinct(a: nat, b: nat)
    requires a < 7 && b < 7 && a != b
    ensures DayName(a) != DayName(b)
  {
  }

  /** `HH:MM`, both fields zero-padded: the form `TO_CHAR(notification_time, 'HH24:MI')` produces. */
  function ClockText(h: nat, m: nat): string
  {
    Pad2(h) + ":" + Pad2(m)
  }

  /** For a time of day the text is five characters: two digits, a colon, two digits. */
  lemma ClockTextShape(h: nat, m: nat)
    requires h < 24 && m < 60
    ensures var r := ClockText(h, m); |r| == 5 && r[2] == ':' && forall k :: 0 <= k < 5 && k != 2 ==> IsDigit(r[k])
  {
    assert h >= 10 ==> |NatToString(h / 10)| == 1;
    assert m >= 10 ==> |NatToString(m / 10)| == 1;
  }

  /** Two clock texts agree exactly when the hours and the minutes do. */
  lemma ClockTextInjective(h1: nat, m1: nat, h2: nat, m2: nat)
    requires h1 < 24 && m1 < 60 && h2 < 24 && m2 < 60
    ensures ClockText(h1, m1) == ClockText(h2, m2) <==> h1 == h2 && m1 == m2
  {
    if ClockText(h1, m1) == ClockText(h2, m2) {
      assert Pad2(h1) == ClockText(h1, m1)[..2] && Pad2(h2) == ClockText(h2, m2)[..2];
      assert Pad2(m1) == ClockText(h1, m1)[3..] && Pad2(m2) == ClockText(h2, m2)[3..];
      Pad2Value(h1);
      Pad2Value(h2);
      Pad2Value(m1);
      Pad2Value(m2);
    }
  }

  /** The Korean clock of one run: `currentTime` and `kstDay`. */
  datatype Clock = Clock(hour: nat, minute: nat, day: nat)

  function KstClock(now: int, tz: int): (c: Clock)
    ensures c.hour < 24 && c.minute < 60 && c.day < 7
  {
    var k := KstTime(now, tz);
    Clock(LocalHour(k, tz), LocalMinute(k, tz), LocalDay(k, tz))
  }

  // ---------------------------------------------------------------------------
  // Who is due and what they are sent

  /** A `user_settings` row; `days` is `None` for a NULL `notification_days`. */
  datatype UserSetting = UserSetting(userId: int, pushEnabled: bool, hour: nat, minute: nat, days: Option<seq<string>>)

  predicate SettingOk(s: UserSetting)
  {
    s.hour < 24 && s.minute < 60
  }

  /** `WHERE push_enabled = TRUE AND TO_CHAR(notification_time, 'HH24:MI') = $1`. */
  function DueRows(settings: seq<UserSetting>, c: Clock): (r: seq<UserSetting>)
    ensures forall s :: s in r <==> s in settings && s.pushEnabled && ClockText(s.hour, s.minute) == ClockText(c.hour, c.minute)
  {
    if settings == [] then []
    else
      var last := settings[|settings| - 1];
      DueRows(settings[..|settings| - 1], c)
        + (if last.pushEnabled && ClockText(last.hour, last.minute) == ClockText(c.hour, c.minute) then [last] else [])
  }

  /** A row is due exactly when push is on and its time is this very hour and minute. */
  lemma DueMeaning(settings: seq<UserSetting>, c: Clock, s: UserSetting)
    requires c.hour < 24 && c.minute < 60 && SettingOk(s) && s in settings
    ensures s in DueRows(settings, c) <==> s.pushEnabled && s.hour == c.hour && s.minute == c.minute
  {
    ClockTextInjective(s.hour, s.minute, c.hour, c.minute);
  }

  /** `days.includes(kstDay)`, a NULL list counting as empty. */
  predicate OnDay(s: UserSetting, c: Clock)
    requires c.day < 7
  {
    DayName(c.day) in OrElse(s.days, [])
  }

  /** A `news` row as the `LIMIT 3` query returns it. */
  datatype NewsHead = NewsHead(id: int, title: string)

  /** The text after the first title: how many more news there are, or a fixed sentence for one. */
  function MoreNewsText(count: nat): (r: string)
    ensures count > 1 ==> r == "외 " + NatToString(count - 1) + "건의 새로운 뉴스가 도착했습니다"
    ensures count <= 1 ==> r == SingleNewsText
  {
    if count > 1 then "외 " + NatToString(count - 1) + "건의 새로운 뉴스가 도착했습니다" else SingleNewsText
  }

  /** The body for the latest (at most three) news, newest first: the first title, a space and the count text. */
  function ScheduledBody(top: seq<NewsHead>): (r: string)
    requires top != []
    ensures r == top[0].title + " " + MoreNewsText(|top|)
  {
    top[0].title + " " + MoreNewsText(|top|)
  }

  /** With three news the body names two more. */
  lemma ThreeNewsBody(a: NewsHead, b: NewsHead, c: NewsHead)
    ensures ScheduledBody([a, b, c]) == a.title + " 외 2건의 새로운 뉴스가 도착했습니다"
  {
    var more := "건의 새로운 뉴스가 도착했습니다";
    assert NatToString(2) == ['2'];
    assert MoreNewsText(3) == "외 " + ['2'] + more;
    assert " " + ("외 " + ['2'] + more) == " 외 2" + more;
    assert " 외 2" + more == " 외 2건의 새로운 뉴스가 도착했습니다";
  }

  /** The logs written for the users reached, in order, with consecutive ids from `firstId`. */
  function LogsFor(users: seq<int>, firstId: int, body: string): (r: seq<NotificationLog>)
    ensures |r| == |users|
    ensures forall k :: 0 <= k < |users| ==> r[k] == NotificationLog(firstId + k, users[k], ScheduledTitle, body, ScheduledCategory, false)
  {
    if users == [] then []
    else
      LogsFor(users[..|users| - 1], firstId, body)
      + [NotificationLog(firstId + |users| - 1, users[|users| - 1], ScheduledTitle, body, ScheduledCategory, false)]
  }

  /** The users, in order, that a run reaches when the table does not change under it. */
  function Eligible(due: seq<UserSetting>, c: Clock, subs: seq<Subscription>): seq<int>
    requires c.day < 7
  {
    if due == [] then []
    else
      var last := due[|due| - 1];
      Eligible(due[..|due| - 1], c, subs) + (if OnDay(last, c) && ActiveRows(subs, last.userId) != [] then [last.userId] else [])
  }

  predicate DistinctUsers(due: seq<UserSetting>)
  {
    forall a, b :: 0 <= a < b < |due| ==> due[a].userId != due[b].userId
  }

  // ---------------------------------------------------------------------------
  // Proof helpers about the table

  lemma DeactivatedTwice(subs: seq<Subscription>, a: set<int>, b: set<int>)
    ensures Deactivated(Deactivated(subs, a), b) == Deactivated(subs, a + b)
  {
  }

  lemma {:induction false} GoneIdsAppend(a: seq<Subscription>, b: seq<Subscription>, outcome: Subscription -> Delivery)
    ensures GoneIds(a + b, outcome) == GoneIds(a, outcome) + GoneIds(b, outcome)
  {
    if b != [] {
      var b' := b[..|b| - 1];
      GoneIdsAppend(a, b', outcome);
      assert (a + b)[..|a + b| - 1] == a + b';
      assert (a + b)[|a + b| - 1] == b[|b| - 1];
      var x := b[|b| - 1];
      var extra := if Gone(outcome(x)) then {x.id} else {};
      assert GoneIds(b, outcome) == GoneIds(b', outcome) + extra;
      assert GoneIds(a + b, outcome) == GoneIds(a + b', outcome) + extra;
    } else {
      assert a + b == a;
    }
  }

  lemma {:induction false} DeliveredAppend(a: seq<Subscription>, b: seq<Subscription>, outcome: Subscription -> Delivery)
    ensures DeliveredCount(a + b, outcome) == DeliveredCount(a, outcome) + DeliveredCount(b, outcome)
  {
    if b != [] {
      var b' := b[..|b| - 1];
      DeliveredAppend(a, b', outcome);
      assert (a + b)[..|a + b| - 1] == a + b';
      assert (a + b)[|a + b| - 1] == b[|b| - 1];
      var x := b[|b| - 1];
      assert DeliveredCount(b, outcome) == DeliveredCount(b', outcome) + (if outcome(x).Delivered? then 1 else 0);
      assert DeliveredCount(a + b, outcome) == DeliveredCount(a + b', outcome) + (if outcome(x).Delivered? then 1 else 0);
    } else {
      assert a + b == a;
    }
  }

  lemma LogsForAppend(users: seq<int>, u: int, firstId: int, body: string, id: int)
    requires id == firstId + |users|
    ensures LogsFor(users + [u], firstId, body) == LogsFor(users, firstId, body)
      + [NotificationLog(id, u, ScheduledTitle, body, ScheduledCategory, false)]
  {
    assert (users + [u])[..|users|] == users;
  }

  lemma AppendAssoc<T>(a: seq<T>, b: seq<T>, c: seq<T>)
    ensures (a + b) + c == a + (b + c)
  {
  }

  /** Switching off rows of other users leaves a user's active rows as they were. */
  lemma {:induction false} ActiveRowsUntouched(subs: seq<Subscription>, ids: set<int>, u: int)
    requires forall j :: 0 <= j < |subs| && subs[j].id in ids ==> subs[j].userId != u
    ensures ActiveRows(Deactivated(subs, ids), u) == ActiveRows(subs, u)
  {
    if subs != [] {
      var p := subs[..|subs| - 1];
      var last := subs[|subs| - 1];
      var d := Deactivated(subs, ids);
      ActiveRowsUntouched(p, ids, u);
      assert d[..|d| - 1] == Deactivated(p, ids);
      var x := d[|d| - 1];
      assert x.userId == last.userId;
      assert x.userId == u && x.active <==> last.userId == u && last.active;
      assert x.userId == u && x.active ==> x == last;
      assert ActiveRows(d, u) == ActiveRows(d[..|d| - 1], u) + (if x.userId == u && x.active then [x] else []);
    }
  }

  /** A row active in the deactivated table is an active row of the table before. */
  lemma ActiveAfterDeactivation(subs: seq<Subscription>, ids: set<int>, u: int, s: Subscription)
    requires s in ActiveRows(Deactivated(subs, ids), u)
    ensures s in subs && s.active && s.userId == u
  {
    var t := Deactivated(subs, ids);
    var j :| 0 <= j < |t| && t[j] == s;
    assert subs[j] == s;
  }

  lemma EligibleStep(due: seq<UserSetting>, i: nat, c: Clock, subs: seq<Subscription>)
    requires i < |due| && c.day < 7
    ensures Eligible(due[..i + 1], c, subs) == Eligible(due[..i], c, subs)
      + (if OnDay(due[i], c) && ActiveRows(subs, due[i].userId) != [] then [due[i].userId] else [])
  {
    assert due[..i + 1][..i] == due[..i];
  }

  /**
   * The ids switched off so far belong to users already reached, so under distinct users
   * the next user's active rows are still those of the table before the run.
   */
  lemma NextUserUntouched(old0: seq<Subscription>, nextId: int, sends: seq<Subscription>, outcome: Subscription -> Delivery,
                          notified: seq<int>, u: int)
    requires TableOk(old0, nextId)
    requires forall k :: 0 <= k < |sends| ==> sends[k] in old0 && sends[k].userId in notified
    requires u !in notified
    ensures ActiveRows(Deactivated(old0, GoneIds(sends, outcome)), u) == ActiveRows(old0, u)
  {
    var ids := GoneIds(sends, outcome);
    forall j | 0 <= j < |old0| && old0[j].id in ids
      ensures old0[j].userId != u
    {
      var k :| 0 <= k < |sends| && sends[k].id == old0[j].id && Gone(outcome(sends[k]));
      var j' :| 0 <= j' < |old0| && old0[j'] == sends[k];
      assert j == j';
    }
    ActiveRowsUntouched(old0, ids, u);
  }

  /** What a run has done so far, over the table and the logs as they were when it started. */
  ghost predicate RunDone(subs0: seq<Subscription>, logs0: seq<NotificationLog>, log0: int,
                          subs: seq<Subscription>, logs: seq<NotificationLog>, nextLog: int,
                          sends: seq<Subscription>, notified: seq<int>, sent: nat, failed: nat,
                          body: string, outcome: Subscription -> Delivery)
  {
    sent + failed == |sends| && sent == DeliveredCount(sends, outcome)
    && subs == Deactivated(subs0, GoneIds(sends, outcome))
    && (forall k :: 0 <= k < |sends| ==> sends[k] in subs0 && sends[k].active && sends[k].userId in notified)
    && logs == logs0 + LogsFor(notified, log0, body) && nextLog == log0 + |notified|
  }

  /** Every user reached so far came from one of the first `i` due rows, on its weekday: `from[k]` is that row. */
  ghost predicate Seen(due: seq<UserSetting>, i: nat, c: Clock, notified: seq<int>, from: seq<nat>)
    requires i <= |due| && c.day < 7
  {
    |from| == |notified|
    && forall k :: 0 <= k < |from| ==> from[k] < i && due[from[k]].userId == notified[k] && OnDay(due[from[k]], c)
  }

  /** Which of the first `i` due rows a run has reached. */
  ghost predicate DueDone(due: seq<UserSetting>, i: nat, c: Clock, notified: seq<int>, from: seq<nat>, subs0: seq<Subscription>)
    requires i <= |due| && c.day < 7
  {
    Seen(due, i, c, notified, from) && (DistinctUsers(due) ==> notified == Eligible(due[..i], c, subs0))
  }

  /** Sending to one more user's active rows and logging it keeps `RunDone`. */
  lemma RunStep(subs0: seq<Subscription>, logs0: seq<NotificationLog>, log0: int, logs: seq<NotificationLog>, nextLog: int,
                sends: seq<Subscription>, notified: seq<int>, sent: nat, failed: nat, body: string, outcome: Subscription -> Delivery,
                u: int, rows: seq<Subscription>, s1: nat, f1: nat)
    requires RunDone(subs0, logs0, log0, Deactivated(subs0, GoneIds(sends, outcome)), logs, nextLog, sends, notified, sent, failed, body, outcome)
    requires rows == ActiveRows(Deactivated(subs0, GoneIds(sends, outcome)), u)
    requires s1 + f1 == |rows| && s1 == DeliveredCount(rows, outcome)
    ensures RunDone(subs0, logs0, log0, Deactivated(Deactivated(subs0, GoneIds(sends, outcome)), GoneIds(rows, outcome)),
                    logs + [NotificationLog(nextLog, u, ScheduledTitle, body, ScheduledCategory, false)], nextLog + 1,
                    sends + rows, notified + [u], sent + s1, failed + f1, body, outcome)
  {
    forall s | s in rows
      ensures s in subs0 && s.active && s.userId == u
    {
      ActiveAfterDeactivation(subs0, GoneIds(sends, outcome), u, s);
    }
    GoneIdsAppend(sends, rows, outcome);
    DeliveredAppend(sends, rows, outcome);
    DeactivatedTwice(subs0, GoneIds(sends, outcome), GoneIds(rows, outcome));
    assert Deactivated(Deactivated(subs0, GoneIds(sends, outcome)), GoneIds(rows, outcome))
      == Deactivated(subs0, GoneIds(sends + rows, outcome));
    LogsForAppend(notified, u, log0, body, nextLog);
    var x := NotificationLog(nextLog, u, ScheduledTitle, body, ScheduledCategory, false);
    var l := LogsFor(notified, log0, body);
    AppendAssoc(logs0, l, [x]);
    var all := sends + rows;
    forall k | 0 <= k < |all|
      ensures all[k] in subs0 && all[k].active && all[k].userId in notified + [u]
    {
      if k >= |sends| {
        assert all[k] == rows[k - |sends|];
        assert all[k] in rows;
      }
    }
  }

  lemma SeenStep(due: seq<UserSetting>, i: nat, c: Clock, notified: seq<int>, from: seq<nat>, reached: bool)
    requires i < |due| && c.day < 7 && Seen(due, i, c, notified, from)
    requires reached ==> OnDay(due[i], c)
    ensures Seen(due, i + 1, c, if reached then notified + [due[i].userId] else notified, if reached then from + [i] else from)
  {
  }

  /** Under distinct users the next due row is reached exactly when it is eligible on the table before the run. */
  lemma EligibleNext(due: seq<UserSetting>, i: nat, c: Clock, subs0: seq<Subscription>, nextId: int,
                     sends: seq<Subscription>, outcome: Subscription -> Delivery, notified: seq<int>, from: seq<nat>, reached: bool)
    requires i < |due| && c.day < 7 && TableOk(subs0, nextId) && DistinctUsers(due)
    requires Seen(due, i, c, notified, from) && notified == Eligible(due[..i], c, subs0)
    requires forall k :: 0 <= k < |sends| ==> sends[k] in subs0 && sends[k].userId in notified
    requires reached <==> OnDay(due[i], c) && ActiveRows(Deactivated(subs0, GoneIds(sends, outcome)), due[i].userId) != []
    ensures (if reached then notified + [due[i].userId] else notified) == Eligible(due[..i + 1], c, subs0)
  {
    var u := due[i];
    EligibleStep(due, i, c, subs0);
    assert u.userId !in notified by {
      forall k | 0 <= k < |notified|
        ensures notified[k] != u.userId
      {
        assert due[from[k]].userId == notified[k];
      }
    }
    NextUserUntouched(subs0, nextId, sends, outcome, notified, u.userId);
  }

  /** Deciding about one more due row keeps `DueDone`. */
  lemma DueStep(due: seq<UserSetting>, i: nat, c: Clock, subs0: seq<Subscription>, nextId: int,
                sends: seq<Subscription>, outcome: Subscription -> Delivery, notified: seq<int>, from: seq<nat>, reached: bool)
    requires i < |due| && c.day < 7 && TableOk(subs0, nextId)
    requires DueDone(due, i, c, notified, from, subs0)
    requires forall k :: 0 <= k < |sends| ==> sends[k] in subs0 && sends[k].userId in notified
    requires reached <==> OnDay(due[i], c) && ActiveRows(Deactivated(subs0, GoneIds(sends, outcome)), due[i].userId) != []
    ensures DueDone(due, i + 1, c, if reached then notified + [due[i].userId] else notified, if reached then from + [i] else from, subs0)
  {
    SeenStep(due, i, c, notified, from, reached);
    if DistinctUsers(due) {
      EligibleNext(due, i, c, subs0, nextId, sends, outcome, notified, from, reached);
    }
  }

  // ---------------------------------------------------------------------------
  // The run

  /**
   * `sendScheduledNotifications`. Nothing happens without both VAPID keys, without a due
   * user or without news. Otherwise `sends` lists every send made, in order: each is
   * counted once as sent or failed, exactly the gone ones are switched off, every one went
   * to an active row of a user reached, and each user reached on their weekday gets one log
   * even when all their sends failed. When no user has two settings rows, the users reached
   * are exactly the due users on their weekday with an active subscription.
   */
  method Run(db: PushDb, publicKey: string, privateKey: string, now: int, tz: int,
             settings: seq<UserSetting>, latestNews: seq<NewsHead>, outcome: Subscription -> Delivery)
    returns (totalSent: nat, totalFailed: nat, notified: seq<int>, sends: seq<Subscription>)
    requires db.Valid()
    modifies db
    ensures db.Valid()
    ensures publicKey == [] || privateKey == [] || latestNews == [] || DueRows(settings, KstClock(now, tz)) == []
      ==> (notified == [] && sends == [] && totalSent == 0 && totalFailed == 0 && db.subs == old(db.subs)
           && db.logs == old(db.logs) && db.nextLogId == old(db.nextLogId))
    ensures totalSent + totalFailed == |sends|
    ensures totalSent == DeliveredCount(sends, outcome)
    ensures db.subs == Deactivated(old(db.subs), GoneIds(sends, outcome))
    ensures forall k :: 0 <= k < |sends| ==> sends[k] in old(db.subs) && sends[k].active && sends[k].userId in notified
    ensures forall k :: 0 <= k < |notified| ==> exists s :: (s in DueRows(settings, KstClock(now, tz)) && s.userId == notified[k]
      && OnDay(s, KstClock(now, tz)))
    ensures notified != [] ==> db.logs == old(db.logs) + LogsFor(notified, old(db.nextLogId), ScheduledBody(Take(latestNews, 3)))
    ensures notified == [] ==> db.logs == old(db.logs)
    ensures db.nextLogId == old(db.nextLogId) + |notified| && db.nextSubId == old(db.nextSubId)
    ensures DistinctUsers(DueRows(settings, KstClock(now, tz))) && publicKey != [] && privateKey != [] && latestNews != []
      ==> notified == Eligible(DueRows(settings, KstClock(now, tz)), KstClock(now, tz), old(db.subs))
  {
    var c := KstClock(now, tz);
    totalSent, totalFailed, notified, sends := RunAt(db, publicKey, privateKey, c, DueRows(settings, c), Take(latestNews, 3), outcome);
  }

  /** The run at the Korean clock `c`, once the query for the due rows has returned `due` and the one for the latest news `top`. */
  method RunAt(db: PushDb, publicKey: string, privateKey: string, c: Clock,
               due: seq<UserSetting>, top: seq<NewsHead>, outcome: Subscription -> Delivery)
    returns (totalSent: nat, totalFailed: nat, notified: seq<int>, sends: seq<Subscription>)
    requires db.Valid() && c.day < 7
    modifies db
    ensures db.Valid()
    ensures publicKey == [] || privateKey == [] || due == [] || top == []
      ==> (notified == [] && sends == [] && totalSent == 0 && totalFailed == 0 && db.subs == old(db.subs)
           && db.logs == old(db.logs) && db.nextLogId == old(db.nextLogId))
    ensures totalSent + totalFailed == |sends|
    ensures totalSent == DeliveredCount(sends, outcome)
    ensures db.subs == Deactivated(old(db.subs), GoneIds(sends, outcome))
    ensures forall k :: 0 <= k < |sends| ==> sends[k] in old(db.subs) && sends[k].active && sends[k].userId in notified
    ensures forall k :: 0 <= k < |notified| ==> exists s :: s in due && s.userId == notified[k] && OnDay(s, c)
    ensures notified != [] ==> top != [] && db.logs == old(db.logs) + LogsFor(notified, old(db.nextLogId), ScheduledBody(top))
    ensures notified == [] ==> db.logs == old(db.logs)
    ensures db.nextLogId == old(db.nextLogId) + |notified| && db.nextSubId == old(db.nextSubId)
    ensures DistinctUsers(due) && publicKey != [] && privateKey != [] && top != []
      ==> notified == Eligible(due, c, old(db.subs))
  {
    totalSent, totalFailed, notified, sends := 0, 0, [], [];
    if publicKey == [] || privateKey == [] || due == [] || top == [] {
      NothingSent(old(db.subs), outcome);
      return;
    }
    var body := ScheduledBody(top);
    ghost var from;
    totalSent, totalFailed, notified, sends, from := NotifyAll(db, due, c, body, outcome);
    DueFinished(due, c, notified, from, old(db.subs));
    if notified == [] {
      assert old(db.logs) + LogsFor(notified, old(db.nextLogId), body) == old(db.logs);
    }
  }

  /** A run that sends nothing leaves the table as it was. */
  lemma NothingSent(subs: seq<Subscription>, outcome: Subscription -> Delivery)
    ensures Deactivated(subs, GoneIds([], outcome)) == subs
  {
    assert GoneIds([], outcome) == {};
  }

  /** At the end of the loop every user reached is a due user on their weekday, and under distinct users exactly the eligible ones. */
  lemma DueFinished(due: seq<UserSetting>, c: Clock, notified: seq<int>, from: seq<nat>, subs0: seq<Subscription>)
    requires c.day < 7 && DueDone(due, |due|, c, notified, from, subs0)
    ensures forall k :: 0 <= k < |notified| ==> exists s :: s in due && s.userId == notified[k] && OnDay(s, c)
    ensures DistinctUsers(due) ==> notified == Eligible(due, c, subs0)
  {
    assert due[..|due|] == due;
    forall k | 0 <= k < |notified|
      ensures exists s :: s in due && s.userId == notified[k] && OnDay(s, c)
    {
      assert due[from[k]] in due;
    }
  }

  lemma RunStart(subs0: seq<Subscription>, logs0: seq<NotificationLog>, log0: int, body: string, outcome: Subscription -> Delivery)
    ensures RunDone(subs0, logs0, log0, subs0, logs0, log0, [], [], 0, 0, body, outcome)
  {
    NothingSent(subs0, outcome);
    assert logs0 + LogsFor([], log0, body) == logs0;
  }

  lemma DueStart(due: seq<UserSetting>, c: Clock, subs0: seq<Subscription>)
    requires c.day < 7
    ensures DueDone(due, 0, c, [], [], subs0)
  {
    assert due[..0] == [];
  }

  /** The loop over the due users: `RunDone` and `DueDone` hold at its end. */
  method NotifyAll(db: PushDb, due: seq<UserSetting>, c: Clock, body: string, outcome: Subscription -> Delivery)
    returns (totalSent: nat, totalFailed: nat, notified: seq<int>, sends: seq<Subscription>, ghost from: seq<nat>)
    requires db.Valid() && c.day < 7
    modifies db
    ensures db.Valid() && db.nextSubId == old(db.nextSubId)
    ensures RunDone(old(db.subs), old(db.logs), old(db.nextLogId), db.subs, db.logs, db.nextLogId,
                    sends, notified, totalSent, totalFailed, body, outcome)
    ensures DueDone(due, |due|, c, notified, from, old(db.subs))
  {
    totalSent, totalFailed, notified, sends, from := 0, 0, [], [], [];
    ghost var subs0, logs0, log0, nextId := db.subs, db.logs, db.nextLogId, db.nextSubId;
    RunStart(subs0, logs0, log0, body, outcome);
    DueStart(due, c, subs0);
    var i: nat := 0;
    while i < |due|
      invariant 0 <= i <= |due|
      invariant db.Valid() && db.nextSubId == nextId && TableOk(subs0, nextId)
      invariant RunDone(subs0, logs0, log0, db.subs, db.logs, db.nextLogId, sends, notified, totalSent, totalFailed, body, outcome)
      invariant DueDone(due, i, c, notified, from, subs0)
    {
      totalSent, totalFailed, notified, sends, from :=
        NotifyOne(db, due, i, c, body, outcome, subs0, logs0, log0, nextId, totalSent, totalFailed, notified, sends, from);
      i := i + 1;
    }
  }

  /** One turn of that loop: the due row `due[i]` is reached when it is on its weekday and its user still has an active row. */
  method NotifyOne(db: PushDb, due: seq<UserSetting>, i: nat, c: Clock, body: string, outcome: Subscription -> Delivery,
                   ghost subs0: seq<Subscription>, ghost logs0: seq<NotificationLog>, ghost log0: int, ghost nextId: int,
                   sent0: nat, failed0: nat, notified0: seq<int>, sends0: seq<Subscription>, ghost from0: seq<nat>)
    returns (totalSent: nat, totalFailed: nat, notified: seq<int>, sends: seq<Subscription>, ghost from: seq<nat>)
    requires db.Valid() && i < |due| && c.day < 7 && TableOk(subs0, nextId) && db.nextSubId == nextId
    requires RunDone(subs0, logs0, log0, db.subs, db.logs, db.nextLogId, sends0, notified0, sent0, failed0, body, outcome)
    requires DueDone(due, i, c, notified0, from0, subs0)
    modifies db
    ensures db.Valid() && db.nextSubId == nextId
    ensures RunDone(subs0, logs0, log0, db.subs, db.logs, db.nextLogId, sends, notified, totalSent, totalFailed, body, outcome)
    ensures DueDone(due, i + 1, c, notified, from, subs0)
  {
    var u := due[i];
    var rows := ActiveRows(db.subs, u.userId);
    var reached := OnDay(u, c) && rows != [];
    DueStep(due, i, c, subs0, nextId, sends0, outcome, notified0, from0, reached);
    if !reached {
      return sent0, failed0, notified0, sends0, from0;
    }
    var sent, failed := db.SendAll(rows, outcome);
    RunStep(subs0, logs0, log0, db.logs, db.nextLogId, sends0, notified0, sent0, failed0, body, outcome, u.userId, rows, sent, failed);
    db.AddLog(u.userId, ScheduledTitle, body, ScheduledCategory);
    totalSent, totalFailed, notified, sends, from := sent0 + sent, failed0 + failed, notified0 + [u.userId], sends0 + rows, from0 + [i];
  }
}
