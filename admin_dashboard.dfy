/**
 * The admin dashboard's formatting (`AdminDashboard.tsx`): sign-up and last-login dates,
 * the "how long ago" label of a last login, compact numbers, and the heights of the
 * daily-active-user bars. What `new Date` makes of a string is passed in as `parse`: the
 * instant in milliseconds and its local calendar date, or None for an invalid date.
 */
module AdminDashboard {
  import opened Util
  import Helpers

  datatype Instant = Instant(ms: int, local: Helpers.CalDate)

  const NoDate := "-"
  const Never := "없음"
  const JustNow := "방금 전"
  /** What the template string shows for the parts of an invalid date. */
  const InvalidDate := "NaN.NaN.NaN"

  const MsPerMinute := 60000

  /** `formatDate`: "-" without a date, else the zero-padded `YYYY.MM.DD`. */
  function FormatDate(s: string, parse: string -> Option<Instant>): (r: string)
    ensures s == [] ==> r == NoDate
    ensures s != [] && parse(s).Some? ==> r == Helpers.DotDate(parse(s).value.local)
    ensures s != [] && parse(s).None? ==> r == InvalidDate
  {
    if s == [] then NoDate
    else if parse(s).None? then InvalidDate
    else Helpers.DotDate(parse(s).value.local)
  }

  /**
   * `relativeTime`: the elapsed time, floored to whole minutes, hours and days in turn,
   * picks the unit; a month or more, and an invalid date, fall back to `formatDate`.
   */
  function RelativeTime(s: string, parse: string -> Option<Instant>, nowMs: int): (r: string)
  {
    if s == [] then Never
    else if parse(s).None? then FormatDate(s, parse)
    else
      var mins := (nowMs - parse(s).value.ms) / MsPerMinute;
      if mins < 1 then JustNow
      else if mins < 60 then NatToString(mins) + "분 전"
      else
        var hours := mins / 60;
        if hours < 24 then NatToString(hours) + "시간 전"
        else
          var days := hours / 24;
          if days < 30 then NatToString(days) + "일 전"
          else FormatDate(s, parse)
  }

  /** Flooring minutes to hours, then hours to days, is flooring the elapsed time by the larger unit. */
  lemma FloorToHours(x: int)
    ensures x / MsPerMinute / 60 == x / (60 * MsPerMinute)
  {
  }

  lemma FloorToDays(x: int)
    ensures x / MsPerMinute / 60 / 24 == x / (24 * 60 * MsPerMinute)
  {
    FloorToHours(x);
  }

  /** The label's unit follows the elapsed milliseconds directly; the future, like the last minute, is "just now". */
  lemma RelativeTimeBuckets(s: string, parse: string -> Option<Instant>, nowMs: int)
    requires s != [] && parse(s).Some?
    ensures var diff := nowMs - parse(s).value.ms; var r := RelativeTime(s, parse, nowMs);
      && (diff < MsPerMinute ==> r == JustNow)
      && (MsPerMinute <= diff < 60 * MsPerMinute ==> r == NatToString(diff / MsPerMinute) + "분 전")
      && (60 * MsPerMinute <= diff < 24 * 60 * MsPerMinute ==> r == NatToString(diff / (60 * MsPerMinute)) + "시간 전")
      && (24 * 60 * MsPerMinute <= diff < 30 * 24 * 60 * MsPerMinute ==> r == NatToString(diff / (24 * 60 * MsPerMinute)) + "일 전")
      && (diff >= 30 * 24 * 60 * MsPerMinute ==> r == Helpers.DotDate(parse(s).value.local))
  {
    var diff := nowMs - parse(s).value.ms;
    FloorToHours(diff);
    FloorToDays(diff);
  }

  /** `formatNumber`: 만 for ten thousands, 천 for thousands, smaller numbers as they are. */
  function FormatNumber(n: int): string
  {
    if n >= 10000 then Helpers.ToFixed1(n, 10000) + "만"
    else if n >= 1000 then Helpers.ToFixed1(n, 1000) + "천"
    else IntToString(n)
  }

  /** The suffix tells the magnitude: 만 exactly from ten thousand, 천 exactly for the thousands. */
  lemma FormatNumberSuffix(n: int)
    ensures var r := FormatNumber(n);
      r != [] && (r[|r| - 1] == '만' <==> n >= 10000) && (r[|r| - 1] == '천' <==> 1000 <= n < 10000)
  {
    var r := FormatNumber(n);
    if n < 1000 {
      var m := if n < 0 then -n else n;
      assert r[|r| - 1] == NatToString(m)[|NatToString(m)| - 1];
      assert IsDigit(NatToString(m)[|NatToString(m)| - 1]);
    }
  }

  /** `Math.max(...activeUsers, 1)`. */
  function MaxUsers(users: seq<int>): (m: int)
    ensures m >= 1
    ensures forall k :: 0 <= k < |users| ==> users[k] <= m
    ensures m == 1 || m in users
  {
    if users == [] then 1
    else
      var rest := MaxUsers(users[..|users| - 1]);
      var last := users[|users| - 1];
      assert forall k :: 0 <= k < |users| - 1 ==> users[k] == users[..|users| - 1][k];
      if last > rest then last else rest
  }

  /** A bar's height in percent: the share of the busiest day, but never under 2. */
  function BarHeight(u: int, maxUsers: int): real
  {
    var height := if maxUsers > 0 then (u as real / maxUsers as real) * 100.0 else 0.0;
    if height >= 2.0 then height else 2.0
  }

  lemma ShareAtMostOne(u: real, m: real)
    requires 0.0 <= u <= m && m >= 1.0
    ensures 0.0 <= u / m <= 1.0
    ensures u == m ==> u / m == 1.0
  {
  }

  /** For the dashboard's counts the `maxUsers > 0` guard always holds and every bar is 2% to 100% tall. */
  lemma BarHeightsBounded(users: seq<int>, k: int)
    requires 0 <= k < |users| && users[k] >= 0
    ensures 2.0 <= BarHeight(users[k], MaxUsers(users)) <= 100.0
    ensures users[k] == MaxUsers(users) ==> BarHeight(users[k], MaxUsers(users)) == 100.0
  {
    var m := MaxUsers(users);
    var u := users[k];
    ShareAtMostOne(u as real, m as real);
    var q := u as real / m as real;
    assert BarHeight(u, m) == if q * 100.0 >= 2.0 then q * 100.0 else 2.0;
  }
}
