/**
 * The web client's display helpers (`app/frontend/src/utils/helpers.ts`): the colour of a
 * category badge, the "today / N days ago / date" label of a publication date, and the
 * compact rendering of a count. Calendar dates are values here; what `new Date` makes of
 * a string, in the browser's time zone, is passed in as `parse`.
 */
module Helpers {
  import opened Util

  // ---------------------------------------------------------------------------
  // Category colour

  const KnownCategories: seq<string> := ["IT 소식", "리뷰", "사용 방법"]
  const DefaultColor := "bg-gray-800"

  /** `getCategoryColor`. */
  function CategoryColor(category: string): (r: string)
    ensures r == DefaultColor <==> category !in KnownCategories
  {
    if category == "IT 소식" then "bg-blue-500"
    else if category == "리뷰" then "bg-orange-500"
    else if category == "사용 방법" then "bg-emerald-500"
    else DefaultColor
  }

  /** The three known categories get three different colours. */
  lemma CategoryColorsDistinct(a: string, b: string)
    requires a in KnownCategories && b in KnownCategories && a != b
    ensures CategoryColor(a) != CategoryColor(b)
  {
  }

  // ---------------------------------------------------------------------------
  // Calendar dates

  /** A local calendar date, as `getFullYear`, `getMonth() + 1` and `getDate` report it. */
  datatype CalDate = CalDate(year: int, month: int, day: int)

  predicate LeapYear(y: int)
  {
    y % 4 == 0 && (y % 100 != 0 || y % 400 == 0)
  }

  function DaysInMonth(y: int, m: int): (n: int)
    ensures 28 <= n <= 31
  {
    if m == 2 then (if LeapYear(y) then 29 else 28)
    else if m == 4 || m == 6 || m == 9 || m == 11 then 30
    else 31
  }

  predicate ValidDate(d: CalDate)
  {
    1 <= d.month <= 12 && 1 <= d.day <= DaysInMonth(d.year, d.month)
  }

  /** Days in the months of a year before month `m`. */
  function DaysBeforeMonth(y: int, m: int): int
    requires 1 <= m <= 13
    decreases m
  {
    if m == 1 then 0 else DaysBeforeMonth(y, m - 1) + DaysInMonth(y, m - 1)
  }

  /** Leap years in `[1, y)`, for the Gregorian calendar extended backwards; negative below year 1. */
  function LeapsBefore(y: int): int
  {
    (y - 1) / 4 - (y - 1) / 100 + (y - 1) / 400
  }

  /** Days from a fixed origin to local midnight of `d`: the number `d2 - d1` counts in days. */
  function DayNumber(d: CalDate): int
    requires 1 <= d.month <= 12
  {
    365 * d.year + LeapsBefore(d.year) + DaysBeforeMonth(d.year, d.month) + d.day
  }

  /** Moving from `y - 1` to `y` adds one multiple of 4, 100 or 400 exactly when `y` is one. */
  lemma DivStep4(y: int)
    ensures y / 4 == (y - 1) / 4 + (if y % 4 == 0 then 1 else 0)
  {
  }

  lemma DivStep100(y: int)
    ensures y / 100 == (y - 1) / 100 + (if y % 100 == 0 then 1 else 0)
  {
  }

  lemma DivStep400(y: int)
    ensures y / 400 == (y - 1) / 400 + (if y % 400 == 0 then 1 else 0)
  {
  }

  lemma LeapsStep(y: int)
    ensures LeapsBefore(y + 1) == LeapsBefore(y) + (if LeapYear(y) then 1 else 0)
  {
    DivStep4(y);
    DivStep100(y);
    DivStep400(y);
  }

  lemma YearLength(y: int)
    ensures DaysBeforeMonth(y, 13) == if LeapYear(y) then 366 else 365
  {
  }

  /** The day after a valid date: the next day of the month, the first of the next month, or New Year's Day. */
  function NextDay(d: CalDate): (r: CalDate)
    requires ValidDate(d)
    ensures ValidDate(r)
  {
    if d.day < DaysInMonth(d.year, d.month) then d.(day := d.day + 1)
    else if d.month < 12 then CalDate(d.year, d.month + 1, 1)
    else CalDate(d.year + 1, 1, 1)
  }

  /** Consecutive calendar days are one day number apart, so the difference counts calendar days. */
  lemma NextDayNumber(d: CalDate)
    requires ValidDate(d)
    ensures DayNumber(NextDay(d)) == DayNumber(d) + 1
  {
    if d.day == DaysInMonth(d.year, d.month) && d.month == 12 {
      LeapsStep(d.year);
      YearLength(d.year);
    }
  }

  // ---------------------------------------------------------------------------
  // Relative publication time

  const Today := "오늘"

  /** `YYYY.MM.DD` with the month and day zero-padded. */
  function DotDate(d: CalDate): string
  {
    IntToString(d.year) + "." + Pad2(if d.month < 0 then 0 else d.month) + "." + Pad2(if d.day < 0 then 0 else d.day)
  }

  /** The month and day of a `YYYY.MM.DD` label read back as written. */
  lemma DotDateReadsBack(d: CalDate)
    requires 1000 <= d.year < 10000 && 1 <= d.month <= 12 && 1 <= d.day <= 31
    ensures var r := DotDate(d); |r| == 10 && r[4] == '.' && r[7] == '.' && DigitsValue(r[5..7]) == d.month && DigitsValue(r[8..10]) == d.day
  {
    var r := DotDate(d);
    var y := d.year;
    assert |NatToString(y / 10 / 10 / 10)| == 1;
    assert |NatToString(y / 10 / 10)| == 2;
    assert |NatToString(y / 10)| == 3;
    assert |NatToString(y)| == 4;
    Pad2Value(d.month);
    Pad2Value(d.day);
    assert r[5..7] == Pad2(d.month);
    assert r[8..10] == Pad2(d.day);
  }

  /** `dateString.includes('T')`: an ISO timestamp is parsed as is, a dotted date with dashes. */
  function Normalised(s: string): string
  {
    if Contains(s, "T") then s else ReplaceAll(s, ".", "-")
  }

  /**
   * `getRelativeTime`: `now` is today's local date and `parse` what `new Date` makes of
   * a string (None for an invalid date).
   */
  function RelativeTime(s: string, parse: string -> Option<CalDate>, now: CalDate): (r: string)
    requires 1 <= now.month <= 12
    requires forall t :: parse(t).Some? ==> 1 <= parse(t).value.month <= 12
    ensures s == [] ==> r == []
    ensures s != [] && parse(Normalised(s)).None? ==> r == s
    ensures s != [] && parse(Normalised(s)).Some? ==>
      var diff := DayNumber(now) - DayNumber(parse(Normalised(s)).value);
      && (r == Today <==> diff == 0)
      && (1 <= diff < 7 ==> r == NatToString(diff) + "일 전")
      && (diff < 0 || diff >= 7 ==> r == DotDate(parse(Normalised(s)).value))
  {
    if s == [] then []
    else
      var parsed := parse(Normalised(s));
      if parsed.None? then s
      else
        var diff := DayNumber(now) - DayNumber(parsed.value);
        if diff == 0 then Today
        else if 0 < diff < 7 then NatToString(diff) + "일 전"
        else DotDate(parsed.value)
  }

  /** A date published yesterday is "1일 전", whatever the month or year boundary. */
  lemma YesterdayIsOneDayAgo(s: string, parse: string -> Option<CalDate>, now: CalDate)
    requires forall t :: parse(t).Some? ==> 1 <= parse(t).value.month <= 12
    requires s != [] && parse(Normalised(s)).Some? && ValidDate(parse(Normalised(s)).value)
    requires now == NextDay(parse(Normalised(s)).value)
    ensures RelativeTime(s, parse, now) == "1일 전"
  {
    NextDayNumber(parse(Normalised(s)).value);
  }

  // ---------------------------------------------------------------------------
  // Counts

  /**
   * The tenths of `n / unit`, rounded to nearest with halves up: the exact-decimal reading
   * of `(n / unit).toFixed(1)`.
   */
  function Tenths(n: nat, unit: nat): (t: nat)
    requires unit > 0
    ensures t * unit * 2 <= 20 * n + unit
    ensures 20 * n + unit < t * unit * 2 + 2 * unit
  {
    (20 * n + unit) / (2 * unit)
  }

  /** `(n / unit).toFixed(1)`: the whole part, a point and the tenths digit. */
  function ToFixed1(n: nat, unit: nat): (r: string)
    requires unit > 0
  {
    var t := Tenths(n, unit);
    NatToString(t / 10) + "." + [DigitChar(t % 10)]
  }

  /** The rendering ends in its tenths digit, after a point. */
  lemma ToFixed1Shape(n: nat, unit: nat)
    requires unit > 0
    ensures var r := ToFixed1(n, unit); |r| >= 3 && r[|r| - 2] == '.' && IsDigit(r[|r| - 1])
  {
  }

  /** `formatCount`: "0" for a missing count, thousands as `x.yk`, smaller counts as they are. */
  function FormatCount(count: Option<int>): (r: string)
  {
    if count.None? then "0"
    else if count.value >= 1000 then ToFixed1(count.value, 1000) + "k"
    else IntToString(count.value)
  }

  /** The `k` suffix marks exactly the counts of a thousand or more, and a small count reads back as itself. */
  lemma FormatCountCases(count: Option<int>)
    ensures var r := FormatCount(count);
      r != [] && (r[|r| - 1] == 'k' <==> count.Some? && count.value >= 1000)
    ensures count.Some? && 0 <= count.value < 1000 ==> DigitsValue(FormatCount(count)) == count.value
  {
    if count.Some? && count.value < 1000 {
      var n := count.value;
      if n >= 0 {
        NatToStringValue(n);
        assert IsDigit(NatToString(n)[|NatToString(n)| - 1]);
      } else {
        assert IsDigit(NatToString(-n)[|NatToString(-n)| - 1]);
      }
    }
  }
}
