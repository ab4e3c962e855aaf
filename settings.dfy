/**
 * The web client's notification settings page: the stored settings and the requests that
 * save them, the twelve-hour time picker and the time shown on the page. The saved time is
 * the "HH:MM" text the scheduler compares with its own clock.
 */
module Settings {
  import opened Util
  import PushScheduler

  /** `DAYS`, Monday first, as the page lists them. */
  const Days: seq<string> := ["월", "화", "수", "목", "금", "토", "일"]
  const DefaultDays: seq<string> := ["월", "화", "수", "목", "금"]
  const DefaultTime := "07:00"

  // ---------------------------------------------------------------------------
  // Reading "HH:MM"

  /** `s.split(':')`. */
  function SplitColon(s: string): (r: seq<string>)
    ensures |r| >= 1
    ensures ':' !in s ==> r == [s]
    decreases |s|
  {
    match IndexOf(s, ':')
    case None => [s]
    case Some(i) => [s[..i]] + SplitColon(s[i + 1..])
  }

  /** `Number(x)` on the text of a stored time: decimal digits, or nothing, which is 0; anything else is NaN (`None`). */
  function JsNumber(s: string): (r: Option<nat>)
    ensures s == [] ==> r == Some(0)
  {
    if forall k :: 0 <= k < |s| ==> IsDigit(s[k]) then Some(DigitsValue(s)) else None
  }

  /** `const [h, m] = s.split(':').map(Number)`; a missing part is `undefined`, and `Number(undefined)` is NaN. */
  function TimeNumbers(s: string): (Option<nat>, Option<nat>)
  {
    var parts := SplitColon(s);
    (JsNumber(parts[0]), if |parts| > 1 then JsNumber(parts[1]) else None)
  }

  /** The scheduler's text of a time of day reads back as its hour and minute. */
  lemma TimeNumbersOfClock(h: nat, m: nat)
    requires h < 24 && m < 60
    ensures TimeNumbers(PushScheduler.ClockText(h, m)) == (Some(h), Some(m))
  {
    var s := PushScheduler.ClockText(h, m);
    PushScheduler.ClockTextShape(h, m);
    assert s[..2] == Pad2(h) && s[3..] == Pad2(m);
    assert IndexOf(s, ':') == Some(2) by {
      assert s[0] != ':' && s[1] != ':' && s[2] == ':';
    }
    assert ':' !in s[3..] by {
      assert forall k :: 0 <= k < 2 ==> s[3..][k] == s[3 + k];
    }
    assert SplitColon(s) == [s[..2], s[3..]];
    Pad2Value(h);
    Pad2Value(m);
  }

  // ---------------------------------------------------------------------------
  // The time picker

  datatype Half = Am | Pm

  function HalfLabel(half: Half): string
  {
    match half
    case Am => "오전"
    case Pm => "오후"
  }

  /** What the picker shows for a 24-hour hour when it opens. */
  function PickerTime(h: nat): (Half, nat)
  {
    if h == 0 then (Am, 12)
    else if h == 12 then (Pm, 12)
    else if h > 12 then (Pm, h - 12)
    else (Am, h)
  }

  /** The 24-hour hour `handleSave` makes of the picker's half and hour. */
  function Hour24(half: Half, hour: nat): nat
  {
    if half == Pm && hour != 12 then hour + 12
    else if half == Am && hour == 12 then 0
    else hour
  }

  /** Opening then saving gives back every hour of the day. */
  lemma PickerThenSave(h: nat)
    requires h < 24
    ensures 1 <= PickerTime(h).1 <= 12
    ensures Hour24(PickerTime(h).0, PickerTime(h).1) == h
  {
  }

  /** ... and every choice the picker offers is the picker's view of the hour it saves. */
  lemma SaveThenPicker(half: Half, hour: nat)
    requires 1 <= hour <= 12
    ensures Hour24(half, hour) < 24
    ensures PickerTime(Hour24(half, hour)) == (half, hour)
  {
  }

  /** `Array.from({ length: n }, (_, i) => i + lo)`. */
  function Range(lo: nat, n: nat): (r: seq<nat>)
    ensures |r| == n && forall i :: 0 <= i < n ==> r[i] == lo + i
  {
    if n == 0 then [] else Range(lo, n - 1) + [lo + n - 1]
  }

  /** The hour column offers 1 to 12 and the minute column 0 to 59. */
  lemma Choices()
    ensures forall h :: h in Range(1, 12) <==> 1 <= h <= 12
    ensures forall m :: m in Range(0, 60) <==> 0 <= m < 60
  {
    var hs := Range(1, 12);
    var ms := Range(0, 60);
    forall h | 1 <= h <= 12
      ensures h in hs
    {
      assert hs[h - 1] == h;
    }
    forall m | 0 <= m < 60
      ensures m in ms
    {
      assert ms[m] == m;
    }
  }

  class TimePicker {
    var half: Half
    var hour: nat
    var minute: nat

    constructor ()
      ensures half == Am && hour == 7 && minute == 0
    {
      half, hour, minute := Am, 7, 0;
    }

    /** The effect that runs when the sheet opens, on the numbers read from `initialTime`. */
    method Open(h: nat, m: nat)
      modifies this
      ensures (half, hour) == PickerTime(h) && minute == m
    {
      if h == 0 {
        half, hour := Am, 12;
      } else if h == 12 {
        half, hour := Pm, 12;
      } else if h > 12 {
        half, hour := Pm, h - 12;
      } else {
        half, hour := Am, h;
      }
      minute := m;
    }

    /** A click on a row of one column. */
    method ChooseHalf(p: Half)
      modifies this
      ensures half == p && hour == old(hour) && minute == old(minute)
    {
      half := p;
    }

    method ChooseHour(h: nat)
      requires h in Range(1, 12)
      modifies this
      ensures hour == h && half == old(half) && minute == old(minute)
    {
      hour := h;
    }

    method ChooseMinute(m: nat)
      requires m in Range(0, 60)
      modifies this
      ensures minute == m && half == old(half) && hour == old(hour)
    {
      minute := m;
    }

    /** `handleSave`: the zero-padded "HH:MM" of the chosen time, in the scheduler's format. */
    method Save() returns (time: string)
      ensures time == PushScheduler.ClockText(Hour24(half, hour), minute)
    {
      var h := hour;
      if half == Pm && h != 12 {
        h := h + 12;
      }
      if half == Am && h == 12 {
        h := 0;
      }
      time := Pad2(h) + ":" + Pad2(minute);
    }
  }

  /** A stored time opened in the picker and saved unchanged is saved as the same text. */
  lemma StoredTimeRoundTrip(h: nat, m: nat)
    requires h < 24 && m < 60
    ensures TimeNumbers(PushScheduler.ClockText(h, m)) == (Some(h), Some(m))
    ensures PushScheduler.ClockText(Hour24(PickerTime(h).0, PickerTime(h).1), m) == PushScheduler.ClockText(h, m)
  {
    TimeNumbersOfClock(h, m);
    PickerThenSave(h);
  }

  /** Any time chosen from the columns is saved as a time of day. */
  lemma ChosenTimeIsClock(half: Half, hour: nat, minute: nat)
    requires hour in Range(1, 12) && minute in Range(0, 60)
    ensures Hour24(half, hour) < 24 && minute < 60
    ensures |PushScheduler.ClockText(Hour24(half, hour), minute)| == 5
  {
    Choices();
    PushScheduler.ClockTextShape(Hour24(half, hour), minute);
  }

  // ---------------------------------------------------------------------------
  // The time shown on the page

  /** `formatDisplayTime` on the numbers read from the stored time. */
  function DisplayTime(h: nat, m: nat): string
  {
    var half := if h >= 12 then Pm else Am;
    var hour := if h > 12 then h - 12 else h;
    HalfLabel(half) + " " + NatToString(if hour == 0 then 12 else hour) + ":" + Pad2(m)
  }

  /** The page shows the half and the hour the picker opens on, for every hour. */
  lemma DisplayAgreesWithPicker(h: nat, m: nat)
    ensures DisplayTime(h, m) == HalfLabel(PickerTime(h).0) + " " + NatToString(PickerTime(h).1) + ":" + Pad2(m)
  {
  }

  // ---------------------------------------------------------------------------
  // The page

  /** A settings row as `GET /settings` returns it. */
  datatype StoredSettings = StoredSettings(pushEnabled: bool, time: Option<string>, days: Option<seq<string>>)

  /** The body of one `settingsAPI.update` call. */
  datatype Update = PushUpdate(enabled: bool) | TimeUpdate(time: string) | DaysUpdate(days: seq<string>)

  /** `selectedDays.filter(d => d !== day)`. */
  function Without(days: seq<string>, day: string): (r: seq<string>)
    ensures forall d :: d in r <==> d in days && d != day
    ensures |r| <= |days|
  {
    if days == [] then []
    else Without(days[..|days| - 1], day) + (if days[|days| - 1] == day then [] else [days[|days| - 1]])
  }

  /** Removed when present, appended when absent. */
  function Toggled(days: seq<string>, day: string): (r: seq<string>)
  {
    if day in days then Without(days, day) else days + [day]
  }

  /** A toggle flips the one day and leaves every other day as it was. */
  lemma ToggledFlips(days: seq<string>, day: string)
    ensures day in Toggled(days, day) <==> day !in days
    ensures forall d :: d != day ==> (d in Toggled(days, day) <==> d in days)
  {
  }

  class SettingsPage {
    var loggedIn: bool
    var pushEnabled: bool
    var time: string
    var selectedDays: seq<string>

    constructor (loggedIn: bool)
      ensures this.loggedIn == loggedIn && !pushEnabled && time == DefaultTime && selectedDays == DefaultDays
    {
      this.loggedIn := loggedIn;
      pushEnabled := false;
      time := DefaultTime;
      selectedDays := DefaultDays;
    }

    /** The load effect; `stored` is `None` unless the request succeeded with settings. An empty time falls back to the default, an empty day list does not. */
    method Load(stored: Option<StoredSettings>)
      modifies this
      ensures !old(loggedIn) || stored.None? ==> (pushEnabled == old(pushEnabled) && time == old(time) && selectedDays == old(selectedDays))
      ensures old(loggedIn) && stored.Some? ==> (pushEnabled == stored.value.pushEnabled
        && time == (match stored.value.time case Some(t) => if t == [] then DefaultTime else t case None => DefaultTime)
        && selectedDays == OrElse(stored.value.days, DefaultDays))
      ensures loggedIn == old(loggedIn)
    {
      if !loggedIn || stored.None? {
        return;
      }
      var s := stored.value;
      pushEnabled := s.pushEnabled;
      time := match s.time case Some(t) => if t == [] then DefaultTime else t case None => DefaultTime;
      selectedDays := OrElse(s.days, DefaultDays);
    }

    /** `saveSettings`: nothing is sent for a guest. */
    function Send(u: Update): (r: Option<Update>)
      reads this
      ensures r.Some? <==> loggedIn
    {
      if loggedIn then Some(u) else None
    }

    method TogglePush(enabled: bool) returns (sent: Option<Update>)
      modifies this
      ensures pushEnabled == enabled && sent == old(Send(PushUpdate(enabled)))
      ensures loggedIn == old(loggedIn) && time == old(time) && selectedDays == old(selectedDays)
    {
      pushEnabled := enabled;
      sent := Send(PushUpdate(enabled));
    }

    method SaveTime(newTime: string) returns (sent: Option<Update>)
      modifies this
      ensures time == newTime && sent == old(Send(TimeUpdate(newTime)))
      ensures loggedIn == old(loggedIn) && pushEnabled == old(pushEnabled) && selectedDays == old(selectedDays)
    {
      time := newTime;
      sent := Send(TimeUpdate(newTime));
    }

    /** `toggleDay`: nothing happens while notifications are off. */
    method ToggleDay(day: string) returns (sent: Option<Update>)
      modifies this
      ensures !old(pushEnabled) ==> selectedDays == old(selectedDays) && sent == None
      ensures old(pushEnabled) ==> (selectedDays == Toggled(old(selectedDays), day)
        && sent == old(Send(DaysUpdate(Toggled(selectedDays, day)))))
      ensures loggedIn == old(loggedIn) && pushEnabled == old(pushEnabled) && time == old(time)
    {
      if !pushEnabled {
        return None;
      }
      var newDays := if day in selectedDays then Without(selectedDays, day) else selectedDays + [day];
      selectedDays := newDays;
      sent := Send(DaysUpdate(newDays));
    }
  }
}
