/**
 * The earlier single-file web client (`src/App.tsx`): its count format, the card deck's
 * drag end, the push-settings screen with its 12-hour picker, likes and bookmarks with the
 * first-like hint, and the back button over pages and sub-pages.
 */
module LegacyApp {
  import opened Util
  import Helpers
  import Settings

  /** `formatCount`: thousands as `x.yk` without a trailing `.0`, smaller counts as they are. */
  function FormatCount(n: int): string
  {
    if n >= 1000 then
      var t := Helpers.Tenths(n, 1000);
      NatToString(t / 10) + (if t % 10 == 0 then "" else "." + [DigitChar(t % 10)]) + "k"
    else IntToString(n)
  }

  /** The `k` marks exactly the counts of a thousand or more. */
  lemma FormatCountSuffix(n: int)
    ensures var r := FormatCount(n); r != [] && (r[|r| - 1] == 'k' <==> n >= 1000)
  {
    if n < 1000 {
      var m := if n < 0 then -n else n;
      assert IsDigit(NatToString(m)[|NatToString(m)| - 1]);
    }
  }

  /** Below a thousand the count reads back as written. */
  lemma FormatCountSmall(n: int)
    requires 0 <= n < 1000
    ensures DigitsValue(FormatCount(n)) == n
  {
    NatToStringValue(n);
  }

  /** Whole thousands lose the `.0`. */
  lemma FormatCountWholeThousands(n: int)
    requires n >= 1000 && n % 1000 == 0
    ensures FormatCount(n) == NatToString(n / 1000) + "k"
  {
    var t := Helpers.Tenths(n, 1000);
    var q := n / 1000;
    assert n == 1000 * q;
    assert t * 2000 <= 20000 * q + 1000 < t * 2000 + 2000;
    assert t == 10 * q;
    assert t % 10 == 0 && t / 10 == q;
  }

  // ---------------------------------------------------------------------------
  // The card deck's drag

  const SwipeThreshold := 50
  const TapSlop := 10

  /** What `handleEnd` started. */
  datatype DragEnd = NotDragging | Tap | ExitLeft | ExitRight | SnapBack

  /**
   * The deck's index and its two-phase swipe: `handleEnd` starts the exit animation, and
   * the timer it sets moves the index. `count` is the length of the deck's items.
   */
  class Deck {
    var count: int
    var currentIndex: int
    var isDragging: bool
    var isAnimating: bool
    /** -1 while the card leaves to the left, 1 to the right, 0 otherwise. */
    var exitDir: int

    /** The index stays on a card (or at 0 for an empty deck), and an exit in progress has a card to go to. */
    ghost predicate Valid()
      reads this
    {
      && 0 <= currentIndex && (currentIndex < count || currentIndex == 0)
      && (isAnimating <==> exitDir != 0)
      && (exitDir == -1 ==> currentIndex < count - 1)
      && (exitDir == 1 ==> currentIndex > 0)
      && -1 <= exitDir <= 1
    }

    constructor (count: nat)
      ensures Valid() && this.count == count && currentIndex == 0 && !isDragging && !isAnimating
    {
      this.count := count;
      currentIndex := 0;
      isDragging, isAnimating, exitDir := false, false, 0;
    }

    /** `handleStart`: a drag begins unless a card is still leaving. */
    method Start()
      requires Valid()
      modifies this
      ensures Valid()
      ensures isDragging == (old(isDragging) || !isAnimating)
      ensures currentIndex == old(currentIndex) && isAnimating == old(isAnimating) && exitDir == old(exitDir) && count == old(count)
    {
      if !isAnimating {
        isDragging := true;
      }
    }

    /**
     * `handleEnd` with the horizontal drag `dragX`; `undecided` is a drag whose direction
     * was never settled. Past 50 pixels to the left the card leaves when there is a next
     * one, past 50 to the right when there is a previous one.
     */
    method End(dragX: int, undecided: bool) returns (r: DragEnd)
      requires Valid()
      modifies this
      ensures Valid()
      ensures r == (if !old(isDragging) || old(isAnimating) then NotDragging
                    else if -TapSlop < dragX < TapSlop && undecided then Tap
                    else if dragX < -SwipeThreshold && old(currentIndex) < count - 1 then ExitLeft
                    else if dragX > SwipeThreshold && old(currentIndex) > 0 then ExitRight
                    else SnapBack)
      ensures r != NotDragging ==> !isDragging
      ensures r == NotDragging ==> isDragging == old(isDragging)
      ensures exitDir == (if r == ExitLeft then -1 else if r == ExitRight then 1 else old(exitDir))
      ensures currentIndex == old(currentIndex) && count == old(count)
    {
      if !isDragging || isAnimating {
        return NotDragging;
      }
      isDragging := false;
      if -TapSlop < dragX < TapSlop && undecided {
        return Tap;
      }
      if dragX < -SwipeThreshold && currentIndex < count - 1 {
        exitDir, isAnimating := -1, true;
        return ExitLeft;
      }
      if dragX > SwipeThreshold && currentIndex > 0 {
        exitDir, isAnimating := 1, true;
        return ExitRight;
      }
      r := SnapBack;
    }

    /** The exit timer: the index moves one card in the exit's direction and the animation ends. */
    method ExitDone()
      requires Valid() && isAnimating
      modifies this
      ensures Valid()
      ensures currentIndex == old(currentIndex) - old(exitDir)
      ensures !isAnimating && exitDir == 0 && count == old(count) && isDragging == old(isDragging)
    {
      currentIndex := currentIndex - exitDir;
      exitDir, isAnimating := 0, false;
    }
  }

  // ---------------------------------------------------------------------------
  // Push settings

  const Weekdays: set<string> := {"월", "화", "수", "목", "금"}
  const MsgPickADay := "최소 1개 요일을 선택해주세요."

  /** `getScheduleTime24`'s hour, from the picker's "오전"/"오후" label and its 1 to 12. */
  function ScheduleHour(ampm: string, hour: int): int
  {
    if ampm == "오후" && hour != 12 then hour + 12
    else if ampm == "오전" && hour == 12 then 0
    else hour
  }

  /** This screen and the current client's settings read the picker the same way. */
  lemma ScheduleHourAgrees(half: Settings.Half, hour: nat)
    ensures ScheduleHour(Settings.HalfLabel(half), hour) == Settings.Hour24(half, hour)
  {
  }

  /** Every picker setting denotes an hour of the day, and the twelve hours of each half are told apart. */
  lemma ScheduleHourRange(ampm: string, hour: int, hour': int)
    requires ampm == "오전" || ampm == "오후"
    requires 1 <= hour <= 12 && 1 <= hour' <= 12
    ensures 0 <= ScheduleHour(ampm, hour) < 24
    ensures ScheduleHour(ampm, hour) == ScheduleHour(ampm, hour') ==> hour == hour'
    ensures ScheduleHour("오전", hour) != ScheduleHour("오후", hour')
  {
  }

  datatype Schedule = Schedule(enabled: bool, days: set<string>, hour: int, minute: int)

  class PushSettings {
    var pushOn: bool
    var days: set<string>
    var ampm: string
    var hour: int
    var minute: int
    var saved: bool

    /** Off, on weekdays, at 오전 7:10, not saved. */
    constructor ()
      ensures !pushOn && days == Weekdays && ampm == "오전" && hour == 7 && minute == 10 && !saved
    {
      pushOn, days := false, Weekdays;
      ampm, hour, minute := "오전", 7, 10;
      saved := false;
    }

    /** `toggleDay`: that one day flips and the screen is no longer saved. */
    method ToggleDay(d: string)
      modifies this
      ensures d in days <==> d !in old(days)
      ensures forall e :: e != d ==> (e in days <==> e in old(days))
      ensures !saved && pushOn == old(pushOn) && ampm == old(ampm) && hour == old(hour) && minute == old(minute)
    {
      days := if d in days then days - {d} else days + {d};
      saved := false;
    }

    /** `handleToggle`. */
    method Toggle()
      modifies this
      ensures pushOn == !old(pushOn) && !saved && days == old(days)
      ensures ampm == old(ampm) && hour == old(hour) && minute == old(minute)
    {
      pushOn := !pushOn;
      saved := false;
    }

    /** `handleSave`: without a day only the alert; otherwise the schedule in 24-hour time, and saved. */
    method Save() returns (alert: Option<string>, schedule: Option<Schedule>)
      modifies this
      ensures old(days) == {} ==> alert == Some(MsgPickADay) && schedule.None? && saved == old(saved)
      ensures old(days) != {} ==> (alert.None? && saved
        && schedule == Some(Schedule(pushOn, days, ScheduleHour(ampm, hour), minute)))
      ensures pushOn == old(pushOn) && days == old(days) && ampm == old(ampm) && hour == old(hour) && minute == old(minute)
    {
      if days == {} {
        return Some(MsgPickADay), None;
      }
      schedule := Some(Schedule(pushOn, days, ScheduleHour(ampm, hour), minute));
      alert := None;
      saved := true;
    }
  }

  // ---------------------------------------------------------------------------
  // Likes, bookmarks and navigation

  datatype Page = HomePage | DetailPage | LikesPage | BookmarksPage | MyPage

  const FirstLikeHint := "💙 하트를 누르면 '오늘5분' AI가 당신의 관심사를 학습해 딱 맞는 뉴스를 찾아줍니다."

  class Client {
    var page: Page
    var tab: int
    var subPage: Option<string>
    var detailArticle: Option<int>
    var likedIds: set<int>
    var bookmarkedIds: set<int>
    var firstLike: bool
    /** How many times the first-like hint has been shown. */
    ghost var hintsShown: nat

    /** The hint has been shown once exactly when it is no longer pending. */
    ghost predicate Valid()
      reads this
    {
      hintsShown == if firstLike then 0 else 1
    }

    constructor ()
      ensures Valid() && page == HomePage && tab == 0 && subPage.None? && detailArticle.None?
      ensures likedIds == {} && bookmarkedIds == {} && firstLike
    {
      page, tab, subPage, detailArticle := HomePage, 0, None, None;
      likedIds, bookmarkedIds := {}, {};
      firstLike := true;
      hintsShown := 0;
    }

    /** `toggleLike`: that one article flips; the first like ever also shows the hint. */
    method ToggleLike(id: int) returns (toast: Option<string>)
      requires Valid()
      modifies this
      ensures Valid() && hintsShown <= 1
      ensures id in likedIds <==> id !in old(likedIds)
      ensures forall e :: e != id ==> (e in likedIds <==> e in old(likedIds))
      ensures toast == (if id !in old(likedIds) && old(firstLike) then Some(FirstLikeHint) else None)
      ensures firstLike == (old(firstLike) && toast.None?)
      ensures bookmarkedIds == old(bookmarkedIds) && page == old(page) && tab == old(tab)
      ensures subPage == old(subPage) && detailArticle == old(detailArticle)
    {
      toast := None;
      if id in likedIds {
        likedIds := likedIds - {id};
      } else {
        likedIds := likedIds + {id};
        if firstLike {
          toast := Some(FirstLikeHint);
          firstLike := false;
          hintsShown := hintsShown + 1;
        }
      }
    }

    /** `toggleBookmark`: that one article flips. */
    method ToggleBookmark(id: int)
      requires Valid()
      modifies this
      ensures Valid() && hintsShown == old(hintsShown)
      ensures id in bookmarkedIds <==> id !in old(bookmarkedIds)
      ensures forall e :: e != id ==> (e in bookmarkedIds <==> e in old(bookmarkedIds))
      ensures likedIds == old(likedIds) && firstLike == old(firstLike) && page == old(page)
      ensures tab == old(tab) && subPage == old(subPage) && detailArticle == old(detailArticle)
    {
      bookmarkedIds := if id in bookmarkedIds then bookmarkedIds - {id} else bookmarkedIds + {id};
    }

    /** `openDetail`. */
    method OpenDetail(id: int)
      requires Valid()
      modifies this
      ensures Valid() && hintsShown == old(hintsShown)
      ensures page == DetailPage && detailArticle == Some(id)
      ensures tab == old(tab) && subPage == old(subPage) && likedIds == old(likedIds)
      ensures bookmarkedIds == old(bookmarkedIds) && firstLike == old(firstLike)
    {
      detailArticle := Some(id);
      page := DetailPage;
    }

    /** `goBack`: a sub-page closes first; else the detail page returns home; else home on the first tab. */
    method GoBack()
      requires Valid()
      modifies this
      ensures Valid() && hintsShown == old(hintsShown)
      ensures subPage.None?
      ensures old(subPage).Some? ==> page == old(page) && tab == old(tab) && detailArticle == old(detailArticle)
      ensures old(subPage).None? && old(page) == DetailPage ==> page == HomePage && detailArticle.None? && tab == old(tab)
      ensures old(subPage).None? && old(page) != DetailPage ==> page == HomePage && tab == 0 && detailArticle == old(detailArticle)
      ensures likedIds == old(likedIds) && bookmarkedIds == old(bookmarkedIds) && firstLike == old(firstLike)
    {
      if subPage.Some? {
        subPage := None;
        return;
      }
      if page == DetailPage {
        page := HomePage;
        detailArticle := None;
        return;
      }
      page := HomePage;
      tab := 0;
    }
  }
}
