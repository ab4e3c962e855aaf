/**
 * The web client's card deck: the index of the front card, what a swipe does to it and
 * which callbacks it fires, which cards are drawn, the screen shown past the last card,
 * and how the end of a drag is read as a swipe.
 */
module SwipeDeck {
  import opened Util

  const PrevCards := 1
  const NextCards := 2
  const DragThreshold: real := 60.0
  const VelocityThreshold: real := 400.0

  datatype Direction = Left | Right

  /** What one swipe fired: `onReachEnd`, `onLoadMore`, and `onIndexChange` with the new index. */
  datatype Fired = Fired(reachEnd: bool, loadMore: bool, indexChange: Option<int>)

  /** Where `slice` stops for an end argument `b`: a negative `b` counts back from the length. */
  function SliceEnd(len: nat, b: int): (e: nat)
    ensures e <= len
    ensures b >= 0 ==> e == (if b < len then b else len)
    ensures b < 0 ==> e == (if len + b > 0 then len + b else 0)
  {
    if b < 0 then (if len + b > 0 then len + b else 0) else if b < len then b else len
  }

  /** `Array.prototype.slice(a, b)` for `0 <= a`: the elements from `a` up to the end `b` names, or none. */
  function Slice<T>(s: seq<T>, a: nat, b: int): (r: seq<T>)
    ensures |r| == if a < SliceEnd(|s|, b) then SliceEnd(|s|, b) - a else 0
    ensures forall k :: 0 <= k < |r| ==> r[k] == s[a + k]
  {
    var e := SliceEnd(|s|, b);
    if a >= e then [] else s[a..e]
  }

  function Max(a: int, b: int): int { if a >= b then a else b }
  function Min(a: int, b: int): int { if a <= b then a else b }

  /** The cards drawn: one before the front card and two after it. */
  function RenderWindow<T>(items: seq<T>, i: int): seq<T>
  {
    Slice(items, Max(0, i - PrevCards), Min(|items|, i + NextCards + 1))
  }

  /**
   * At most four cards are drawn, and the front card is among them at position `i - start`.
   * The deck's index is never negative (`Deck.InRange`).
   */
  lemma RenderWindowShape<T>(items: seq<T>, i: int)
    requires i >= 0
    ensures |RenderWindow(items, i)| <= 4
    ensures 0 <= i < |items| ==> (var start := Max(0, i - PrevCards);
      i - start < |RenderWindow(items, i)| && RenderWindow(items, i)[i - start] == items[i])
  {
  }

  /** What the deck shows. */
  datatype Screen = BlurredEnd | LoginEnd | AllSeen | Cards(first: nat, count: nat)

  /**
   * Past the last card of a non-empty deck: the blurred cards with the login prompt when
   * there is an `onReachEnd` and restricted items, the prompt alone with only `onReachEnd`,
   * and otherwise the "seen everything" screen. Otherwise the window of cards.
   */
  function ScreenFor<T>(items: seq<T>, i: int, hasReachEnd: bool, restricted: nat): (r: Screen)
    ensures (r.BlurredEnd? || r.LoginEnd? || r.AllSeen?) <==> i >= |items| && |items| > 0
  {
    if i >= |items| && |items| > 0 then
      if hasReachEnd && restricted > 0 then BlurredEnd
      else if hasReachEnd then LoginEnd
      else AllSeen
    else Cards(Max(0, i - PrevCards), |RenderWindow(items, i)|)
  }

  class Deck<T> {
    var items: seq<T>
    var currentIndex: int

    ghost predicate InRange()
      reads this
    {
      0 <= currentIndex <= |items|
    }

    /** `useState(startIndex)`, and the effect that resets to a new `startIndex`. */
    constructor (items: seq<T>, startIndex: int)
      ensures this.items == items && currentIndex == startIndex
    {
      this.items := items;
      currentIndex := startIndex;
    }

    method Reset(startIndex: int)
      modifies this
      ensures currentIndex == startIndex && items == old(items)
    {
      currentIndex := startIndex;
    }

    /**
     * `handleSwipe`. Left moves on while there is a card in front, firing `onReachEnd` from
     * the last card and `onLoadMore` from the last two; right moves back unless on the first.
     */
    method Swipe(direction: Direction, hasReachEnd: bool, hasLoadMore: bool) returns (fired: Fired)
      modifies this
      ensures items == old(items)
      ensures direction == Left ==> (
        currentIndex == (if old(currentIndex) < |items| then old(currentIndex) + 1 else old(currentIndex))
        && (fired.reachEnd <==> hasReachEnd && old(currentIndex) == |items| - 1)
        && (fired.loadMore <==> hasLoadMore && old(currentIndex) < |items| && old(currentIndex) >= |items| - 2))
      ensures direction == Right ==> (
        currentIndex == (if old(currentIndex) > 0 then old(currentIndex) - 1 else old(currentIndex))
        && !fired.reachEnd && !fired.loadMore)
      ensures fired.indexChange == if currentIndex != old(currentIndex) then Some(currentIndex) else None
      ensures old(InRange()) ==> InRange()
    {
      fired := Fired(false, false, None);
      if direction == Left {
        if currentIndex < |items| {
          var reachEnd := currentIndex == |items| - 1 && hasReachEnd;
          var loadMore := currentIndex >= |items| - 2 && hasLoadMore;
          currentIndex := currentIndex + 1;
          fired := Fired(reachEnd, loadMore, Some(currentIndex));
        }
      } else {
        if currentIndex > 0 {
          currentIndex := currentIndex - 1;
          fired := Fired(false, false, Some(currentIndex));
        }
      }
    }

    /** "처음부터 다시 보기" on the last screen. */
    method Restart() returns (fired: Fired)
      modifies this
      ensures currentIndex == 0 && items == old(items) && fired == Fired(false, false, Some(0))
    {
      currentIndex := 0;
      fired := Fired(false, false, Some(0));
    }
  }

  /** How `handleDragEnd` reads a drag: left first, and right never on the first card. */
  function DragEnd(offsetX: real, velocityX: real, isFirst: bool): (r: Option<Direction>)
    ensures r == Some(Left) <==> offsetX < -DragThreshold || velocityX < -VelocityThreshold
    ensures r == Some(Right) ==> !isFirst && (offsetX > DragThreshold || velocityX > VelocityThreshold)
    ensures r.None? ==> isFirst || (-DragThreshold <= offsetX <= DragThreshold && -VelocityThreshold <= velocityX <= VelocityThreshold)
  {
    if offsetX < -DragThreshold || velocityX < -VelocityThreshold then Some(Left)
    else if (offsetX > DragThreshold || velocityX > VelocityThreshold) && !isFirst then Some(Right)
    else None
  }
}
