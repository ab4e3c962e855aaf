// The daily batch job: crawled news and YouTube items are filtered to a time
// window by a lenient Korean date parser, scored against the fused trend
// weights, sorted by score and bucketed into four report categories.

module RunBatch {
  import opened Util
  import opened Briefing

  // ---------------------------------------------------------------------------
  // Naive datetimes

  /** Seconds since 0001-01-01 00:00 (`datetime.min`); the last second of 9999-12-31 is `datetime.max`. */
  const DatetimeMax := 315537897599

  type Datetime = t: int | 0 <= t <= DatetimeMax

  const DatetimeMin: Datetime := 0

  const Minute := 60
  const Hour := 3600
  const Day := 86400

  function HourOf(d: Datetime): int
  {
    (d % Day) / Hour
  }

  /** The `strptime`/`fromisoformat` calls the parser makes, each of which may raise. */
  datatype Parsers = Parsers(dotted: string -> Option<Datetime>, plain: string -> Option<Datetime>, iso: string -> Option<Datetime>)

  // ---------------------------------------------------------------------------
  // parse_korean_datetime

  /** Length of the leading run of ASCII digits. */
  function DigitRun(s: string): (k: nat)
    ensures k <= |s|
    ensures forall i :: 0 <= i < k ==> IsDigit(s[i])
    ensures k < |s| ==> !IsDigit(s[k])
  {
    if s == [] || !IsDigit(s[0]) then 0 else 1 + DigitRun(s[1..])
  }

  /** `int(re.search(r'(\d+)', s).group(1))`, None when `s` holds no digit. */
  function FirstNumber(s: string): (r: Option<nat>)
    ensures r.None? <==> forall i :: 0 <= i < |s| ==> !IsDigit(s[i])
    decreases |s|
  {
    if s == [] then None
    else if IsDigit(s[0]) then Some(DigitsValue(s[..DigitRun(s)]))
    else
      var r := FirstNumber(s[1..]);
      assert forall i :: 1 <= i < |s| ==> s[i] == s[1..][i - 1];
      r
  }

  /** `re.sub(r'(오전|오후)\s*', '', s)`. */
  function RemoveMeridiem(s: string): (r: string)
    ensures |r| <= |s|
    ensures IsSubseq(r, s)
    ensures !Contains(s, "오전") && !Contains(s, "오후") ==> r == s
    decreases |s|
  {
    if |s| >= 2 && (s[..2] == "오전" || s[..2] == "오후") then
      var r := RemoveMeridiem(LStrip(s[2..]));
      SubseqSkipMeridiem(s, r);
      r
    else if s == [] then []
    else
      SubseqCons(RemoveMeridiem(s[1..]), s);
      [s[0]] + RemoveMeridiem(s[1..])
  }

  /** Dropping the two meridiem characters and the blanks after them keeps a subsequence. */
  lemma SubseqSkipMeridiem(s: string, r: string)
    requires |s| >= 2 && IsSubseq(r, LStrip(s[2..]))
    ensures IsSubseq(r, s)
  {
    var t := LStrip(s[2..]);
    LStripShape(s[2..]);
    assert s[..|s| - |t|] + t == s;
    SubseqDropPrefix(r, s[..|s| - |t|], t);
  }

  /** `s.rstrip('.')`. */
  function RStripDots(s: string): (r: string)
    ensures r <= s
    ensures r == [] || r[|r| - 1] != '.'
    ensures forall k :: |r| <= k < |s| ==> s[k] == '.'
  {
    if s != [] && s[|s| - 1] == '.' then RStripDots(s[..|s| - 1]) else s
  }

  /** `now - timedelta(...)`, which raises when it falls before `datetime.min`. */
  function Before(now: Datetime, n: nat, unit: nat): Option<Datetime>
  {
    if now - n * unit >= 0 then Some(now - n * unit) else None
  }

  /** Step 1: "N분 전", "N시간 전", "N일 전", checked in that order; a failure falls through to step 2. */
  function RelativeTime(s: string, now: Datetime): Option<Datetime>
  {
    var unit :=
      if '분' in s && '전' in s then Some(Minute)
      else if Contains(s, "시간") && '전' in s then Some(Hour)
      else if '일' in s && '전' in s then Some(Day)
      else None;
    match unit
    case None => None
    case Some(u) =>
      match FirstNumber(s)
      case None => None
      case Some(n) => Before(now, n, u)
  }

  /** `dt + timedelta(hours=12)` when the clock hour is before noon; a day always has room for it. */
  function AddHalfDay(d: Datetime): (r: Datetime)
    requires HourOf(d) < 12
    ensures r == d + 12 * Hour
  {
    var q := d / Day;
    assert d == q * Day + d % Day;
    assert q <= 3652058;
    d + 12 * Hour
  }

  function SubHalfDay(d: Datetime): (r: Datetime)
    requires HourOf(d) == 12
    ensures r == d - 12 * Hour
  {
    d - 12 * Hour
  }

  /** Step 2: "YYYY.MM.DD. 오전 HH:MM", with the 12-hour clock folded onto the 24-hour one. */
  function DottedTime(s: string, p: Parsers): Option<Datetime>
  {
    var isPm := Contains(s, "오후");
    var cleaned := RStripDots(Strip(RemoveMeridiem(s)));
    match p.dotted(cleaned)
    case None => None
    case Some(dt) =>
      if isPm && HourOf(dt) < 12 then Some(AddHalfDay(dt))
      else if !isPm && HourOf(dt) == 12 then Some(SubHalfDay(dt))
      else Some(dt)
  }

  /** parse_korean_datetime, with `datetime.now()` passed in. */
  function ParseKoreanDatetime(dateStr: string, now: Datetime, p: Parsers): Datetime
  {
    var s := Strip(dateStr);
    match RelativeTime(s, now)
    case Some(d) => d
    case None =>
      match DottedTime(s, p)
      case Some(d) => d
      case None =>
        match p.plain(s)
        case Some(d) => d
        case None => DatetimeMin
  }

  /** "N분 전" is N minutes before now, and the minute reading wins over the hour and day readings. */
  lemma RelativeMinutes(dateStr: string, now: Datetime, p: Parsers, n: nat)
    requires '분' in Strip(dateStr) && '전' in Strip(dateStr)
    requires FirstNumber(Strip(dateStr)) == Some(n) && n * Minute <= now
    ensures ParseKoreanDatetime(dateStr, now, p) == now - n * Minute
  {
    var s := Strip(dateStr);
    assert RelativeTime(s, now) == Before(now, n, Minute);
    assert ParseKoreanDatetime(dateStr, now, p) == RelativeTime(s, now).value;
  }

  /** "N시간 전" is N hours before now when no '분' occurs. */
  lemma RelativeHours(dateStr: string, now: Datetime, p: Parsers, n: nat)
    requires '분' !in Strip(dateStr) && Contains(Strip(dateStr), "시간") && '전' in Strip(dateStr)
    requires FirstNumber(Strip(dateStr)) == Some(n) && n * Hour <= now
    ensures ParseKoreanDatetime(dateStr, now, p) == now - n * Hour
  {
    var s := Strip(dateStr);
    assert RelativeTime(s, now) == Before(now, n, Hour);
    assert ParseKoreanDatetime(dateStr, now, p) == RelativeTime(s, now).value;
  }

  /** "N일 전" is N days before now when neither '분' nor "시간" occurs. */
  lemma RelativeDays(dateStr: string, now: Datetime, p: Parsers, n: nat)
    requires '분' !in Strip(dateStr) && !Contains(Strip(dateStr), "시간") && '일' in Strip(dateStr) && '전' in Strip(dateStr)
    requires FirstNumber(Strip(dateStr)) == Some(n) && n * Day <= now
    ensures ParseKoreanDatetime(dateStr, now, p) == now - n * Day
  {
    var s := Strip(dateStr);
    assert RelativeTime(s, now) == Before(now, n, Day);
    assert ParseKoreanDatetime(dateStr, now, p) == RelativeTime(s, now).value;
  }

  /** 오후 before noon moves twelve hours on, 오전 12 becomes hour 0, everything else keeps its hour. */
  lemma MeridiemHour(d: Datetime, isPm: bool)
    ensures isPm && HourOf(d) < 12 ==> HourOf(AddHalfDay(d)) == HourOf(d) + 12
    ensures !isPm && HourOf(d) == 12 ==> HourOf(SubHalfDay(d)) == 0
  {
    var q := d / Day;
    var r := d % Day;
    assert d == q * Day + r;
    if HourOf(d) < 12 {
      assert r < 12 * Hour;
      assert (d + 12 * Hour) == q * Day + (r + 12 * Hour);
      DivModUnique(d + 12 * Hour, q, r + 12 * Hour);
    }
    if HourOf(d) == 12 {
      assert r >= 12 * Hour;
      DivModUnique(d - 12 * Hour, q, r - 12 * Hour);
    }
  }

  lemma DivModUnique(x: int, q: int, r: int)
    requires 0 <= r < Day && x == q * Day + r
    ensures x % Day == r && x / Day == q
  {
  }

  /** The dotted format's hour rule: 오후 before noon adds twelve hours, 오전 12 subtracts them, any other hour is kept. */
  lemma DottedHour(s: string, p: Parsers, dt: Datetime)
    requires p.dotted(RStripDots(Strip(RemoveMeridiem(s)))) == Some(dt)
    ensures var isPm := Contains(s, "오후"); var r := DottedTime(s, p).value;
      (isPm && HourOf(dt) < 12 ==> r == dt + 12 * Hour && HourOf(r) == HourOf(dt) + 12)
      && (!isPm && HourOf(dt) == 12 ==> r == dt - 12 * Hour && HourOf(r) == 0)
      && (!(isPm && HourOf(dt) < 12) && !(!isPm && HourOf(dt) == 12) ==> r == dt)
  {
    MeridiemHour(dt, Contains(s, "오후"));
  }

  /** A string no step can read gives `datetime.min`. */
  lemma Unparseable(dateStr: string, now: Datetime, p: Parsers)
    requires RelativeTime(Strip(dateStr), now).None?
    requires p.dotted(RStripDots(Strip(RemoveMeridiem(Strip(dateStr))))).None?
    requires p.plain(Strip(dateStr)).None?
    ensures ParseKoreanDatetime(dateStr, now, p) == DatetimeMin
  {
  }

  // ---------------------------------------------------------------------------
  // Items and filter_by_date

  datatype Feed = News | Youtube

  /** A crawled news article or YouTube video; absent keys read as "" and an absent or empty transcript as None. */
  datatype Item = Item(title: string, content: string, description: string, searchKeyword: string,
                       transcript: Option<string>, publishedTime: string, fetchedAt: string,
                       timestamp: Option<Datetime>, kind: Option<Feed>, trendScore: real, matchedKeywords: seq<string>)

  /** The date filter_by_date reads from an item of the given feed; `datetime.min` when there is none. */
  function ItemDate(item: Item, feed: Feed, now: Datetime, p: Parsers): Datetime
  {
    match feed
    case News => if item.publishedTime != [] then ParseKoreanDatetime(item.publishedTime, now, p) else DatetimeMin
    case Youtube =>
      if item.fetchedAt != [] then (match p.iso(item.fetchedAt) case Some(d) => d case None => DatetimeMin)
      else DatetimeMin
  }

  predicate InPeriod(item: Item, feed: Feed, now: Datetime, p: Parsers, start: Datetime, end: Datetime)
  {
    start <= ItemDate(item, feed, now, p) <= end
  }

  function PeriodTest(feed: Feed, now: Datetime, p: Parsers, start: Datetime, end: Datetime): Item -> bool
  {
    (item: Item) => InPeriod(item, feed, now, p, start, end)
  }

  /** The item with `timestamp_obj` set to the date it was filtered by. */
  function StampOne(item: Item, feed: Feed, now: Datetime, p: Parsers): Item
  {
    item.(timestamp := Some(ItemDate(item, feed, now, p)))
  }

  function StampWith(feed: Feed, now: Datetime, p: Parsers): Item -> Item
  {
    (item: Item) => StampOne(item, feed, now, p)
  }

  function FilterByDateSpec(items: seq<Item>, start: Datetime, end: Datetime, feed: Feed, now: Datetime, p: Parsers): seq<Item>
  {
    Map(Filter(items, PeriodTest(feed, now, p, start, end)), StampWith(feed, now, p))
  }

  /** filter_by_date: kept items are stamped with the date they were kept for. */
  method FilterByDate(items: seq<Item>, start: Datetime, end: Datetime, feed: Feed, now: Datetime, p: Parsers)
    returns (filtered: seq<Item>)
    ensures filtered == FilterByDateSpec(items, start, end, feed, now, p)
  {
    filtered := [];
    var i := 0;
    while i < |items|
      invariant 0 <= i <= |items|
      invariant filtered == Map(Filter(items[..i], PeriodTest(feed, now, p, start, end)), StampWith(feed, now, p))
    {
      FilterStep(items, i, PeriodTest(feed, now, p, start, end));
      var item := items[i];
      var itemDt := ReadDate(item, feed, now, p);
      if start <= itemDt <= end {
        var stamped := item.(timestamp := Some(itemDt));
        MapSnoc(Filter(items[..i], PeriodTest(feed, now, p, start, end)), item, StampWith(feed, now, p));
        filtered := filtered + [stamped];
      }
      i := i + 1;
    }
    assert items[..|items|] == items;
  }

  /** The date lookup at the top of the filter loop. */
  method ReadDate(item: Item, feed: Feed, now: Datetime, p: Parsers) returns (itemDt: Datetime)
    ensures itemDt == ItemDate(item, feed, now, p)
  {
    itemDt := DatetimeMin;
    match feed {
      case News =>
        if item.publishedTime != [] {
          itemDt := ParseKoreanDatetime(item.publishedTime, now, p);
        }
      case Youtube =>
        if item.fetchedAt != [] {
          var parsed := p.iso(item.fetchedAt);
          if parsed.Some? {
            itemDt := parsed.value;
          }
        }
    }
  }

  /** Exactly the items dated inside [start, end] are kept, in input order, each with its timestamp. */
  lemma FilterByDateExact(items: seq<Item>, start: Datetime, end: Datetime, feed: Feed, now: Datetime, p: Parsers)
    ensures var r := FilterByDateSpec(items, start, end, feed, now, p);
      (forall k :: 0 <= k < |r| ==> r[k].timestamp.Some? && start <= r[k].timestamp.value <= end)
      && |r| == |Filter(items, PeriodTest(feed, now, p, start, end))|
      && (forall i :: 0 <= i < |items| && InPeriod(items[i], feed, now, p, start, end) ==>
            items[i] in Filter(items, PeriodTest(feed, now, p, start, end)))
      && IsSubseq(Filter(items, PeriodTest(feed, now, p, start, end)), items)
  {
    FilterExact(items, PeriodTest(feed, now, p, start, end));
  }

  // ---------------------------------------------------------------------------
  // categorize_item

  datatype Category = Economy | Money | Society | Trend

  const MoneyKeywords: seq<string> := ["주식", "투자", "코인", "비트코인", "부동산", "청약", "삼성전자", "적금"]
  const EconomyKeywords: seq<string> := ["경제", "금리", "수출", "GDP", "환율", "기업"]
  const SocietyKeywords: seq<string> := ["사회", "사건", "사고", "날씨", "교통", "정치"]

  /** `any(k in text for k in kws)`. */
  predicate AnyIn(text: string, kws: seq<string>)
  {
    exists i :: 0 <= i < |kws| && Contains(text, kws[i])
  }

  function CategoryText(item: Item): string
  {
    Lower(item.title + " " + item.content)
  }

  /** categorize_item: the first keyword group that occurs in the lowercased text, in the order Money, Economy, Society. */
  function CategorizeItem(item: Item): (c: Category)
    ensures c == Money <==> AnyIn(CategoryText(item), MoneyKeywords)
    ensures c == Economy <==> !AnyIn(CategoryText(item), MoneyKeywords) && AnyIn(CategoryText(item), EconomyKeywords)
    ensures c == Society <==> (!AnyIn(CategoryText(item), MoneyKeywords) && !AnyIn(CategoryText(item), EconomyKeywords)
                               && AnyIn(CategoryText(item), SocietyKeywords))
  {
    var text := CategoryText(item);
    if AnyIn(text, MoneyKeywords) then Money
    else if AnyIn(text, EconomyKeywords) then Economy
    else if AnyIn(text, SocietyKeywords) then Society
    else Trend
  }

  /** A lowercased text never contains "GDP", so that keyword can never select Economy. */
  lemma GdpNeverMatches(item: Item)
    ensures !Contains(CategoryText(item), "GDP")
    ensures AnyIn(CategoryText(item), EconomyKeywords) <==> AnyIn(CategoryText(item), ["경제", "금리", "수출", "환율", "기업"])
  {
    var text := CategoryText(item);
    NoUpperNoG(text);
    var e := EconomyKeywords;
    var f := ["경제", "금리", "수출", "환율", "기업"];
    if AnyIn(text, e) {
      var i :| 0 <= i < |e| && Contains(text, e[i]);
      assert i != 3;
      assert e[i] == f[if i < 3 then i else i - 1];
    }
    if AnyIn(text, f) {
      var i :| 0 <= i < |f| && Contains(text, f[i]);
      assert f[i] == e[if i < 3 then i else i + 1];
    }
  }

  lemma {:induction false} NoUpperNoG(text: string)
    requires forall i :: 0 <= i < |text| ==> !('A' <= text[i] <= 'Z')
    ensures !Contains(text, "GDP")
    decreases |text|
  {
    if text != [] {
      assert !("GDP" <= text) by { assert text[0] != 'G'; }
      NoUpperNoG(text[1..]);
    } else {
      assert !("GDP" <= text);
    }
  }

  // ---------------------------------------------------------------------------
  // Trend scoring

  /** The lowercased text searched for an item of each feed; a transcript's first 1000 characters are appended as they are. */
  function SearchText(item: Item, feed: Feed): string
  {
    match feed
    case News => Lower(item.title + " " + item.content)
    case Youtube =>
      Lower(item.title + " " + item.description + " " + item.searchKeyword)
      + (match item.transcript case Some(t) => " " + Take(t, 1000) case None => [])
  }

  /** What one matching keyword of weight `w` adds: `w` for news, `1.5 * w` for videos. */
  function Gain(w: real, feed: Feed): real
  {
    match feed
    case News => w
    case Youtube => w * 1.5
  }

  /** `kw.lower() in text`. */
  predicate Hits(text: string, kw: string)
  {
    Contains(text, Lower(kw))
  }

  function KeywordHit(text: string): string -> bool
  {
    (kw: string) => Hits(text, kw)
  }

  function GainOf(t: Weights, feed: Feed): string -> real
  {
    (kw: string) => Gain(WeightOf(t, kw), feed)
  }

  /** The gains of the keywords found in `text`, added up in key order. */
  function TrendScore(text: string, t: Weights, keys: seq<string>, feed: Feed): real
  {
    SumWhere(keys, KeywordHit(text), GainOf(t, feed))
  }

  /** Sum of the gains of the listed keywords. */
  function SumGains(t: Weights, ks: seq<string>, feed: Feed): real
  {
    SumMap(ks, GainOf(t, feed))
  }

  function ScoredItem(item: Item, t: Weights, feed: Feed): Item
  {
    var text := SearchText(item, feed);
    item.(trendScore := TrendScore(text, t, t.keys, feed), matchedKeywords := Filter(t.keys, KeywordHit(text)), kind := Some(feed))
  }

  function ScoreWith(t: Weights, feed: Feed): Item -> Item
  {
    (item: Item) => ScoredItem(item, t, feed)
  }

  function ScoreAll(items: seq<Item>, t: Weights, feed: Feed): seq<Item>
  {
    Map(items, ScoreWith(t, feed))
  }

  /** The keyword loop for one item. */
  method ScoreText(text: string, t: Weights, feed: Feed) returns (score: real, matched: seq<string>)
    ensures score == TrendScore(text, t, t.keys, feed) && matched == Filter(t.keys, KeywordHit(text))
  {
    score := 0.0;
    matched := [];
    var i := 0;
    while i < |t.keys|
      invariant 0 <= i <= |t.keys|
      invariant score == SumWhere(t.keys[..i], KeywordHit(text), GainOf(t, feed))
      invariant matched == Filter(t.keys[..i], KeywordHit(text))
    {
      FilterStep(t.keys, i, KeywordHit(text));
      SumWhereStep(t.keys, i, KeywordHit(text), GainOf(t, feed));
      var kw := t.keys[i];
      var weight := WeightOf(t, kw);
      assert GainOf(t, feed)(kw) == Gain(weight, feed);
      if Hits(text, kw) {
        match feed {
          case News => score := score + weight;
          case Youtube => score := score + weight * 1.5;
        }
        matched := matched + [kw];
      }
      i := i + 1;
    }
    assert t.keys[..|t.keys|] == t.keys;
  }

  /** The news and YouTube scoring loops of main. */
  method ScoreItems(items: seq<Item>, t: Weights, feed: Feed) returns (scored: seq<Item>)
    ensures scored == ScoreAll(items, t, feed)
  {
    scored := [];
    var i := 0;
    while i < |items|
      invariant 0 <= i <= |items|
      invariant scored == ScoreAll(items[..i], t, feed)
    {
      var item := items[i];
      var text := SearchText(item, feed);
      var score, matched := ScoreText(text, t, feed);
      ScoreItemsStep(items, i, t, feed, score, matched);
      scored := scored + [item.(trendScore := score, matchedKeywords := matched, kind := Some(feed))];
      i := i + 1;
    }
    assert items[..|items|] == items;
  }

  /** One step of the scoring loop: the scored prefix grows by the scored item. */
  lemma ScoreItemsStep(items: seq<Item>, i: nat, t: Weights, feed: Feed, score: real, matched: seq<string>)
    requires i < |items|
    requires score == TrendScore(SearchText(items[i], feed), t, t.keys, feed)
    requires matched == Filter(t.keys, KeywordHit(SearchText(items[i], feed)))
    ensures ScoreAll(items[..i], t, feed) + [items[i].(trendScore := score, matchedKeywords := matched, kind := Some(feed))]
      == ScoreAll(items[..i + 1], t, feed)
  {
    assert items[..i + 1] == items[..i] + [items[i]];
    MapSnoc(items[..i], items[i], ScoreWith(t, feed));
  }

  /** The score is the sum of the gains of exactly the matched keywords. */
  lemma {:induction false} ScoreIsMatchedSum(text: string, t: Weights, keys: seq<string>, feed: Feed)
    ensures TrendScore(text, t, keys, feed) == SumGains(t, Filter(keys, KeywordHit(text)), feed)
  {
    SumWhereFilter(keys, KeywordHit(text), GainOf(t, feed));
  }

  /** With non-negative weights every score is non-negative. */
  lemma {:induction false} ScoreNonNegative(text: string, t: Weights, keys: seq<string>, feed: Feed)
    requires forall k :: k in keys ==> WeightOf(t, k) >= 0.0
    ensures TrendScore(text, t, keys, feed) >= 0.0
  {
    SumWhereNonNegative(keys, KeywordHit(text), GainOf(t, feed));
  }

  // ---------------------------------------------------------------------------
  // The report

  function TrendScoreOf(item: Item): real { item.trendScore }

  function WeightKey(t: Weights): string -> real
  {
    (k: string) => WeightOf(t, k)
  }

  /** `trends_summary`: the ten heaviest trend keywords, heaviest first. */
  function TrendsSummary(t: Weights): (r: seq<string>)
    ensures |r| == if |t.keys| <= 10 then |t.keys| else 10
    ensures forall k :: k in r ==> k in t.keys
    ensures forall i, j :: 0 <= i < j < |r| ==> WeightOf(t, r[i]) >= WeightOf(t, r[j])
    ensures forall k, j :: k in t.keys && k !in r && 0 <= j < |r| ==> WeightOf(t, k) <= WeightOf(t, r[j])
  {
    TrendsTop(t);
    Take(SortDesc(t.keys, WeightKey(t), RealLess), 10)
  }

  lemma TrendsTop(t: Weights)
    ensures var r := Take(SortDesc(t.keys, WeightKey(t), RealLess), 10);
      && |r| == (if |t.keys| <= 10 then |t.keys| else 10)
      && (forall k :: k in r ==> k in t.keys)
      && (forall i, j :: 0 <= i < j < |r| ==> WeightOf(t, r[i]) >= WeightOf(t, r[j]))
      && (forall k, j :: k in t.keys && k !in r && 0 <= j < |r| ==> WeightOf(t, k) <= WeightOf(t, r[j]))
  {
    var key := WeightKey(t);
    TopByReal(t.keys, key, 10);
    var r := Take(SortDesc(t.keys, key, RealLess), 10);
    forall i, j | 0 <= i < j < |r| ensures WeightOf(t, r[i]) >= WeightOf(t, r[j]) {
      assert key(r[i]) >= key(r[j]);
    }
    forall k, j | k in t.keys && k !in r && 0 <= j < |r| ensures WeightOf(t, k) <= WeightOf(t, r[j]) {
      assert r[j] in r;
      assert key(k) <= key(r[j]);
    }
  }

  function InCategory(c: Category): Item -> bool
  {
    ClassIs(CategorizeItem, c)
  }

  datatype Report = Report(summary: seq<string>, economy: seq<Item>, money: seq<Item>, society: seq<Item>, trend: seq<Item>)

  function ReportSpec(newsItems: seq<Item>, youtubeItems: seq<Item>, t: Weights): Report
  {
    var all := SortDesc(ScoreAll(newsItems, t, News) + ScoreAll(youtubeItems, t, Youtube), TrendScoreOf, RealLess);
    Report(TrendsSummary(t), Filter(all, InCategory(Economy)), Filter(all, InCategory(Money)),
           Filter(all, InCategory(Society)), Filter(all, InCategory(Trend)))
  }

  /** The scoring, sorting and bucketing steps of main, over the date-filtered items and the fused weights. */
  method AssembleReport(filteredNews: seq<Item>, filteredYoutube: seq<Item>, t: Weights) returns (report: Report)
    ensures report == ReportSpec(filteredNews, filteredYoutube, t)
  {
    var newsScored := ScoreItems(filteredNews, t, News);
    var youtubeScored := ScoreItems(filteredYoutube, t, Youtube);
    var allContent := SortDesc(newsScored + youtubeScored, TrendScoreOf, RealLess);
    var economy, money, society, trend := [], [], [], [];
    var i := 0;
    while i < |allContent|
      invariant 0 <= i <= |allContent|
      invariant economy == Filter(allContent[..i], InCategory(Economy))
      invariant money == Filter(allContent[..i], InCategory(Money))
      invariant society == Filter(allContent[..i], InCategory(Society))
      invariant trend == Filter(allContent[..i], InCategory(Trend))
    {
      FilterStep(allContent, i, InCategory(Economy));
      FilterStep(allContent, i, InCategory(Money));
      FilterStep(allContent, i, InCategory(Society));
      FilterStep(allContent, i, InCategory(Trend));
      var item := allContent[i];
      var cat := CategorizeItem(item);
      match cat {
        case Economy => economy := economy + [item];
        case Money => money := money + [item];
        case Society => society := society + [item];
        case Trend => trend := trend + [item];
      }
      i := i + 1;
    }
    assert allContent[..|allContent|] == allContent;
    report := Report(TrendsSummary(t), economy, money, society, trend);
  }

  /** Every scored item lands in exactly one category. */
  lemma BucketsPartition(all: seq<Item>)
    ensures |Filter(all, InCategory(Economy))| + |Filter(all, InCategory(Money))|
      + |Filter(all, InCategory(Society))| + |Filter(all, InCategory(Trend))| == |all|
  {
    FilterPartition4(all, CategorizeItem, Economy, Money, Society, Trend);
  }

  /** The report holds the ten heaviest keywords and four score-sorted buckets that partition the scored items. */
  lemma ReportShape(newsItems: seq<Item>, youtubeItems: seq<Item>, t: Weights)
    ensures var r := ReportSpec(newsItems, youtubeItems, t);
      |r.economy| + |r.money| + |r.society| + |r.trend| == |newsItems| + |youtubeItems|
      && SortedDesc(r.economy, TrendScoreOf, RealLess) && SortedDesc(r.money, TrendScoreOf, RealLess)
      && SortedDesc(r.society, TrendScoreOf, RealLess) && SortedDesc(r.trend, TrendScoreOf, RealLess)
      && (forall k :: 0 <= k < |r.money| ==> CategorizeItem(r.money[k]) == Money)
      && (forall k :: 0 <= k < |r.economy| ==> CategorizeItem(r.economy[k]) == Economy)
  {
    var scored := ScoreAll(newsItems, t, News) + ScoreAll(youtubeItems, t, Youtube);
    var all := SortDesc(scored, TrendScoreOf, RealLess);
    RealLessAsym();
    SortDescSorted(scored, TrendScoreOf, RealLess);
    BucketsPartition(all);
    FilterSortedReal(all, InCategory(Economy), TrendScoreOf);
    FilterSortedReal(all, InCategory(Money), TrendScoreOf);
    FilterSortedReal(all, InCategory(Society), TrendScoreOf);
    FilterSortedReal(all, InCategory(Trend), TrendScoreOf);
  }

  /**
   * Each scored item lands in the bucket of its own category and in no other: the four buckets
   * hold the scored news and videos between them exactly once each, and a bucket holds an item
   * exactly when the item was scored and CategorizeItem assigns it that bucket's category.
   */
  lemma ReportBuckets(newsItems: seq<Item>, youtubeItems: seq<Item>, t: Weights)
    ensures var r := ReportSpec(newsItems, youtubeItems, t);
      var scored := ScoreAll(newsItems, t, News) + ScoreAll(youtubeItems, t, Youtube);
      multiset(r.economy) + multiset(r.money) + multiset(r.society) + multiset(r.trend) == multiset(scored)
      && (forall x :: x in r.economy <==> x in scored && CategorizeItem(x) == Economy)
      && (forall x :: x in r.money <==> x in scored && CategorizeItem(x) == Money)
      && (forall x :: x in r.society <==> x in scored && CategorizeItem(x) == Society)
      && (forall x :: x in r.trend <==> x in scored && CategorizeItem(x) == Trend)
  {
    var scored := ScoreAll(newsItems, t, News) + ScoreAll(youtubeItems, t, Youtube);
    var all := SortDesc(scored, TrendScoreOf, RealLess);
    FilterPartition4Multiset(all, CategorizeItem, Economy, Money, Society, Trend);
    SortDescMembers(scored, TrendScoreOf, RealLess);
    SortedBucketMembers(scored, Economy);
    SortedBucketMembers(scored, Money);
    SortedBucketMembers(scored, Society);
    SortedBucketMembers(scored, Trend);
  }

  /** A bucket of the sorted items holds exactly the scored items of its category. */
  lemma SortedBucketMembers(scored: seq<Item>, c: Category)
    ensures forall x :: x in Filter(SortDesc(scored, TrendScoreOf, RealLess), InCategory(c)) <==> x in scored && CategorizeItem(x) == c
  {
    SortDescMembers(scored, TrendScoreOf, RealLess);
    BucketMembers(SortDesc(scored, TrendScoreOf, RealLess), c);
  }

  /** A bucket holds exactly the items of its category. */
  lemma BucketMembers(all: seq<Item>, c: Category)
    ensures forall x :: x in Filter(all, InCategory(c)) <==> x in all && CategorizeItem(x) == c
  {
    FilterExact(all, InCategory(c));
    forall x | x in all && CategorizeItem(x) == c ensures x in Filter(all, InCategory(c)) {
      var i :| 0 <= i < |all| && all[i] == x;
      assert InCategory(c)(all[i]);
    }
  }
}
