// Step 1 of the pipeline: a sample run over the Naver news search API. Hits
// are kept when their pubDate falls inside a time window, deduplicated by link
// across the search keywords, and tallied into a small keyword report.

module NewsSample {
  import opened Util
  import opened TrendScoring

  // ---------------------------------------------------------------------------
  // Time window

  /** The item's pubDate parses and lies in the closed window [start, end]. */
  predicate InWindow(item: NewsItem, strptime: string -> Option<int>, start: int, end: int)
  {
    match ParsePubdate(item, strptime)
    case None => false
    case Some(d) => start <= d <= end
  }

  function WindowTest(strptime: string -> Option<int>, start: int, end: int): NewsItem -> bool
  {
    (item: NewsItem) => InWindow(item, strptime, start, end)
  }

  /** filter_news_by_time: an unparsable date skips the item. */
  method FilterNewsByTime(newsItems: seq<NewsItem>, strptime: string -> Option<int>, start: int, end: int)
    returns (filtered: seq<NewsItem>)
    ensures filtered == Filter(newsItems, WindowTest(strptime, start, end))
  {
    filtered := [];
    var i := 0;
    while i < |newsItems|
      invariant 0 <= i <= |newsItems|
      invariant filtered == Filter(newsItems[..i], WindowTest(strptime, start, end))
    {
      FilterStep(newsItems, i, WindowTest(strptime, start, end));
      var item := newsItems[i];
      var parsed := strptime(BeforeFirst(item.pubDate, " +"));
      if parsed.Some? {
        var pubDate := parsed.value;
        if start <= pubDate <= end {
          filtered := filtered + [item];
        }
      }
      i := i + 1;
    }
    assert newsItems[..|newsItems|] == newsItems;
  }

  /** The window keeps, in order, exactly the items whose date parses into it. */
  lemma FilterNewsByTimeExact(newsItems: seq<NewsItem>, strptime: string -> Option<int>, start: int, end: int)
    ensures IsSubseq(Filter(newsItems, WindowTest(strptime, start, end)), newsItems)
    ensures forall x :: x in Filter(newsItems, WindowTest(strptime, start, end)) <==>
      x in newsItems && InWindow(x, strptime, start, end)
  {
    FilterExact(newsItems, WindowTest(strptime, start, end));
    forall x | x in newsItems && InWindow(x, strptime, start, end)
      ensures x in Filter(newsItems, WindowTest(strptime, start, end))
    {
      var i :| 0 <= i < |newsItems| && newsItems[i] == x;
    }
  }

  // ---------------------------------------------------------------------------
  // Keywords

  /** The stopwords of the sample run; unlike phase 3 it keeps 정부 and 시장 and drops 있다 and 없다. */
  const SampleStopwords: set<string> := {
    "오늘", "내일", "어제", "의", "이", "가", "을", "를", "은", "는", "에", "에서", "로", "으로", "와", "과",
    "도", "만", "까지", "부터", "보다", "같이", "그리고", "하지만", "최근", "현재", "있다", "없다", "대한",
    "관련", "통해", "국내", "개최"
  }

  /** A kept token: two or more Hangul syllables and not a stopword, or three or more capital Latin letters. */
  predicate IsSampleKeyword(w: string)
  {
    (|w| >= 2 && AllHangul(w) && w !in SampleStopwords) || (|w| >= 3 && AllUpperLatin(w))
  }

  function SampleKeywordsOfWords(ws: seq<string>): (r: seq<string>)
    ensures forall i :: 0 <= i < |r| ==> IsSampleKeyword(r[i])
  {
    if ws == [] then []
    else
      var p := SampleKeywordsOfWords(ws[..|ws| - 1]);
      if IsSampleKeyword(ws[|ws| - 1]) then p + [ws[|ws| - 1]] else p
  }

  /** Tokens are kept verbatim (no particle stripping), in text order. */
  lemma {:induction false} SampleKeywordsVerbatim(ws: seq<string>)
    ensures IsSubseq(SampleKeywordsOfWords(ws), ws)
    ensures forall i :: 0 <= i < |ws| && IsSampleKeyword(ws[i]) ==> ws[i] in SampleKeywordsOfWords(ws)
  {
    if ws != [] {
      var q := ws[..|ws| - 1];
      var w := ws[|ws| - 1];
      SampleKeywordsVerbatim(q);
      assert ws == q + [w];
      if IsSampleKeyword(w) {
        SubseqKeepLast(SampleKeywordsOfWords(q), q, w);
      } else {
        SubseqDropLast(SampleKeywordsOfWords(q), q, w);
      }
      forall i | 0 <= i < |ws| && IsSampleKeyword(ws[i]) ensures ws[i] in SampleKeywordsOfWords(ws) {
        if i < |ws| - 1 { assert ws[i] == q[i]; }
      }
    }
  }

  function SampleKeywordsOf(text: string): seq<string>
  {
    SampleKeywordsOfWords(Words(StripTags(text)))
  }

  /** extract_keywords_from_text of the sample run. */
  method ExtractSampleKeywords(text: string) returns (keywords: seq<string>)
    ensures keywords == SampleKeywordsOf(text)
    ensures forall i :: 0 <= i < |keywords| ==> IsSampleKeyword(keywords[i])
  {
    var words := Words(StripTags(text));
    keywords := [];
    var i := 0;
    while i < |words|
      invariant 0 <= i <= |words|
      invariant keywords == SampleKeywordsOfWords(words[..i])
    {
      var w := words[i];
      assert words[..i + 1][..i] == words[..i];
      if |w| >= 2 && AllHangul(w) && w !in SampleStopwords {
        keywords := keywords + [w];
      } else if |w| >= 3 && AllUpperLatin(w) {
        keywords := keywords + [w];
      }
      i := i + 1;
    }
    assert words[..|words|] == words;
  }

  // ---------------------------------------------------------------------------
  // Keyword report

  /** `freq` (with its insertion order) and `mapping` of analyze_keywords. */
  datatype SampleTally = SampleTally(order: seq<string>, freq: map<string, int>, mapping: map<string, seq<NewsItem>>)

  const EmptySampleTally := SampleTally([], map[], map[])

  function SFreq(t: SampleTally, kw: string): int
  {
    if kw in t.freq then t.freq[kw] else 0
  }

  function SRelated(t: SampleTally, kw: string): seq<NewsItem>
  {
    if kw in t.mapping then t.mapping[kw] else []
  }

  function Occurrence(t: SampleTally, kw: string, weight: int, item: NewsItem): SampleTally
  {
    var related := SRelated(t, kw);
    SampleTally(if kw in t.freq then t.order else t.order + [kw],
                t.freq[kw := SFreq(t, kw) + weight],
                t.mapping[kw := if item in related then related else related + [item]])
  }

  function Occurrences(t: SampleTally, kws: seq<string>, weight: int, item: NewsItem): SampleTally
  {
    if kws == [] then t else Occurrence(Occurrences(t, kws[..|kws| - 1], weight, item), kws[|kws| - 1], weight, item)
  }

  function SampleTallyOf(items: seq<NewsItem>): SampleTally
  {
    if items == [] then EmptySampleTally
    else
      var t := SampleTallyOf(items[..|items| - 1]);
      var x := items[|items| - 1];
      Occurrences(Occurrences(t, SampleKeywordsOf(x.title), 3, x), SampleKeywordsOf(x.description), 1, x)
  }

  /** 3 per title occurrence plus 1 per description occurrence, over all items. */
  function SampleWeight(items: seq<NewsItem>, kw: string): int
  {
    if items == [] then 0
    else
      var x := items[|items| - 1];
      SampleWeight(items[..|items| - 1], kw) + 3 * Count(SampleKeywordsOf(x.title), kw) + Count(SampleKeywordsOf(x.description), kw)
  }

  /** Number of items in which `kw` occurs, in the title or the description. */
  function ItemsMentioning(items: seq<NewsItem>, kw: string): nat
  {
    if items == [] then 0
    else
      var x := items[|items| - 1];
      ItemsMentioning(items[..|items| - 1], kw) + (if kw in SampleKeywordsOf(x.title) || kw in SampleKeywordsOf(x.description) then 1 else 0)
  }

  /** The counters agree on their keys and each related list holds distinct items. */
  ghost predicate SampleTallyValid(t: SampleTally)
  {
    NoDup(t.order)
    && (forall i :: 0 <= i < |t.order| ==> t.order[i] in t.freq)
    && (forall k :: k in t.freq ==> k in t.order && k in t.mapping && t.mapping[k] != [])
    && (forall k :: k in t.mapping ==> NoDup(t.mapping[k]))
  }

  lemma OccurrenceValid(t: SampleTally, kw: string, weight: int, item: NewsItem)
    requires SampleTallyValid(t)
    ensures SampleTallyValid(Occurrence(t, kw, weight, item))
  {
    OccurrenceOrder(t, kw, weight, item);
    OccurrenceMapping(t, kw, weight, item);
  }

  lemma OccurrenceOrder(t: SampleTally, kw: string, weight: int, item: NewsItem)
    requires SampleTallyValid(t)
    ensures var t' := Occurrence(t, kw, weight, item);
      NoDup(t'.order) && (forall i :: 0 <= i < |t'.order| ==> t'.order[i] in t'.freq)
  {
    var t' := Occurrence(t, kw, weight, item);
    if kw !in t.freq {
      assert kw !in t.order;
      assert t'.order == t.order + [kw];
      assert NoDup(t'.order);
    }
  }

  lemma OccurrenceMapping(t: SampleTally, kw: string, weight: int, item: NewsItem)
    requires SampleTallyValid(t)
    ensures var t' := Occurrence(t, kw, weight, item);
      (forall k :: k in t'.freq ==> k in t'.order && k in t'.mapping && t'.mapping[k] != [])
      && (forall k :: k in t'.mapping ==> NoDup(t'.mapping[k]))
  {
    var t' := Occurrence(t, kw, weight, item);
    var related := SRelated(t, kw);
    if item !in related {
      assert NoDup(related + [item]);
    }
    forall k | k in t'.freq ensures k in t'.order {
      if k != kw { assert k in t.freq; }
    }
  }

  lemma {:induction false} OccurrencesValid(t: SampleTally, kws: seq<string>, weight: int, item: NewsItem)
    requires SampleTallyValid(t)
    ensures SampleTallyValid(Occurrences(t, kws, weight, item))
  {
    if kws != [] {
      OccurrencesValid(t, kws[..|kws| - 1], weight, item);
      OccurrenceValid(Occurrences(t, kws[..|kws| - 1], weight, item), kws[|kws| - 1], weight, item);
    }
  }

  lemma {:induction false} SampleTallyOfValid(items: seq<NewsItem>)
    ensures SampleTallyValid(SampleTallyOf(items))
  {
    if items != [] {
      var x := items[|items| - 1];
      var t := SampleTallyOf(items[..|items| - 1]);
      SampleTallyOfValid(items[..|items| - 1]);
      OccurrencesValid(t, SampleKeywordsOf(x.title), 3, x);
      OccurrencesValid(Occurrences(t, SampleKeywordsOf(x.title), 3, x), SampleKeywordsOf(x.description), 1, x);
    }
  }

  lemma {:induction false} OccurrencesFreq(t: SampleTally, kws: seq<string>, weight: int, item: NewsItem, kw: string)
    ensures SFreq(Occurrences(t, kws, weight, item), kw) == SFreq(t, kw) + weight * Count(kws, kw)
  {
    if kws != [] {
      var p := kws[..|kws| - 1];
      var last := kws[|kws| - 1];
      OccurrencesFreq(t, p, weight, item, kw);
      assert Count(kws, kw) == Count(p, kw) + (if last == kw then 1 else 0);
      MulStep(weight, Count(p, kw));
    }
  }

  /** A keyword's frequency is three times its title occurrences plus its description occurrences. */
  lemma {:induction false} SampleFrequency(items: seq<NewsItem>, kw: string)
    ensures SFreq(SampleTallyOf(items), kw) == SampleWeight(items, kw)
  {
    if items != [] {
      var x := items[|items| - 1];
      var t := SampleTallyOf(items[..|items| - 1]);
      SampleFrequency(items[..|items| - 1], kw);
      OccurrencesFreq(t, SampleKeywordsOf(x.title), 3, x, kw);
      OccurrencesFreq(Occurrences(t, SampleKeywordsOf(x.title), 3, x), SampleKeywordsOf(x.description), 1, x, kw);
    }
  }

  /** The related list of the last item's keywords ends with that item; others are untouched. */
  lemma {:induction false} OccurrencesRelated(t: SampleTally, kws: seq<string>, weight: int, item: NewsItem, kw: string)
    requires SampleTallyValid(t)
    ensures var r := SRelated(Occurrences(t, kws, weight, item), kw);
      if kw in kws then (if item in SRelated(t, kw) then r == SRelated(t, kw) else r == SRelated(t, kw) + [item])
      else r == SRelated(t, kw)
  {
    if kws != [] {
      var p := kws[..|kws| - 1];
      var last := kws[|kws| - 1];
      OccurrencesRelated(t, p, weight, item, kw);
      OccurrencesValid(t, p, weight, item);
      assert kw in kws <==> kw in p || kw == last;
    }
  }

  /** Each related item is recorded once, so the news count is the number of items mentioning the keyword. */
  lemma {:induction false} SampleNewsCount(items: seq<NewsItem>, kw: string)
    requires NoDup(items)
    ensures |SRelated(SampleTallyOf(items), kw)| == ItemsMentioning(items, kw)
    ensures forall y :: y in SRelated(SampleTallyOf(items), kw) ==> y in items
  {
    if items != [] {
      var p := items[..|items| - 1];
      var x := items[|items| - 1];
      var t := SampleTallyOf(p);
      NoDupPrefix(items);
      SampleNewsCount(p, kw);
      SampleTallyOfValid(p);
      var titleKws := SampleKeywordsOf(x.title);
      var t1 := Occurrences(t, titleKws, 3, x);
      OccurrencesRelated(t, titleKws, 3, x, kw);
      OccurrencesValid(t, titleKws, 3, x);
      OccurrencesRelated(t1, SampleKeywordsOf(x.description), 1, x, kw);
    }
  }

  /** One row of the report. */
  datatype KeywordReport = KeywordReport(keyword: string, frequency: int, newsCount: nat, topNews: seq<NewsItem>)

  /** The report row for `kw`, or None when frequency is below 5 or fewer than two items are related. */
  function ReportRow(t: SampleTally, kw: string): (r: Option<KeywordReport>)
    ensures r.Some? <==> SFreq(t, kw) >= 5 && |SRelated(t, kw)| >= 2
    ensures r.Some? ==> (r.value.keyword == kw && r.value.frequency == SFreq(t, kw)
      && r.value.newsCount == |SRelated(t, kw)| && |r.value.topNews| <= 3
      && SortedDesc(r.value.topNews, PubDateKey, StrLess)
      && multiset(r.value.topNews) <= multiset(SRelated(t, kw)))
  {
    var related := SRelated(t, kw);
    var count := SFreq(t, kw);
    if count < 5 || |related| < 2 then None
    else
      var sortedNews := SortDesc(related, PubDateKey, StrLess);
      StrLessIsAsym();
      SortDescSorted(related, PubDateKey, StrLess);
      TakeSorted(sortedNews, 3);
      TakeMultiset(sortedNews, 3);
      Some(KeywordReport(kw, count, |related|, TopNews(related)))
  }

  lemma TakeSorted(s: seq<NewsItem>, n: nat)
    requires SortedDesc(s, PubDateKey, StrLess)
    ensures SortedDesc(Take(s, n), PubDateKey, StrLess)
  {
  }

  lemma TakeMultiset<T>(s: seq<T>, n: nat)
    ensures multiset(Take(s, n)) <= multiset(s)
  {
    if n < |s| {
      assert s == s[..n] + s[n..];
    }
  }

  function ReportRows(t: SampleTally, kws: seq<string>): seq<KeywordReport>
  {
    if kws == [] then []
    else
      match ReportRow(t, kws[|kws| - 1])
      case Some(row) => ReportRows(t, kws[..|kws| - 1]) + [row]
      case None => ReportRows(t, kws[..|kws| - 1])
  }

  /** Every row passed the filter of ReportRow for its own keyword, which is among `kws`. */
  lemma {:induction false} ReportRowsPassed(t: SampleTally, kws: seq<string>)
    ensures forall i :: 0 <= i < |ReportRows(t, kws)| ==>
      ReportRow(t, ReportRows(t, kws)[i].keyword) == Some(ReportRows(t, kws)[i]) && ReportRows(t, kws)[i].keyword in kws
  {
    if kws != [] {
      ReportRowsPassed(t, kws[..|kws| - 1]);
    }
  }

  function SFreqOf(t: SampleTally): string -> int
  {
    (k: string) => SFreq(t, k)
  }

  /** `freq.most_common(20)`: the twenty highest counts, ties in insertion order. */
  function Top20(t: SampleTally): seq<string>
  {
    Take(SortDesc(t.order, SFreqOf(t), IntLess), 20)
  }

  function AnalyzeKeywordsSpec(newsList: seq<NewsItem>): seq<KeywordReport>
  {
    var t := SampleTallyOf(newsList);
    ReportRows(t, Top20(t))
  }

  /** The inner loops of analyze_keywords: one keyword list of one item, at one weight. */
  method TallySampleKeywords(t: SampleTally, kws: seq<string>, weight: int, item: NewsItem) returns (t': SampleTally)
    ensures t' == Occurrences(t, kws, weight, item)
  {
    t' := t;
    var j := 0;
    while j < |kws|
      invariant 0 <= j <= |kws|
      invariant t' == Occurrences(t, kws[..j], weight, item)
    {
      assert kws[..j + 1][..j] == kws[..j];
      t' := CountSampleOccurrence(t', kws[j], weight, item);
      j := j + 1;
    }
    assert kws[..|kws|] == kws;
  }

  /** The loop body: bump the Counter and record the item under the keyword. */
  method CountSampleOccurrence(t: SampleTally, k: string, weight: int, item: NewsItem) returns (t': SampleTally)
    ensures t' == Occurrence(t, k, weight, item)
  {
    var order, freq, mapping := t.order, t.freq, t.mapping;
    if k !in freq {
      order := order + [k];
    }
    freq := freq[k := (if k in freq then freq[k] else 0) + weight];
    var related := if k in mapping then mapping[k] else [];
    if item !in related {
      related := related + [item];
    }
    mapping := mapping[k := related];
    t' := SampleTally(order, freq, mapping);
  }

  lemma SampleTallyStep(items: seq<NewsItem>, i: nat)
    requires i < |items|
    ensures SampleTallyOf(items[..i + 1]) == Occurrences(Occurrences(SampleTallyOf(items[..i]),
      SampleKeywordsOf(items[i].title), 3, items[i]), SampleKeywordsOf(items[i].description), 1, items[i])
  {
    assert items[..i + 1][..i] == items[..i];
  }

  /** The counting loop of analyze_keywords: title keywords weigh 3, description keywords 1. */
  method TallySampleNews(newsList: seq<NewsItem>) returns (t: SampleTally)
    ensures t == SampleTallyOf(newsList)
  {
    t := EmptySampleTally;
    var i := 0;
    while i < |newsList|
      invariant 0 <= i <= |newsList|
      invariant t == SampleTallyOf(newsList[..i])
    {
      var item := newsList[i];
      var titleKws := ExtractSampleKeywords(item.title);
      var descKws := ExtractSampleKeywords(item.description);
      t := TallySampleKeywords(t, titleKws, 3, item);
      t := TallySampleKeywords(t, descKws, 1, item);
      SampleTallyStep(newsList, i);
      i := i + 1;
    }
    assert newsList[..|newsList|] == newsList;
  }

  /** analyze_keywords. */
  method AnalyzeKeywords(newsList: seq<NewsItem>) returns (results: seq<KeywordReport>)
    ensures results == AnalyzeKeywordsSpec(newsList)
  {
    var t := TallySampleNews(newsList);
    results := ReportTop(t, Top20(t));
  }

  /** The reporting loop of analyze_keywords over the 20 most common keywords. */
  method ReportTop(t: SampleTally, topRaw: seq<string>) returns (results: seq<KeywordReport>)
    ensures results == ReportRows(t, topRaw)
  {
    results := [];
    var k := 0;
    while k < |topRaw|
      invariant 0 <= k <= |topRaw|
      invariant results == ReportRows(t, topRaw[..k])
    {
      ReportRowsStep(t, topRaw, k);
      var row := ReportOne(t, topRaw[k]);
      if row.Some? {
        results := results + [row.value];
      }
      k := k + 1;
    }
    assert topRaw[..|topRaw|] == topRaw;
  }

  lemma ReportRowsStep(t: SampleTally, kws: seq<string>, k: nat)
    requires k < |kws|
    ensures ReportRows(t, kws[..k + 1])
      == ReportRows(t, kws[..k]) + (if ReportRow(t, kws[k]).Some? then [ReportRow(t, kws[k]).value] else [])
  {
    assert kws[..k + 1][..k] == kws[..k];
  }

  /** The body of the reporting loop: the row for one keyword, or None when it is too weak. */
  method ReportOne(t: SampleTally, keyword: string) returns (row: Option<KeywordReport>)
    ensures row == ReportRow(t, keyword)
  {
    var related := if keyword in t.mapping then t.mapping[keyword] else [];
    var count := if keyword in t.freq then t.freq[keyword] else 0;
    row := None;
    if !(count < 5 || |related| < 2) {
      var sortedNews := Take(SortDesc(related, PubDateKey, StrLess), 3);
      row := Some(KeywordReport(keyword, count, |related|, sortedNews));
    }
  }

  /** The keyword occurs in the item's title or description. */
  predicate SampleMentions(y: NewsItem, kw: string)
  {
    kw in SampleKeywordsOf(y.title) || kw in SampleKeywordsOf(y.description)
  }

  /** The related list of a keyword holds exactly the items that mention it. */
  lemma {:induction false} SampleRelatedMembers(items: seq<NewsItem>, kw: string)
    ensures forall y :: y in SRelated(SampleTallyOf(items), kw) <==> y in items && SampleMentions(y, kw)
  {
    if items != [] {
      var p := items[..|items| - 1];
      var x := items[|items| - 1];
      var t := SampleTallyOf(p);
      SampleRelatedMembers(p, kw);
      SampleTallyOfValid(p);
      InSnoc(items, x);
      var titleKws := SampleKeywordsOf(x.title);
      var t1 := Occurrences(t, titleKws, 3, x);
      OccurrencesRelated(t, titleKws, 3, x, kw);
      OccurrencesValid(t, titleKws, 3, x);
      OccurrencesRelated(t1, SampleKeywordsOf(x.description), 1, x, kw);
      forall y ensures y in SRelated(SampleTallyOf(items), kw) <==> y in items && SampleMentions(y, kw) {
        InSnoc(items, y);
      }
    }
  }

  /** `most_common(20)`: up to twenty distinct counted keywords, none left out counting more than one kept. */
  lemma Top20Highest(t: SampleTally)
    ensures var top := Top20(t);
      |top| == (if |t.order| <= 20 then |t.order| else 20) && (forall k :: k in top ==> k in t.order)
      && forall k, k' :: k in t.order && k !in top && k' in top ==> SFreq(t, k) <= SFreq(t, k')
  {
    var top := Top20(t);
    TopByInt(t.order, SFreqOf(t), 20);
    forall k, k' | k in t.order && k !in top && k' in top ensures SFreq(t, k) <= SFreq(t, k') {
      assert SFreqOf(t)(k) <= SFreqOf(t)(k');
    }
  }

  /** A row of the sample report, against the items it was computed from. */
  predicate SampleRowFor(newsList: seq<NewsItem>, row: KeywordReport)
  {
    var kw := row.keyword;
    row.frequency == SampleWeight(newsList, kw) && row.frequency >= 5
    && row.newsCount == ItemsMentioning(newsList, kw) && row.newsCount >= 2
    && |row.topNews| == (if row.newsCount <= 3 then row.newsCount else 3)
    && SortedDesc(row.topNews, PubDateKey, StrLess)
    && (forall y :: y in row.topNews ==> y in newsList && SampleMentions(y, kw))
    && forall x, y :: x in newsList && SampleMentions(x, kw) && x !in row.topNews && y in row.topNews ==>
      !StrLess(PubDateKey(y), PubDateKey(x))
  }

  /** The row ReportRow builds over the tally of distinct items is a SampleRowFor them. */
  lemma ReportRowFor(newsList: seq<NewsItem>, kw: string)
    requires NoDup(newsList)
    requires ReportRow(SampleTallyOf(newsList), kw).Some?
    ensures SampleRowFor(newsList, ReportRow(SampleTallyOf(newsList), kw).value)
  {
    var t := SampleTallyOf(newsList);
    var related := SRelated(t, kw);
    var row := ReportRow(t, kw).value;
    SampleFrequency(newsList, kw);
    SampleNewsCount(newsList, kw);
    SampleRelatedMembers(newsList, kw);
    TopByStr(related, PubDateKey, 3);
    assert row.topNews == TopNews(related);
    forall y | y in row.topNews ensures y in related {
      assert y in multiset(row.topNews);
    }
  }

  /** What the report promises: a row per strong keyword among the 20 most frequent, with its weighted count and newest items. */
  lemma AnalyzeKeywordsRows(newsList: seq<NewsItem>)
    requires NoDup(newsList)
    ensures var rs := AnalyzeKeywordsSpec(newsList);
      forall i :: 0 <= i < |rs| ==> rs[i].keyword in Top20(SampleTallyOf(newsList)) && SampleRowFor(newsList, rs[i])
  {
    var t := SampleTallyOf(newsList);
    var rs := AnalyzeKeywordsSpec(newsList);
    ReportRowsPassed(t, Top20(t));
    forall i | 0 <= i < |rs| ensures SampleRowFor(newsList, rs[i]) {
      ReportRowFor(newsList, rs[i].keyword);
    }
  }

  predicate HasKeywordRow(rs: seq<KeywordReport>, kw: string)
  {
    exists i :: 0 <= i < |rs| && rs[i].keyword == kw
  }

  /** A listed keyword that passes the filters has its row among the rows. */
  lemma {:induction false} ReportRowsContain(t: SampleTally, kws: seq<string>, kw: string)
    requires kw in kws && ReportRow(t, kw).Some?
    ensures ReportRow(t, kw).value in ReportRows(t, kws)
  {
    var p := kws[..|kws| - 1];
    InSnoc(kws, kw);
    if kw in p {
      ReportRowsContain(t, p, kw);
    }
  }

  /** Every keyword among the 20 most frequent with weight at least 5 and two mentioning items gets a row. */
  lemma AnalyzeKeywordsComplete(newsList: seq<NewsItem>)
    requires NoDup(newsList)
    ensures var t := SampleTallyOf(newsList);
      forall kw :: kw in Top20(t) && SampleWeight(newsList, kw) >= 5 && ItemsMentioning(newsList, kw) >= 2 ==>
        HasKeywordRow(AnalyzeKeywordsSpec(newsList), kw)
  {
    var t := SampleTallyOf(newsList);
    var rs := AnalyzeKeywordsSpec(newsList);
    forall kw | kw in Top20(t) && SampleWeight(newsList, kw) >= 5 && ItemsMentioning(newsList, kw) >= 2
      ensures HasKeywordRow(rs, kw)
    {
      SampleFrequency(newsList, kw);
      SampleNewsCount(newsList, kw);
      ReportRowsContain(t, Top20(t), kw);
      var i :| 0 <= i < |rs| && rs[i] == ReportRow(t, kw).value;
      assert rs[i].keyword == kw;
    }
  }

  // ---------------------------------------------------------------------------
  // Collecting the sample

  /** A hit is appended when its link is present and not seen before. */
  function SampleLinkKeep(acc: seq<NewsItem>, x: NewsItem): bool
  {
    x.link != [] && forall i :: 0 <= i < |acc| ==> acc[i].link != x.link
  }

  /** The hits of each keyword in the window; a failed search (None) contributes nothing. */
  function WindowedHits(searches: seq<Option<seq<NewsItem>>>, strptime: string -> Option<int>, start: int, end: int): seq<seq<NewsItem>>
  {
    if searches == [] then []
    else
      var last := match searches[|searches| - 1]
        case None => []
        case Some(items) => Filter(items, WindowTest(strptime, start, end));
      WindowedHits(searches[..|searches| - 1], strptime, start, end) + [last]
  }

  function CollectSpec(searches: seq<Option<seq<NewsItem>>>, strptime: string -> Option<int>, start: int, end: int): seq<NewsItem>
  {
    Greedy(Flatten(WindowedHits(searches, strptime, start, end)), SampleLinkKeep)
  }

  /** The per-keyword loop of run_sample, with each `search_news` result passed in. */
  method CollectNews(searches: seq<Option<seq<NewsItem>>>, strptime: string -> Option<int>, start: int, end: int)
    returns (allNews: seq<NewsItem>)
    ensures allNews == CollectSpec(searches, strptime, start, end)
  {
    allNews := [];
    var seenLinks: set<string> := {};
    var k := 0;
    while k < |searches|
      invariant 0 <= k <= |searches|
      invariant allNews == Greedy(Flatten(WindowedHits(searches[..k], strptime, start, end)), SampleLinkKeep)
      invariant seenLinks == LinksOf(allNews)
    {
      var filtered: seq<NewsItem> := [];
      if searches[k].Some? {
        filtered := FilterNewsByTime(searches[k].value, strptime, start, end);
      }
      WindowedHitsStep(searches, k, strptime, start, end, filtered);
      allNews, seenLinks := AppendNewLinks(Flatten(WindowedHits(searches[..k], strptime, start, end)), allNews, seenLinks, filtered);
      k := k + 1;
    }
    assert searches[..|searches|] == searches;
  }

  lemma WindowedHitsStep(searches: seq<Option<seq<NewsItem>>>, k: nat, strptime: string -> Option<int>, start: int, end: int,
                         filtered: seq<NewsItem>)
    requires k < |searches|
    requires filtered == if searches[k].Some? then Filter(searches[k].value, WindowTest(strptime, start, end)) else []
    ensures Flatten(WindowedHits(searches[..k + 1], strptime, start, end)) == Flatten(WindowedHits(searches[..k], strptime, start, end)) + filtered
  {
    assert searches[..k + 1][..k] == searches[..k];
    var w := WindowedHits(searches[..k + 1], strptime, start, end);
    assert w == WindowedHits(searches[..k], strptime, start, end) + [filtered];
    assert w[..|w| - 1] == WindowedHits(searches[..k], strptime, start, end);
  }

  function LinksOf(s: seq<NewsItem>): set<string>
  {
    set i | 0 <= i < |s| :: s[i].link
  }

  /** The inner loop of run_sample over one keyword's windowed hits. */
  method AppendNewLinks(done: seq<NewsItem>, allNews: seq<NewsItem>, seenLinks: set<string>, filtered: seq<NewsItem>)
    returns (allNews': seq<NewsItem>, seenLinks': set<string>)
    requires allNews == Greedy(done, SampleLinkKeep) && seenLinks == LinksOf(allNews)
    ensures allNews' == Greedy(done + filtered, SampleLinkKeep) && seenLinks' == LinksOf(allNews')
  {
    allNews', seenLinks' := allNews, seenLinks;
    var j := 0;
    assert done + filtered[..0] == done;
    while j < |filtered|
      invariant 0 <= j <= |filtered|
      invariant allNews' == Greedy(done + filtered[..j], SampleLinkKeep)
      invariant seenLinks' == LinksOf(allNews')
    {
      var n := filtered[j];
      var link := n.link;
      AppendStep(done, filtered, j);
      SeenStep(allNews', n);
      if link != [] && link !in seenLinks' {
        seenLinks' := seenLinks' + {link};
        allNews' := allNews' + [n];
      }
      assert allNews' == Greedy(done + filtered[..j + 1], SampleLinkKeep);
      j := j + 1;
    }
    assert filtered[..|filtered|] == filtered;
  }

  /** One more windowed hit: the greedy pass decides on it alone. */
  lemma AppendStep(done: seq<NewsItem>, filtered: seq<NewsItem>, j: nat)
    requires j < |filtered|
    ensures var acc := Greedy(done + filtered[..j], SampleLinkKeep);
      Greedy(done + filtered[..j + 1], SampleLinkKeep) == if SampleLinkKeep(acc, filtered[j]) then acc + [filtered[j]] else acc
  {
    assert done + filtered[..j + 1] == (done + filtered[..j]) + [filtered[j]];
    GreedySnoc(done + filtered[..j], filtered[j], SampleLinkKeep);
  }

  lemma SeenStep(acc: seq<NewsItem>, x: NewsItem)
    ensures SampleLinkKeep(acc, x) <==> x.link != [] && x.link !in LinksOf(acc)
    ensures LinksOf(acc + [x]) == LinksOf(acc) + {x.link}
  {
    var r := acc + [x];
    assert forall i :: 0 <= i < |acc| ==> r[i] == acc[i];
    assert r[|acc|] == x;
  }

  /** The collected sample has distinct, non-empty links and every item came from some windowed hit list. */
  lemma CollectedDistinct(searches: seq<Option<seq<NewsItem>>>, strptime: string -> Option<int>, start: int, end: int)
    ensures var r := CollectSpec(searches, strptime, start, end);
      (forall i, j :: 0 <= i < j < |r| ==> r[i].link != r[j].link)
      && (forall i :: 0 <= i < |r| ==> r[i].link != [] && r[i] in Flatten(WindowedHits(searches, strptime, start, end)))
  {
    var s := Flatten(WindowedHits(searches, strptime, start, end));
    var r := Greedy(s, SampleLinkKeep);
    forall j | 0 <= j < |r| ensures r[j].link != [] && forall i :: 0 <= i < j ==> r[i].link != r[j].link {
      GreedyAccepted(s, SampleLinkKeep, j);
      assert forall i :: 0 <= i < j ==> r[..j][i] == r[i];
    }
    GreedySubseq(s, SampleLinkKeep);
    SubseqMembers(r, s);
  }
}
