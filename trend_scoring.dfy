// Phase 3 of the trend ranking: rule-based keyword extraction, substring
// normalisation of keywords, time freshness, three-stage deduplication of news
// items and the weighted keyword tally that turns the surviving items into a
// ranked list of trend keywords.

module TrendScoring {
  import opened Util

  /** A Naver news search hit; a missing key reads as "". */
  datatype NewsItem = NewsItem(title: string, description: string, link: string, originallink: string, pubDate: string)

  /** `item.get("link", "") or item.get("originallink", "")` */
  function PrimaryLink(item: NewsItem): string
  {
    if item.link != [] then item.link else item.originallink
  }

  /** `item.get("originallink", "") or link` */
  function OriginLink(item: NewsItem): string
  {
    if item.originallink != [] then item.originallink else PrimaryLink(item)
  }

  // ---------------------------------------------------------------------------
  // Keyword extraction

  predicate IsHangul(c: char) { '가' <= c <= '힣' }

  predicate IsUpperLatin(c: char) { 'A' <= c <= 'Z' }

  predicate AllHangul(w: string) { forall i :: 0 <= i < |w| ==> IsHangul(w[i]) }

  predicate AllUpperLatin(w: string) { forall i :: 0 <= i < |w| ==> IsUpperLatin(w[i]) }

  const Stopwords: set<string> := {
    "오늘", "내일", "어제", "의", "이", "가", "을", "를", "은", "는", "에", "에서", "로", "으로",
    "와", "과", "도", "만", "까지", "부터", "보다", "같이", "그리고", "하지만", "최근", "현재",
    "대한", "관련", "통해", "국내", "개최", "정부", "시장"}

  /** The character class of the particle group of the stripping pattern. */
  const ParticleChars: set<char> := {
    '이', '가', '을', '를', '은', '는', '에', '서', '로', '으', '와', '과', '도', '만', '까', '지',
    '부', '터', '보', '다', '같'}

  predicate AllParticles(w: string) { forall i :: 0 <= i < |w| ==> w[i] in ParticleChars }

  /** The pattern `(Hangul+)(particle+)$`, matched from the start, can split `w` after `k` characters. */
  predicate SplitsAt(w: string, k: int)
  {
    1 <= k < |w| && AllHangul(w[..k]) && AllParticles(w[k..])
  }

  function GroupSearch(w: string, k: int): (m: Option<nat>)
    requires k < |w|
    ensures m.Some? ==> SplitsAt(w, m.value) && m.value <= k && forall j :: m.value < j <= k ==> !SplitsAt(w, j)
    ensures m.None? ==> forall j :: j <= k ==> !SplitsAt(w, j)
    decreases k
  {
    if k < 1 then None else if SplitsAt(w, k) then Some(k) else GroupSearch(w, k - 1)
  }

  /**
   * Length of the first group when the stripping pattern matches `w`: the
   * greedy first group is the longest split the rest of the pattern accepts.
   */
  function ParticleMatch(w: string): (m: Option<nat>)
    ensures m.Some? ==> SplitsAt(w, m.value) && forall j :: m.value < j < |w| ==> !SplitsAt(w, j)
    ensures m.None? ==> forall j :: !SplitsAt(w, j)
  {
    GroupSearch(w, |w| - 1)
  }

  /** The pattern matches exactly all-Hangul words of two or more characters ending in a particle, and its greedy first group drops exactly one character. */
  lemma ParticleStripsOneChar(w: string)
    ensures ParticleMatch(w).Some? <==> |w| >= 2 && AllHangul(w) && w[|w| - 1] in ParticleChars
    ensures ParticleMatch(w).Some? ==> ParticleMatch(w).value == |w| - 1
  {
    var m := ParticleMatch(w);
    if |w| >= 2 && AllHangul(w) && w[|w| - 1] in ParticleChars {
      assert SplitsAt(w, |w| - 1);
    }
    if m.Some? {
      var k := m.value;
      assert forall i :: 0 <= i < |w| - k ==> w[k..][i] in ParticleChars;
      forall i | 0 <= i < |w| ensures IsHangul(w[i]) {
        if i < k { assert w[..k][i] == w[i]; } else { assert w[k..][i - k] == w[i]; }
      }
      assert w[k..][|w| - 1 - k] == w[|w| - 1];
      assert w[|w| - 1..] == [w[|w| - 1]];
      assert SplitsAt(w, |w| - 1);
    }
  }

  /** The word after the particle group, if any, is removed. */
  function StripParticle(w: string): string
  {
    match ParticleMatch(w)
    case Some(k) => w[..k]
    case None => w
  }

  /** A kept token: Hangul of two or more characters that is not a stopword, or three or more capital Latin letters. */
  predicate IsKeyword(w: string)
  {
    (|w| >= 2 && AllHangul(w) && w !in Stopwords) || (|w| >= 3 && AllUpperLatin(w))
  }

  /** `re.sub(r"<[^>]+>", "", s)`: a '<', one or more characters other than '>', then '>'. */
  function StripTags(s: string): (r: string)
    ensures |r| <= |s|
    ensures IsSubseq(r, s)
    ensures '<' !in s ==> r == s
    decreases |s|
  {
    if s == [] then []
    else if s[0] == '<' then
      match IndexOf(s[1..], '>')
      case Some(j) =>
        if j >= 1 then
          var r := StripTags(s[j + 2..]);
          SubseqDropPrefix(r, s[..j + 2], s[j + 2..]);
          assert s[..j + 2] + s[j + 2..] == s;
          r
        else
          SubseqCons(StripTags(s[1..]), s);
          ['<'] + StripTags(s[1..])
      case None =>
        SubseqCons(StripTags(s[1..]), s);
        ['<'] + StripTags(s[1..])
    else
      SubseqCons(StripTags(s[1..]), s);
      [s[0]] + StripTags(s[1..])
  }

  function StripAll(ws: seq<string>): (r: seq<string>)
    ensures |r| == |ws|
    ensures forall i :: 0 <= i < |ws| ==> r[i] == StripParticle(ws[i])
  {
    if ws == [] then [] else StripAll(ws[..|ws| - 1]) + [StripParticle(ws[|ws| - 1])]
  }

  /** The keywords kept from a token list, in token order. */
  function KeywordsOfWords(ws: seq<string>): (r: seq<string>)
    ensures forall i :: 0 <= i < |r| ==> IsKeyword(r[i])
    ensures IsSubseq(r, StripAll(ws))
  {
    if ws == [] then []
    else
      var p := KeywordsOfWords(ws[..|ws| - 1]);
      var w := StripParticle(ws[|ws| - 1]);
      assert StripAll(ws) == StripAll(ws[..|ws| - 1]) + [w];
      if IsKeyword(w) then
        SubseqKeepLast(p, StripAll(ws[..|ws| - 1]), w);
        p + [w]
      else
        SubseqDropLast(p, StripAll(ws[..|ws| - 1]), w);
        p
  }

  /**
   * The kept tokens are exactly the keyword tokens among the stripped ones, in token order:
   * no keyword token is lost.
   */
  lemma {:induction false} KeywordsOfWordsExact(ws: seq<string>)
    ensures KeywordsOfWords(ws) == Filter(StripAll(ws), IsKeyword)
    ensures forall i :: 0 <= i < |ws| && IsKeyword(StripParticle(ws[i])) ==> StripParticle(ws[i]) in KeywordsOfWords(ws)
  {
    var stripped := StripAll(ws);
    if ws != [] {
      KeywordsOfWordsExact(ws[..|ws| - 1]);
      assert stripped[..|stripped| - 1] == StripAll(ws[..|ws| - 1]);
    }
    FilterExact(stripped, IsKeyword);
    forall i | 0 <= i < |ws| && IsKeyword(StripParticle(ws[i])) ensures StripParticle(ws[i]) in KeywordsOfWords(ws) {
      assert stripped[i] == StripParticle(ws[i]);
    }
  }

  function KeywordsOf(text: string): seq<string>
  {
    KeywordsOfWords(Words(StripTags(text)))
  }

  lemma KeywordsOfWordsStep(ws: seq<string>, i: nat)
    requires i < |ws|
    ensures KeywordsOfWords(ws[..i + 1])
      == KeywordsOfWords(ws[..i]) + (if IsKeyword(StripParticle(ws[i])) then [StripParticle(ws[i])] else [])
  {
    assert ws[..i + 1][..i] == ws[..i];
  }

  /** extract_keywords_from_text */
  method ExtractKeywords(text: string) returns (keywords: seq<string>)
    ensures keywords == KeywordsOf(text)
    ensures forall i :: 0 <= i < |keywords| ==> IsKeyword(keywords[i])
  {
    var words := Words(StripTags(text));
    keywords := [];
    var i := 0;
    while i < |words|
      invariant 0 <= i <= |words|
      invariant keywords == KeywordsOfWords(words[..i])
    {
      var w := words[i];
      var m := ParticleMatch(w);
      if m.Some? {
        w := w[..m.value];
      }
      assert w == StripParticle(words[i]);
      KeywordsOfWordsStep(words, i);
      if IsKeyword(w) {
        keywords := keywords + [w];
      }
      i := i + 1;
    }
    assert words[..|words|] == words;
  }

  // ---------------------------------------------------------------------------
  // Keyword normalisation

  function Len(w: string): int { |w| }

  lemma {:induction false} SortedByLenGlobal(s: seq<string>, i: int, j: int)
    requires SortedDesc(s, Len, IntLess)
    requires 0 <= i <= j < |s|
    ensures |s[j]| <= |s[i]|
    decreases j - i
  {
    if i < j {
      SortedByLenGlobal(s, i + 1, j);
    }
  }

  /** Some kept keyword strictly contains `kw`. */
  predicate InsideSome(kept: seq<string>, kw: string)
  {
    exists e :: e in kept && Contains(e, kw) && kw != e
  }

  /** The kept keywords that `kw` strictly contains (`to_remove`). */
  function InsideOf(kept: seq<string>, kw: string): (r: seq<string>)
    ensures forall i :: 0 <= i < |r| ==> r[i] in kept && Contains(kw, r[i]) && r[i] != kw
  {
    if kept == [] then []
    else
      var p := InsideOf(kept[..|kept| - 1], kw);
      var e := kept[|kept| - 1];
      if Contains(kw, e) && e != kw then p + [e] else p
  }

  /** Python's `list.remove(x)`: drops the first occurrence. */
  function RemoveFirst(s: seq<string>, x: string): seq<string>
  {
    if s == [] then [] else if s[0] == x then s[1..] else [s[0]] + RemoveFirst(s[1..], x)
  }

  /** No kept keyword occurs inside another kept keyword. */
  predicate SubstringFree(kept: seq<string>)
  {
    forall i, j :: 0 <= i < |kept| && 0 <= j < |kept| && i != j ==> !Contains(kept[j], kept[i])
  }

  /** The inner scan of normalize_keywords: is `kw` strictly inside a kept keyword? */
  method IsContained(normalized: seq<string>, kw: string) returns (isContained: bool)
    ensures isContained == InsideSome(normalized, kw)
  {
    isContained := false;
    var j := 0;
    while j < |normalized|
      invariant 0 <= j <= |normalized|
      invariant !exists e :: e in normalized[..j] && Contains(e, kw) && kw != e
    {
      assert normalized[..j + 1] == normalized[..j] + [normalized[j]];
      if Contains(normalized[j], kw) && kw != normalized[j] {
        return true;
      }
      j := j + 1;
    }
    assert normalized[..j] == normalized;
  }

  /** Appending a keyword no longer than any kept one, and inside none of them, keeps the list substring-free. */
  lemma AppendShorter(normalized: seq<string>, kw: string)
    requires SubstringFree(normalized)
    requires forall i :: 0 <= i < |normalized| ==> |kw| <= |normalized[i]|
    requires kw !in normalized && !InsideSome(normalized, kw)
    ensures SubstringFree(normalized + [kw])
  {
    var r := normalized + [kw];
    forall i, j | 0 <= i < |r| && 0 <= j < |r| && i != j ensures !Contains(r[j], r[i]) {
      if j == |normalized| {
        if Contains(kw, r[i]) { ContainsLength(kw, r[i]); }
      } else if i == |normalized| {
        assert r[j] in normalized;
      }
    }
  }

  /** `for rm in to_remove: normalized.remove(rm)` */
  function RemoveEach(s: seq<string>, rms: seq<string>): seq<string>
    decreases |rms|
  {
    if rms == [] then s else RemoveEach(RemoveFirst(s, rms[0]), rms[1..])
  }

  /** Since keywords arrive longest first, `to_remove` is always empty. */
  lemma NothingInsideShorter(kept: seq<string>, kw: string)
    requires forall i :: 0 <= i < |kept| ==> |kw| <= |kept[i]|
    ensures InsideOf(kept, kw) == []
  {
    if kept != [] {
      NothingInsideShorter(kept[..|kept| - 1], kw);
      var e := kept[|kept| - 1];
      if Contains(kw, e) { ContainsLength(kw, e); }
    }
  }

  /** What the first `n` iterations of normalize_keywords have established. */
  ghost predicate NormalizedUpTo(sortedKw: seq<string>, n: int, normalized: seq<string>)
  {
    0 <= n <= |sortedKw|
    && (forall i :: 0 <= i < |normalized| ==> normalized[i] in sortedKw[..n])
    && NoDup(normalized)
    && SubstringFree(normalized)
    && (forall i :: 0 <= i < n ==> sortedKw[i] in normalized || InsideSome(normalized, sortedKw[i]))
  }

  lemma NormalizeStep(sortedKw: seq<string>, n: int, normalized: seq<string>)
    requires SortedDesc(sortedKw, Len, IntLess) && NoDup(sortedKw)
    requires n < |sortedKw| && NormalizedUpTo(sortedKw, n, normalized)
    ensures InsideOf(normalized, sortedKw[n]) == []
    ensures NormalizedUpTo(sortedKw, n + 1,
      if InsideSome(normalized, sortedKw[n]) then normalized else normalized + [sortedKw[n]])
  {
    var kw := sortedKw[n];
    forall i | 0 <= i < |normalized| ensures |kw| <= |normalized[i]| {
      assert normalized[i] in sortedKw[..n];
      var k :| 0 <= k < n && sortedKw[..n][k] == normalized[i];
      SortedByLenGlobal(sortedKw, k, n);
    }
    NothingInsideShorter(normalized, kw);
    if !InsideSome(normalized, kw) {
      forall i | 0 <= i < |normalized| ensures normalized[i] != kw {
        assert normalized[i] in sortedKw[..n];
        var k :| 0 <= k < n && sortedKw[..n][k] == normalized[i];
      }
      AppendShorter(normalized, kw);
      StepAppend(sortedKw, n, normalized);
    } else {
      StepSkip(sortedKw, n, normalized);
    }
  }

  lemma StepSkip(sortedKw: seq<string>, n: int, normalized: seq<string>)
    requires n < |sortedKw| && NormalizedUpTo(sortedKw, n, normalized)
    requires InsideSome(normalized, sortedKw[n])
    ensures NormalizedUpTo(sortedKw, n + 1, normalized)
  {
    assert sortedKw[..n + 1] == sortedKw[..n] + [sortedKw[n]];
  }

  lemma StepAppend(sortedKw: seq<string>, n: int, normalized: seq<string>)
    requires n < |sortedKw| && NormalizedUpTo(sortedKw, n, normalized)
    requires sortedKw[n] !in normalized && SubstringFree(normalized + [sortedKw[n]])
    ensures NormalizedUpTo(sortedKw, n + 1, normalized + [sortedKw[n]])
  {
    var kw := sortedKw[n];
    var next := normalized + [kw];
    assert sortedKw[..n + 1] == sortedKw[..n] + [kw];
    forall i | 0 <= i < n + 1 ensures sortedKw[i] in next || InsideSome(next, sortedKw[i]) {
      if i < n && sortedKw[i] !in normalized {
        var e :| e in normalized && Contains(e, sortedKw[i]) && sortedKw[i] != e;
        assert e in next;
      }
    }
  }

  lemma NoDupPermutation(a: seq<string>, b: seq<string>)
    requires NoDup(b) && multiset(a) == multiset(b)
    ensures NoDup(a)
  {
    forall m, n | 0 <= m < n < |a| ensures a[m] != a[n] {
      if a[m] == a[n] {
        var x := a[m];
        assert a == a[..m] + [x] + a[m + 1..];
        assert multiset(a) == multiset(a[..m]) + multiset{x} + multiset(a[m + 1..]);
        assert a[m + 1..][n - m - 1] == x;
        assert multiset(a)[x] >= 2;
        NoDupCount(b, x);
      }
    }
  }

  lemma {:induction false} NoDupCount(s: seq<string>, x: string)
    requires NoDup(s)
    ensures multiset(s)[x] <= 1
  {
    if s != [] {
      var p := s[..|s| - 1];
      assert s == p + [s[|s| - 1]];
      assert NoDup(p);
      NoDupCount(p, x);
      if s[|s| - 1] == x {
        assert x !in p;
      }
    }
  }

  /**
   * normalize_keywords: the distinct input keywords, longest first, where a
   * keyword strictly contained in an already kept one is dropped.
   */
  method NormalizeKeywords(keywordList: seq<string>) returns (normalized: seq<string>)
    ensures keywordList == [] ==> normalized == []
    ensures NoDup(normalized)
    ensures forall i :: 0 <= i < |normalized| ==> normalized[i] in keywordList
    ensures SubstringFree(normalized)
    ensures forall i :: 0 <= i < |keywordList| ==> keywordList[i] in normalized || InsideSome(normalized, keywordList[i])
  {
    if keywordList == [] {
      return [];
    }
    var distinct := Dedup(keywordList);
    var sortedKw := SortDesc(distinct, Len, IntLess);
    IntLessAsym();
    SortDescSorted(distinct, Len, IntLess);
    NoDupPermutation(sortedKw, distinct);
    normalized := [];
    var n := 0;
    while n < |sortedKw|
      invariant NormalizedUpTo(sortedKw, n, normalized)
    {
      var kw := sortedKw[n];
      NormalizeStep(sortedKw, n, normalized);
      var isContained := IsContained(normalized, kw);
      var toRemove := InsideOf(normalized, kw);
      normalized := RemoveEach(normalized, toRemove);
      if !isContained {
        normalized := normalized + [kw];
      }
      n := n + 1;
    }
    SameMembers(keywordList, distinct, sortedKw, normalized);
  }

  lemma SameMembers(keywordList: seq<string>, distinct: seq<string>, sortedKw: seq<string>, normalized: seq<string>)
    requires distinct == Dedup(keywordList) && multiset(sortedKw) == multiset(distinct)
    requires NormalizedUpTo(sortedKw, |sortedKw|, normalized)
    ensures forall i :: 0 <= i < |normalized| ==> normalized[i] in keywordList
    ensures forall i :: 0 <= i < |keywordList| ==> keywordList[i] in normalized || InsideSome(normalized, keywordList[i])
  {
    assert sortedKw[..|sortedKw|] == sortedKw;
    DedupMembers(keywordList);
    forall i | 0 <= i < |normalized| ensures normalized[i] in keywordList {
      assert normalized[i] in multiset(distinct);
    }
    forall i | 0 <= i < |keywordList| ensures keywordList[i] in normalized || InsideSome(normalized, keywordList[i]) {
      assert keywordList[i] in distinct;
      assert keywordList[i] in multiset(sortedKw);
    }
  }

  // ---------------------------------------------------------------------------
  // Freshness

  /** compute_time_freshness on the age `now - pub_date` in seconds. */
  function TimeFreshness(ageSeconds: int): (f: real)
    ensures f == 1.0 || f == 0.7 || f == 0.4 || f == 0.1
  {
    var hours := ageSeconds as real / 3600.0;
    if hours <= 6.0 then 1.0
    else if hours <= 12.0 then 0.7
    else if hours <= 24.0 then 0.4
    else 0.1
  }

  /** Older news is never fresher. */
  lemma FreshnessNonIncreasing(younger: int, older: int)
    requires younger <= older
    ensures TimeFreshness(older) <= TimeFreshness(younger)
  {
  }

  /** parse_pubdate: the text before " +" read by `strptime`, which may fail. */
  function ParsePubdate(item: NewsItem, strptime: string -> Option<int>): Option<int>
  {
    strptime(BeforeFirst(item.pubDate, " +"))
  }

  /** Freshness of an item, 0.5 when its date does not parse. */
  function ItemFreshness(item: NewsItem, strptime: string -> Option<int>, now: int): (f: real)
    ensures ParsePubdate(item, strptime).None? ==> f == 0.5
    ensures ParsePubdate(item, strptime).Some? ==> f == TimeFreshness(now - ParsePubdate(item, strptime).value)
  {
    match ParsePubdate(item, strptime)
    case None => 0.5
    case Some(t) => TimeFreshness(now - t)
  }

  // ---------------------------------------------------------------------------
  // Deduplication

  /** extract_domain */
  function ExtractDomain(link: string): (d: string)
    ensures link == [] ==> d == []
    ensures '/' !in d
  {
    if link == [] then []
    else SplitOn(ReplaceAll(ReplaceAll(link, "http://", ""), "https://", ""), '/')[0]
  }

  function Domain(item: NewsItem): string { ExtractDomain(PrimaryLink(item)) }

  function LinkKeep(acc: seq<NewsItem>, x: NewsItem): bool
  {
    PrimaryLink(x) != [] && forall j :: 0 <= j < |acc| ==> PrimaryLink(acc[j]) != PrimaryLink(x)
  }

  function TitleKeep(sim: (string, string) -> real): (seq<NewsItem>, NewsItem) -> bool
  {
    (acc: seq<NewsItem>, x: NewsItem) => forall j :: 0 <= j < |acc| ==> sim(x.title, acc[j].title) < 0.8
  }

  const MaxNewsPerSource := 3

  function DomainCount(acc: seq<NewsItem>, d: string): nat
  {
    KeyCount(acc, Domain, d)
  }

  /** Stage 3 keeps an item while fewer than MaxNewsPerSource kept items share its domain. */
  const DomainKeep: (seq<NewsItem>, NewsItem) -> bool := CapKeep(Domain, MaxNewsPerSource)

  /** The three stages of remove_duplicate_news, each a greedy pass over the previous one's output. */
  function DedupSpec(items: seq<NewsItem>, sim: (string, string) -> real): seq<NewsItem>
  {
    Greedy(Greedy(Greedy(items, LinkKeep), TitleKeep(sim)), DomainKeep)
  }

  function LinkSet(s: seq<NewsItem>): set<string>
  {
    set i | 0 <= i < |s| :: PrimaryLink(s[i])
  }

  lemma LinkSetStep(acc: seq<NewsItem>, x: NewsItem)
    ensures LinkKeep(acc, x) <==> PrimaryLink(x) != [] && PrimaryLink(x) !in LinkSet(acc)
    ensures LinkSet(acc + [x]) == LinkSet(acc) + {PrimaryLink(x)}
  {
    var r := acc + [x];
    assert forall i :: 0 <= i < |acc| ==> r[i] == acc[i];
    assert r[|acc|] == x;
    if PrimaryLink(x) in LinkSet(acc) {
      var i :| 0 <= i < |acc| && PrimaryLink(acc[i]) == PrimaryLink(x);
    }
  }

  /** Stage 1 of remove_duplicate_news: the first item per non-empty link. */
  method DedupByLink(newsList: seq<NewsItem>) returns (byLink: seq<NewsItem>)
    ensures byLink == Greedy(newsList, LinkKeep)
  {
    var seenLinks: set<string> := {};
    byLink := [];
    var i := 0;
    while i < |newsList|
      invariant 0 <= i <= |newsList|
      invariant byLink == Greedy(newsList[..i], LinkKeep)
      invariant seenLinks == LinkSet(byLink)
    {
      var item := newsList[i];
      var link := PrimaryLink(item);
      LinkLoopStep(newsList, i, byLink);
      if link != [] && link !in seenLinks {
        seenLinks := seenLinks + {link};
        byLink := byLink + [item];
      }
      i := i + 1;
    }
    assert newsList[..|newsList|] == newsList;
  }

  /** One iteration of stage 1, seen through the set of kept links. */
  lemma LinkLoopStep(s: seq<NewsItem>, i: nat, acc: seq<NewsItem>)
    requires i < |s| && acc == Greedy(s[..i], LinkKeep)
    ensures Greedy(s[..i + 1], LinkKeep)
      == if PrimaryLink(s[i]) != [] && PrimaryLink(s[i]) !in LinkSet(acc) then acc + [s[i]] else acc
    ensures LinkSet(acc + [s[i]]) == LinkSet(acc) + {PrimaryLink(s[i])}
  {
    GreedyStep(s, i, LinkKeep);
    LinkSetStep(acc, s[i]);
  }

  /** Stage 2: an item is dropped when its title is 80% similar to an already kept one. */
  method DedupByTitle(byLink: seq<NewsItem>, sim: (string, string) -> real) returns (byTitle: seq<NewsItem>)
    ensures byTitle == Greedy(byLink, TitleKeep(sim))
  {
    byTitle := [];
    var i := 0;
    while i < |byLink|
      invariant 0 <= i <= |byLink|
      invariant byTitle == Greedy(byLink[..i], TitleKeep(sim))
    {
      var item := byLink[i];
      var isDuplicate := IsTitleDuplicate(item, byTitle, sim);
      GreedyStep(byLink, i, TitleKeep(sim));
      if !isDuplicate {
        byTitle := byTitle + [item];
      }
      i := i + 1;
    }
    assert byLink[..|byLink|] == byLink;
  }

  /** The inner loop of stage 2: is the title 80% similar to a kept one? */
  method IsTitleDuplicate(item: NewsItem, kept: seq<NewsItem>, sim: (string, string) -> real) returns (isDuplicate: bool)
    ensures isDuplicate <==> !TitleKeep(sim)(kept, item)
  {
    isDuplicate := false;
    var j := 0;
    while j < |kept|
      invariant 0 <= j <= |kept|
      invariant !isDuplicate
      invariant forall k :: 0 <= k < j ==> sim(item.title, kept[k].title) < 0.8
    {
      if sim(item.title, kept[j].title) >= 0.8 {
        isDuplicate := true;
        return;
      }
      j := j + 1;
    }
  }

  /** Stage 3: at most MaxNewsPerSource items per domain. */
  method CapPerDomain(byTitle: seq<NewsItem>) returns (finalNews: seq<NewsItem>)
    ensures finalNews == Greedy(byTitle, DomainKeep)
  {
    finalNews := CapByKey(byTitle, Domain, MaxNewsPerSource);
  }

  /** The stage 3 loop, with the domain function and the cap as parameters. */
  method CapByKey(byTitle: seq<NewsItem>, domainOf: NewsItem -> string, cap: nat) returns (finalNews: seq<NewsItem>)
    ensures finalNews == Greedy(byTitle, CapKeep(domainOf, cap))
  {
    var sourceCount: map<string, nat> := map[];
    finalNews := [];
    var i := 0;
    while i < |byTitle|
      invariant 0 <= i <= |byTitle|
      invariant finalNews == Greedy(byTitle[..i], CapKeep(domainOf, cap))
      invariant sourceCount == KeyCounts(finalNews, domainOf)
    {
      finalNews, sourceCount := CapOne(byTitle, i, domainOf, cap, finalNews, sourceCount);
      i := i + 1;
    }
    assert byTitle[..|byTitle|] == byTitle;
  }

  /** One iteration of stage 3: keep the item while its domain's count is below the cap, and count it. */
  method CapOne(byTitle: seq<NewsItem>, i: nat, domainOf: NewsItem -> string, cap: nat,
                kept: seq<NewsItem>, sourceCount: map<string, nat>)
    returns (kept': seq<NewsItem>, sourceCount': map<string, nat>)
    requires i < |byTitle| && kept == Greedy(byTitle[..i], CapKeep(domainOf, cap))
    requires sourceCount == KeyCounts(kept, domainOf)
    ensures kept' == Greedy(byTitle[..i + 1], CapKeep(domainOf, cap))
    ensures sourceCount' == KeyCounts(kept', domainOf)
  {
    var item := byTitle[i];
    var domain := domainOf(item);
    var c := if domain in sourceCount then sourceCount[domain] else 0;
    CapLoopStep(byTitle, i, domainOf, cap, kept);
    kept', sourceCount' := kept, sourceCount;
    if c < cap {
      sourceCount' := sourceCount[domain := c + 1];
      kept' := kept + [item];
    }
  }

  /** remove_duplicate_news */
  method RemoveDuplicateNews(newsList: seq<NewsItem>, sim: (string, string) -> real) returns (finalNews: seq<NewsItem>)
    ensures finalNews == DedupSpec(newsList, sim)
  {
    if newsList == [] {
      return [];
    }
    var byLink := DedupByLink(newsList);
    var byTitle := DedupByTitle(byLink, sim);
    finalNews := CapPerDomain(byTitle);
  }

  /** The deduplicated list is the input with some items deleted, in input order. */
  lemma DedupIsSubsequence(items: seq<NewsItem>, sim: (string, string) -> real)
    ensures IsSubseq(DedupSpec(items, sim), items)
  {
    var s1 := Greedy(items, LinkKeep);
    var s2 := Greedy(s1, TitleKeep(sim));
    GreedySubseq(items, LinkKeep);
    GreedySubseq(s1, TitleKeep(sim));
    GreedySubseq(s2, DomainKeep);
    SubseqTrans(s2, s1, items);
    SubseqTrans(DedupSpec(items, sim), s2, items);
  }

  function DistinctLinks(a: NewsItem, b: NewsItem): bool
  {
    PrimaryLink(a) != [] && PrimaryLink(b) != [] && PrimaryLink(a) != PrimaryLink(b)
  }

  function Dissimilar(sim: (string, string) -> real): (NewsItem, NewsItem) -> bool
  {
    (earlier: NewsItem, later: NewsItem) => sim(later.title, earlier.title) < 0.8
  }

  lemma {:induction false} LinkStagePairwise(s: seq<NewsItem>)
    ensures Pairwise(Greedy(s, LinkKeep), DistinctLinks)
    ensures forall k :: 0 <= k < |Greedy(s, LinkKeep)| ==> PrimaryLink(Greedy(s, LinkKeep)[k]) != []
  {
    var g := Greedy(s, LinkKeep);
    forall k | 0 <= k < |g| ensures PrimaryLink(g[k]) != [] && forall i :: 0 <= i < k ==> PrimaryLink(g[i]) != PrimaryLink(g[k]) {
      GreedyAccepted(s, LinkKeep, k);
      assert forall i :: 0 <= i < k ==> g[..k][i] == g[i];
    }
  }

  lemma {:induction false} TitleStagePairwise(s: seq<NewsItem>, sim: (string, string) -> real)
    ensures Pairwise(Greedy(s, TitleKeep(sim)), Dissimilar(sim))
  {
    var g := Greedy(s, TitleKeep(sim));
    forall i, k | 0 <= i < k < |g| ensures Dissimilar(sim)(g[i], g[k]) {
      GreedyAccepted(s, TitleKeep(sim), k);
      assert g[..k][i] == g[i];
    }
  }

  /** A link is kept at most once, and items with neither link nor originallink are dropped. */
  lemma DedupLinksDistinct(items: seq<NewsItem>, sim: (string, string) -> real)
    ensures forall i, j :: 0 <= i < j < |DedupSpec(items, sim)| ==>
      PrimaryLink(DedupSpec(items, sim)[i]) != PrimaryLink(DedupSpec(items, sim)[j])
    ensures forall i :: 0 <= i < |DedupSpec(items, sim)| ==> PrimaryLink(DedupSpec(items, sim)[i]) != []
  {
    var s1 := Greedy(items, LinkKeep);
    var s2 := Greedy(s1, TitleKeep(sim));
    var r := DedupSpec(items, sim);
    LinkStagePairwise(items);
    GreedySubseq(s1, TitleKeep(sim));
    GreedySubseq(s2, DomainKeep);
    SubseqTrans(r, s2, s1);
    PairwiseSubseq(r, s1, DistinctLinks);
    SubseqMembers(r, s1);
    forall i | 0 <= i < |r| ensures PrimaryLink(r[i]) != [] {
      assert r[i] in s1;
    }
  }

  /** No later kept title is 80% similar to an earlier kept one: the earlier item wins. */
  lemma DedupTitlesDissimilar(items: seq<NewsItem>, sim: (string, string) -> real)
    ensures forall i, j :: 0 <= i < j < |DedupSpec(items, sim)| ==>
      sim(DedupSpec(items, sim)[j].title, DedupSpec(items, sim)[i].title) < 0.8
  {
    var s1 := Greedy(items, LinkKeep);
    var s2 := Greedy(s1, TitleKeep(sim));
    var r := DedupSpec(items, sim);
    TitleStagePairwise(s1, sim);
    GreedySubseq(s2, DomainKeep);
    PairwiseSubseq(r, s2, Dissimilar(sim));
    forall i, j | 0 <= i < j < |r| ensures sim(r[j].title, r[i].title) < 0.8 {
      assert Dissimilar(sim)(r[i], r[j]);
    }
  }

  /** At most three kept items share a domain. */
  lemma DedupDomainCap(items: seq<NewsItem>, sim: (string, string) -> real, d: string)
    ensures DomainCount(DedupSpec(items, sim), d) <= 3
  {
    CapBound(Greedy(Greedy(items, LinkKeep), TitleKeep(sim)), Domain, MaxNewsPerSource, d);
  }

  /** The first item carrying a non-empty link survives the link stage. */
  lemma {:induction false} LinkStageKeepsFirst(s: seq<NewsItem>, i: nat)
    requires i < |s| && PrimaryLink(s[i]) != []
    requires forall j :: 0 <= j < i ==> PrimaryLink(s[j]) != PrimaryLink(s[i])
    ensures s[i] in Greedy(s, LinkKeep)
    decreases |s|
  {
    var p := s[..|s| - 1];
    var acc := Greedy(p, LinkKeep);
    if i < |s| - 1 {
      LinkStageKeepsFirst(p, i);
    } else {
      forall j | 0 <= j < |acc| ensures PrimaryLink(acc[j]) != PrimaryLink(s[i]) {
        GreedySubseq(p, LinkKeep);
        SubseqMembers(acc, p);
        assert acc[j] in p;
      }
    }
  }

  // ---------------------------------------------------------------------------
  // Keyword tally and ranking

  /** The counters of analyze_trends: `freq` (with its insertion order), `news_mapping`, `source_mapping`, `freshness_mapping`. */
  datatype Tally = Tally(order: seq<string>, freq: map<string, int>, news: map<string, seq<NewsItem>>,
                         sources: map<string, set<string>>, freshness: map<string, seq<real>>)

  const EmptyTally := Tally([], map[], map[], map[], map[])

  function Freq(t: Tally, kw: string): int
  {
    if kw in t.freq then t.freq[kw] else 0
  }

  function Related(t: Tally, kw: string): seq<NewsItem>
  {
    if kw in t.news then t.news[kw] else []
  }

  /** One keyword occurrence of weight `weight` in `item`. */
  function AddOccurrence(t: Tally, kw: string, weight: int, item: NewsItem, f: real): Tally
  {
    var related := Related(t, kw);
    Tally(if kw in t.freq then t.order else t.order + [kw],
          t.freq[kw := Freq(t, kw) + weight],
          t.news[kw := if item in related then related else related + [item]],
          t.sources[kw := (if kw in t.sources then t.sources[kw] else {}) + {OriginLink(item)}],
          t.freshness[kw := (if kw in t.freshness then t.freshness[kw] else []) + [f]])
  }

  function AddAll(t: Tally, kws: seq<string>, weight: int, item: NewsItem, f: real): Tally
  {
    if kws == [] then t else AddOccurrence(AddAll(t, kws[..|kws| - 1], weight, item, f), kws[|kws| - 1], weight, item, f)
  }

  /** Title keywords weigh 3 and description keywords 1. */
  function AddItem(t: Tally, item: NewsItem, strptime: string -> Option<int>, now: int): Tally
  {
    var f := ItemFreshness(item, strptime, now);
    AddAll(AddAll(t, KeywordsOf(item.title), 3, item, f), KeywordsOf(item.description), 1, item, f)
  }

  function TallyOf(items: seq<NewsItem>, strptime: string -> Option<int>, now: int): Tally
  {
    if items == [] then EmptyTally else AddItem(TallyOf(items[..|items| - 1], strptime, now), items[|items| - 1], strptime, now)
  }

  /** 3 per title occurrence plus 1 per description occurrence, over all items. */
  function WeightedCount(items: seq<NewsItem>, kw: string): int
  {
    if items == [] then 0
    else
      var x := items[|items| - 1];
      WeightedCount(items[..|items| - 1], kw) + 3 * Count(KeywordsOf(x.title), kw) + Count(KeywordsOf(x.description), kw)
  }

  /** The counters agree on their keys; every counted keyword has a related item and a freshness sample. */
  ghost predicate TallyValid(t: Tally)
  {
    NoDup(t.order)
    && (forall i :: 0 <= i < |t.order| ==> t.order[i] in t.freq)
    && (forall k :: k in t.freq ==> k in t.order)
    && (forall k :: k in t.freq ==> k in t.news && k in t.sources && k in t.freshness && t.news[k] != [] && t.freshness[k] != [])
    && (forall k :: k in t.news ==> NoDup(t.news[k]))
  }

  lemma AddOccurrenceValid(t: Tally, kw: string, weight: int, item: NewsItem, f: real)
    requires TallyValid(t)
    ensures TallyValid(AddOccurrence(t, kw, weight, item, f))
  {
    AddOccurrenceOrder(t, kw, weight, item, f);
    AddOccurrenceMaps(t, kw, weight, item, f);
  }

  lemma AddOccurrenceOrder(t: Tally, kw: string, weight: int, item: NewsItem, f: real)
    requires TallyValid(t)
    ensures var t' := AddOccurrence(t, kw, weight, item, f);
      NoDup(t'.order) && (forall i :: 0 <= i < |t'.order| ==> t'.order[i] in t'.freq)
      && (forall k :: k in t'.freq ==> k in t'.order)
  {
    var t' := AddOccurrence(t, kw, weight, item, f);
    if kw !in t.freq {
      assert kw !in t.order;
      assert t'.order == t.order + [kw];
      assert NoDup(t'.order);
    }
    forall k | k in t'.freq ensures k in t'.order {
      if k != kw { assert k in t.freq; }
    }
  }

  lemma AddOccurrenceMaps(t: Tally, kw: string, weight: int, item: NewsItem, f: real)
    requires TallyValid(t)
    ensures var t' := AddOccurrence(t, kw, weight, item, f);
      (forall k :: k in t'.freq ==> k in t'.news && k in t'.sources && k in t'.freshness && t'.news[k] != [] && t'.freshness[k] != [])
      && (forall k :: k in t'.news ==> NoDup(t'.news[k]))
  {
    var related := Related(t, kw);
    if item !in related {
      assert NoDup(related + [item]);
    }
  }

  lemma {:induction false} AddAllValid(t: Tally, kws: seq<string>, weight: int, item: NewsItem, f: real)
    requires TallyValid(t)
    ensures TallyValid(AddAll(t, kws, weight, item, f))
  {
    if kws != [] {
      AddAllValid(t, kws[..|kws| - 1], weight, item, f);
      AddOccurrenceValid(AddAll(t, kws[..|kws| - 1], weight, item, f), kws[|kws| - 1], weight, item, f);
    }
  }

  lemma AddOccurrenceFreq(t: Tally, k: string, weight: int, item: NewsItem, f: real, kw: string)
    ensures Freq(AddOccurrence(t, k, weight, item, f), kw) == Freq(t, kw) + (if k == kw then weight else 0)
  {
  }

  lemma {:induction false} AddAllFreq(t: Tally, kws: seq<string>, weight: int, item: NewsItem, f: real, kw: string)
    ensures Freq(AddAll(t, kws, weight, item, f), kw) == Freq(t, kw) + weight * Count(kws, kw)
  {
    if kws != [] {
      var p := kws[..|kws| - 1];
      var last := kws[|kws| - 1];
      var mid := AddAll(t, p, weight, item, f);
      AddAllFreq(t, p, weight, item, f, kw);
      AddOccurrenceFreq(mid, last, weight, item, f, kw);
      assert AddAll(t, kws, weight, item, f) == AddOccurrence(mid, last, weight, item, f);
      var c := Count(p, kw);
      assert Count(kws, kw) == c + (if last == kw then 1 else 0);
      MulStep(weight, c);
    }
  }

  lemma MulStep(w: int, c: int)
    ensures w * (c + 1) == w * c + w && w * (c + 0) == w * c
  {
  }

  lemma {:induction false} TallyOfValid(items: seq<NewsItem>, strptime: string -> Option<int>, now: int)
    ensures TallyValid(TallyOf(items, strptime, now))
  {
    if items != [] {
      var x := items[|items| - 1];
      var t := TallyOf(items[..|items| - 1], strptime, now);
      var f := ItemFreshness(x, strptime, now);
      TallyOfValid(items[..|items| - 1], strptime, now);
      AddAllValid(t, KeywordsOf(x.title), 3, x, f);
      AddAllValid(AddAll(t, KeywordsOf(x.title), 3, x, f), KeywordsOf(x.description), 1, x, f);
    }
  }

  /** A keyword's frequency is three times its title occurrences plus its description occurrences. */
  lemma {:induction false} TallyFrequency(items: seq<NewsItem>, strptime: string -> Option<int>, now: int, kw: string)
    ensures Freq(TallyOf(items, strptime, now), kw) == WeightedCount(items, kw)
  {
    if items != [] {
      var x := items[|items| - 1];
      var t := TallyOf(items[..|items| - 1], strptime, now);
      var f := ItemFreshness(x, strptime, now);
      TallyFrequency(items[..|items| - 1], strptime, now, kw);
      AddAllFreq(t, KeywordsOf(x.title), 3, x, f, kw);
      AddAllFreq(AddAll(t, KeywordsOf(x.title), 3, x, f), KeywordsOf(x.description), 1, x, f, kw);
    }
  }

  /** One ranked trend keyword. */
  datatype TrendResult = TrendResult(keyword: string, score: real, frequency: int, newsCount: nat,
                                     sourceCount: nat, avgFreshness: real, topNews: seq<NewsItem>)

  function PubDateKey(n: NewsItem): string { n.pubDate }

  function Score(t: TrendResult): real { t.score }

  /** The three most recent related items, newest pubDate string first. */
  function TopNews(related: seq<NewsItem>): seq<NewsItem>
  {
    Take(SortDesc(related, PubDateKey, StrLess), 3)
  }

  /** The result row for `kw`, or None when it is skipped (no related news, or frequency below 3). */
  function Candidate(t: Tally, kw: string): (r: Option<TrendResult>)
    ensures r.Some? ==> (r.value.keyword == kw && r.value.frequency == Freq(t, kw) && r.value.frequency >= 3
      && r.value.newsCount >= 1 && |r.value.topNews| <= 3
      && r.value.score == r.value.frequency as real * 0.4 + r.value.newsCount as real * 0.3
                          + r.value.sourceCount as real * 0.2 + r.value.avgFreshness * 0.1)
  {
    var related := Related(t, kw);
    if related == [] then None
    else
      var count := Freq(t, kw);
      var newsCount := |related|;
      var sourceCount := |if kw in t.sources then t.sources[kw] else {}|;
      var freshness := if kw in t.freshness then t.freshness[kw] else [0.5];
      var avg := if freshness != [] then SumReal(freshness) / |freshness| as real else 0.5;
      if newsCount < 1 || count < 3 then None
      else
        Some(TrendResult(kw, count as real * 0.4 + newsCount as real * 0.3 + sourceCount as real * 0.2 + avg * 0.1,
                         count, newsCount, sourceCount, avg, TopNews(related)))
  }

  function Candidates(t: Tally, kws: seq<string>): seq<TrendResult>
  {
    if kws == [] then []
    else
      var p := Candidates(t, kws[..|kws| - 1]);
      match Candidate(t, kws[|kws| - 1])
      case Some(c) => p + [c]
      case None => p
  }

  /** Every row passed the filters of Candidate for its own keyword. */
  lemma {:induction false} CandidatesPassed(t: Tally, kws: seq<string>)
    ensures forall i :: 0 <= i < |Candidates(t, kws)| ==> Candidate(t, Candidates(t, kws)[i].keyword) == Some(Candidates(t, kws)[i])
  {
    if kws != [] {
      CandidatesPassed(t, kws[..|kws| - 1]);
    }
  }

  function FreqOf(t: Tally): string -> int
  {
    (k: string) => Freq(t, k)
  }

  /** `freq.most_common()`: keywords by descending count, ties in insertion order. */
  function MostCommon(t: Tally): seq<string>
  {
    SortDesc(t.order, FreqOf(t), IntLess)
  }

  function AnalyzeSpec(newsList: seq<NewsItem>, sim: (string, string) -> real, strptime: string -> Option<int>, now: int): seq<TrendResult>
  {
    var t := TallyOf(DedupSpec(newsList, sim), strptime, now);
    SortDesc(Candidates(t, MostCommon(t)), Score, RealLess)
  }

  /** The inner loops of analyze_trends: one keyword list of one item, at one weight. */
  method TallyKeywords(t: Tally, kws: seq<string>, weight: int, item: NewsItem, freshness: real) returns (t': Tally)
    ensures t' == AddAll(t, kws, weight, item, freshness)
  {
    t' := t;
    var j := 0;
    while j < |kws|
      invariant 0 <= j <= |kws|
      invariant t' == AddAll(t, kws[..j], weight, item, freshness)
    {
      assert kws[..j + 1][..j] == kws[..j];
      t' := CountOccurrence(t', kws[j], weight, item, freshness);
      j := j + 1;
    }
    assert kws[..|kws|] == kws;
  }

  /** The body of the inner loops: bump every counter of `kw` for one occurrence in `item`. */
  method CountOccurrence(t: Tally, kw: string, weight: int, item: NewsItem, freshness: real) returns (t': Tally)
    ensures t' == AddOccurrence(t, kw, weight, item, freshness)
  {
    var order, freq, newsMapping, sourceMapping, freshnessMapping := t.order, t.freq, t.news, t.sources, t.freshness;
    if kw !in freq {
      order := order + [kw];
    }
    freq := freq[kw := (if kw in freq then freq[kw] else 0) + weight];
    var related := if kw in newsMapping then newsMapping[kw] else [];
    if item !in related {
      related := related + [item];
    }
    newsMapping := newsMapping[kw := related];
    sourceMapping := sourceMapping[kw := (if kw in sourceMapping then sourceMapping[kw] else {}) + {OriginLink(item)}];
    freshnessMapping := freshnessMapping[kw := (if kw in freshnessMapping then freshnessMapping[kw] else []) + [freshness]];
    t' := Tally(order, freq, newsMapping, sourceMapping, freshnessMapping);
  }

  /** The outer loop of analyze_trends over the deduplicated items. */
  method TallyNews(filtered: seq<NewsItem>, strptime: string -> Option<int>, now: int) returns (t: Tally)
    ensures t == TallyOf(filtered, strptime, now)
  {
    t := EmptyTally;
    var i := 0;
    while i < |filtered|
      invariant 0 <= i <= |filtered|
      invariant t == TallyOf(filtered[..i], strptime, now)
    {
      TallyOfStep(filtered, i, strptime, now);
      t := TallyItem(t, filtered[i], strptime, now);
      i := i + 1;
    }
    assert filtered[..|filtered|] == filtered;
  }

  lemma TallyOfStep(items: seq<NewsItem>, i: nat, strptime: string -> Option<int>, now: int)
    requires i < |items|
    ensures TallyOf(items[..i + 1], strptime, now) == AddItem(TallyOf(items[..i], strptime, now), items[i], strptime, now)
  {
    assert items[..i + 1][..i] == items[..i];
  }

  /** The body of the news loop: the title and description keywords of one item. */
  method TallyItem(t: Tally, item: NewsItem, strptime: string -> Option<int>, now: int) returns (t': Tally)
    ensures t' == AddItem(t, item, strptime, now)
  {
    var titleKws := ExtractKeywords(item.title);
    var descKws := ExtractKeywords(item.description);
    var freshness := ItemFreshness(item, strptime, now);
    t' := TallyKeywords(t, titleKws, 3, item, freshness);
    t' := TallyKeywords(t', descKws, 1, item, freshness);
  }

  /** The `most_common()` loop of analyze_trends: one row per keyword that passes the filters. */
  method RankKeywords(t: Tally) returns (candidates: seq<TrendResult>)
    ensures candidates == Candidates(t, MostCommon(t))
  {
    var mostCommon := SortDesc(t.order, FreqOf(t), IntLess);
    candidates := [];
    var k := 0;
    while k < |mostCommon|
      invariant 0 <= k <= |mostCommon|
      invariant candidates == Candidates(t, mostCommon[..k])
    {
      candidates := RankNext(t, mostCommon, k, candidates);
      k := k + 1;
    }
    assert mostCommon[..|mostCommon|] == mostCommon;
  }

  /** One turn of the `most_common()` loop. */
  method RankNext(t: Tally, kws: seq<string>, k: nat, candidates: seq<TrendResult>) returns (candidates': seq<TrendResult>)
    requires k < |kws| && candidates == Candidates(t, kws[..k])
    ensures candidates' == Candidates(t, kws[..k + 1])
  {
    CandidatesStep(t, kws, k);
    var row := RankOne(t, kws[k]);
    candidates' := candidates;
    if row.Some? {
      candidates' := candidates + [row.value];
    }
  }

  lemma CandidatesStep(t: Tally, kws: seq<string>, k: nat)
    requires k < |kws|
    ensures Candidates(t, kws[..k + 1])
      == Candidates(t, kws[..k]) + (if Candidate(t, kws[k]).Some? then [Candidate(t, kws[k]).value] else [])
  {
    assert kws[..k + 1][..k] == kws[..k];
  }

  /** The body of the `most_common()` loop: the row for one keyword, or None when it is skipped. */
  method RankOne(t: Tally, kw: string) returns (row: Option<TrendResult>)
    ensures row == Candidate(t, kw)
  {
    row := None;
    var related := if kw in t.news then t.news[kw] else [];
    if related != [] {
      var count := if kw in t.freq then t.freq[kw] else 0;
      var newsCount := |related|;
      var sourceCount := |if kw in t.sources then t.sources[kw] else {}|;
      var freshnessList := if kw in t.freshness then t.freshness[kw] else [0.5];
      var avgFreshness := if freshnessList != [] then SumReal(freshnessList) / |freshnessList| as real else 0.5;
      if !(newsCount < 1 || count < 3) {
        var score := count as real * 0.4 + newsCount as real * 0.3 + sourceCount as real * 0.2 + avgFreshness * 0.1;
        row := Some(TrendResult(kw, score, count, newsCount, sourceCount, avgFreshness, TopNews(related)));
      }
    }
  }

  /** analyze_trends, with `datetime.now()` passed in as `now`. */
  method AnalyzeTrends(newsList: seq<NewsItem>, sim: (string, string) -> real, strptime: string -> Option<int>, now: int)
    returns (results: seq<TrendResult>)
    ensures results == AnalyzeSpec(newsList, sim, strptime, now)
    ensures SortedDesc(results, Score, RealLess)
    ensures forall i :: 0 <= i < |results| ==> RowFor(DedupSpec(newsList, sim), results[i])
    ensures forall kw :: WeightedCount(DedupSpec(newsList, sim), kw) >= 3 ==> HasRow(results, kw)
  {
    var filtered := RemoveDuplicateNews(newsList, sim);
    var t := TallyNews(filtered, strptime, now);
    var candidates := RankKeywords(t);
    results := SortDesc(candidates, Score, RealLess);
    AnalyzeRows(filtered, strptime, now);
    AnalyzeComplete(filtered, strptime, now);
  }

  /** `x` has `kw` among its title or description keywords. */
  predicate Mentions(x: NewsItem, kw: string)
  {
    kw in KeywordsOf(x.title) || kw in KeywordsOf(x.description)
  }

  function MentionedBy(kw: string): NewsItem -> bool
  {
    (x: NewsItem) => Mentions(x, kw)
  }

  /** The distinct items mentioning `kw`, in order of first appearance. */
  function MentioningItems(items: seq<NewsItem>, kw: string): seq<NewsItem>
  {
    Dedup(Filter(items, MentionedBy(kw)))
  }

  /**
   * What a ranked row says about its keyword: the weighted count (at least 3), the number of
   * distinct items mentioning it, and as top news the newest three of those items.
   */
  predicate RowFor(items: seq<NewsItem>, row: TrendResult)
  {
    row.frequency == WeightedCount(items, row.keyword) && row.frequency >= 3
    && row.newsCount == |MentioningItems(items, row.keyword)| >= 1
    && row.topNews == TopNews(MentioningItems(items, row.keyword))
  }

  /** Every ranked row describes its keyword faithfully; rows are sorted by score. */
  lemma AnalyzeRows(filtered: seq<NewsItem>, strptime: string -> Option<int>, now: int)
    ensures var t := TallyOf(filtered, strptime, now); var results := SortDesc(Candidates(t, MostCommon(t)), Score, RealLess);
      SortedDesc(results, Score, RealLess) && forall i :: 0 <= i < |results| ==> RowFor(filtered, results[i])
  {
    var t := TallyOf(filtered, strptime, now);
    var candidates := Candidates(t, MostCommon(t));
    var results := SortDesc(candidates, Score, RealLess);
    RealLessAsym();
    SortDescSorted(candidates, Score, RealLess);
    CandidatesPassed(t, MostCommon(t));
    SortedRowsPassed(t, candidates);
    forall i | 0 <= i < |results|
      ensures RowFor(filtered, results[i])
    {
      TallyFrequency(filtered, strptime, now, results[i].keyword);
      TallyRelated(filtered, strptime, now, results[i].keyword);
    }
  }

  /** Sorting the rows keeps each row's filters and its count. */
  lemma SortedRowsPassed(t: Tally, candidates: seq<TrendResult>)
    requires forall i :: 0 <= i < |candidates| ==> Candidate(t, candidates[i].keyword) == Some(candidates[i])
    ensures var results := SortDesc(candidates, Score, RealLess);
      forall i :: 0 <= i < |results| ==> Candidate(t, results[i].keyword) == Some(results[i])
  {
    var results := SortDesc(candidates, Score, RealLess);
    forall i | 0 <= i < |results|
      ensures Candidate(t, results[i].keyword) == Some(results[i])
    {
      assert results[i] in multiset(candidates);
      var j :| 0 <= j < |candidates| && candidates[j] == results[i];
    }
  }

  /** Some row is about `kw`. */
  predicate HasRow(results: seq<TrendResult>, kw: string)
  {
    exists i :: 0 <= i < |results| && results[i].keyword == kw
  }

  /** Every keyword whose weighted count reaches 3 gets a row. */
  lemma AnalyzeComplete(filtered: seq<NewsItem>, strptime: string -> Option<int>, now: int)
    ensures var t := TallyOf(filtered, strptime, now); var results := SortDesc(Candidates(t, MostCommon(t)), Score, RealLess);
      forall kw :: WeightedCount(filtered, kw) >= 3 ==> HasRow(results, kw)
  {
    var t := TallyOf(filtered, strptime, now);
    TallyOfValid(filtered, strptime, now);
    forall kw | WeightedCount(filtered, kw) >= 3
      ensures HasRow(SortDesc(Candidates(t, MostCommon(t)), Score, RealLess), kw)
    {
      TallyFrequency(filtered, strptime, now, kw);
      KeywordReported(t, kw);
    }
  }

  /** In a consistent tally, a keyword counted at least 3 times has a ranked row. */
  lemma KeywordReported(t: Tally, kw: string)
    requires TallyValid(t) && Freq(t, kw) >= 3
    ensures HasRow(SortDesc(Candidates(t, MostCommon(t)), Score, RealLess), kw)
  {
    assert kw in t.order;
    var j := SortDescIndex(t.order, FreqOf(t), IntLess, kw);
    CandidatesContain(t, MostCommon(t), kw);
    var i := SortDescIndex(Candidates(t, MostCommon(t)), Score, RealLess, Candidate(t, kw).value);
  }

  /** A listed keyword that passes the filters has its row among the candidates. */
  lemma {:induction false} CandidatesContain(t: Tally, kws: seq<string>, kw: string)
    requires TallyValid(t) && kw in kws && Freq(t, kw) >= 3
    ensures Candidate(t, kw).Some? && Candidate(t, kw).value in Candidates(t, kws)
  {
    var p := kws[..|kws| - 1];
    InSnoc(kws, kw);
    if kw in p {
      CandidatesContain(t, p, kw);
    }
  }

  /** One item's keywords add it, once, to the related list of every keyword among them. */
  lemma {:induction false} AddAllRelated(t: Tally, kws: seq<string>, weight: int, item: NewsItem, f: real, kw: string)
    ensures Related(AddAll(t, kws, weight, item, f), kw)
      == if kw in kws && item !in Related(t, kw) then Related(t, kw) + [item] else Related(t, kw)
  {
    if kws != [] {
      var p := kws[..|kws| - 1];
      AddAllRelated(t, p, weight, item, f, kw);
      InSnoc(kws, kw);
    }
  }

  /** An item joins the related list of `kw` when it mentions `kw` and is not there yet. */
  lemma AddItemRelated(t: Tally, x: NewsItem, strptime: string -> Option<int>, now: int, kw: string)
    ensures Related(AddItem(t, x, strptime, now), kw)
      == if Mentions(x, kw) && x !in Related(t, kw) then Related(t, kw) + [x] else Related(t, kw)
  {
    var f := ItemFreshness(x, strptime, now);
    AddAllRelated(t, KeywordsOf(x.title), 3, x, f, kw);
    AddAllRelated(AddAll(t, KeywordsOf(x.title), 3, x, f), KeywordsOf(x.description), 1, x, f, kw);
  }

  /** `news_mapping[kw]` lists the distinct items mentioning `kw`, in order. */
  lemma {:induction false} TallyRelated(items: seq<NewsItem>, strptime: string -> Option<int>, now: int, kw: string)
    ensures Related(TallyOf(items, strptime, now), kw) == MentioningItems(items, kw)
  {
    if items != [] {
      var p := items[..|items| - 1];
      var x := items[|items| - 1];
      TallyRelated(p, strptime, now, kw);
      AddItemRelated(TallyOf(p, strptime, now), x, strptime, now, kw);
      DedupFilterLast(items, MentionedBy(kw));
    }
  }

  /** The top news are at most three of the related items, newest first, and no left-out item is newer than a kept one. */
  lemma TopNewsLatest(related: seq<NewsItem>)
    ensures var top := TopNews(related);
      |top| == (if |related| <= 3 then |related| else 3) && multiset(top) <= multiset(related)
      && SortedDesc(top, PubDateKey, StrLess)
      && forall x, y :: x in related && x !in top && y in top ==> !StrLess(PubDateKey(y), PubDateKey(x))
  {
    TopByStr(related, PubDateKey, 3);
  }
}
