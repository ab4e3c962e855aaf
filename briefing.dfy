// The integrated briefing generator: trend keywords from four feeds are fused
// into one weight per keyword, and locally stored news articles are matched
// against them by plain substring search in the title and the content.

module Briefing {
  import opened Util

  // ---------------------------------------------------------------------------
  // Stored news

  /** A stored article; `title` and `content` read as "" when missing. */
  datatype Article = Article(title: string, content: string, link: string)

  /** One entry of `categories`; a missing `articles` key is None. */
  datatype CategoryBlock = CategoryBlock(name: string, articles: Option<seq<Article>>)

  /** The parsed news file; a missing `categories` key is None. */
  datatype NewsFile = NewsFile(categories: Option<seq<CategoryBlock>>)

  function ArticlesOf(blocks: seq<CategoryBlock>): seq<seq<Article>>
  {
    if blocks == [] then []
    else
      ArticlesOf(blocks[..|blocks| - 1]) + [BlockArticles(blocks[|blocks| - 1])]
  }

  /** `category.get("articles", [])`. */
  function BlockArticles(b: CategoryBlock): seq<Article>
  {
    if b.articles.Some? then b.articles.value else []
  }

  /** One more block adds its articles at the end of the flattened list. */
  lemma FlattenBlocksStep(blocks: seq<CategoryBlock>, i: nat)
    requires i < |blocks|
    ensures Flatten(ArticlesOf(blocks[..i + 1])) == Flatten(ArticlesOf(blocks[..i])) + BlockArticles(blocks[i])
  {
    assert blocks[..i + 1][..i] == blocks[..i];
    assert ArticlesOf(blocks[..i + 1]) == ArticlesOf(blocks[..i]) + [BlockArticles(blocks[i])];
    FlattenSnoc(ArticlesOf(blocks[..i]), BlockArticles(blocks[i]));
  }

  /** load_news: the file is None when it does not exist. */
  method LoadNews(file: Option<NewsFile>) returns (allArticles: seq<Article>)
    ensures file.None? ==> allArticles == []
    ensures file.Some? && file.value.categories.None? ==> allArticles == []
    ensures file.Some? && file.value.categories.Some? ==> allArticles == Flatten(ArticlesOf(file.value.categories.value))
  {
    allArticles := [];
    if file.None? {
      return;
    }
    if file.value.categories.Some? {
      var blocks := file.value.categories.value;
      var i := 0;
      while i < |blocks|
        invariant 0 <= i <= |blocks|
        invariant allArticles == Flatten(ArticlesOf(blocks[..i]))
      {
        FlattenBlocksStep(blocks, i);
        var cat := blocks[i];
        var extra := if cat.articles.Some? then cat.articles.value else [];
        allArticles := allArticles + extra;
        i := i + 1;
      }
      assert blocks[..|blocks|] == blocks;
    }
  }

  /** The flattened list holds the category blocks' articles back to back, in order. */
  lemma {:induction false} FlattenLength(blocks: seq<CategoryBlock>)
    ensures |Flatten(ArticlesOf(blocks))| == SumLengths(ArticlesOf(blocks))
  {
    if blocks != [] {
      FlattenLength(blocks[..|blocks| - 1]);
    }
  }

  function SumLengths<T>(ss: seq<seq<T>>): nat
  {
    if ss == [] then 0 else SumLengths(ss[..|ss| - 1]) + |ss[|ss| - 1]|
  }

  /** Every article of every block is present in the flattened list. */
  lemma {:induction false} FlattenMembers<T>(ss: seq<seq<T>>, i: nat, j: nat)
    requires i < |ss| && j < |ss[i]|
    ensures ss[i][j] in Flatten(ss)
  {
    var p := ss[..|ss| - 1];
    if i < |ss| - 1 {
      FlattenMembers(p, i, j);
    } else {
      assert Flatten(ss) == Flatten(p) + ss[i];
      assert Flatten(ss)[|Flatten(p)| + j] == ss[i][j];
    }
  }

  // ---------------------------------------------------------------------------
  // Trend-weight fusion

  /** `trends_map` as an insertion-ordered dict. */
  datatype Weights = Weights(keys: seq<string>, weight: map<string, real>)

  const NoWeights := Weights([], map[])

  function WeightOf(t: Weights, kw: string): real
  {
    if kw in t.weight then t.weight[kw] else 0.0
  }

  /** The dict's keys are listed once each, in insertion order. */
  ghost predicate WeightsValid(t: Weights)
  {
    NoDup(t.keys) && (forall k :: k in t.weight <==> k in t.keys)
  }

  /** `trends_map[kw] = trends_map.get(kw, 0) + w` for each kw of one feed. */
  function AddFeed(t: Weights, kws: seq<string>, w: real): Weights
  {
    if kws == [] then t
    else
      var p := AddFeed(t, kws[..|kws| - 1], w);
      var kw := kws[|kws| - 1];
      Weights(if kw in p.weight then p.keys else p.keys + [kw], p.weight[kw := WeightOf(p, kw) + w])
  }

  const GoogleWeight := 1.5
  const NaverWeight := 1.2
  const RisingWeight := 1.8
  const NewWeight := 1.5

  function FuseSpec(google: seq<string>, naver: seq<string>, rising: seq<string>, newKws: seq<string>): Weights
  {
    AddFeed(AddFeed(AddFeed(AddFeed(NoWeights, google, GoogleWeight), naver, NaverWeight), rising, RisingWeight), newKws, NewWeight)
  }

  method AddFeedLoop(t: Weights, kws: seq<string>, w: real) returns (t': Weights)
    ensures t' == AddFeed(t, kws, w)
  {
    var keys, weight := t.keys, t.weight;
    var i := 0;
    while i < |kws|
      invariant 0 <= i <= |kws|
      invariant Weights(keys, weight) == AddFeed(t, kws[..i], w)
    {
      assert kws[..i + 1][..i] == kws[..i];
      var kw := kws[i];
      if kw !in weight {
        keys := keys + [kw];
      }
      weight := weight[kw := (if kw in weight then weight[kw] else 0.0) + w];
      i := i + 1;
    }
    assert kws[..|kws|] == kws;
    t' := Weights(keys, weight);
  }

  /** The four feed loops of the briefing generator's main. */
  method FuseTrends(google: seq<string>, naver: seq<string>, rising: seq<string>, newKws: seq<string>) returns (trends: Weights)
    ensures trends == FuseSpec(google, naver, rising, newKws)
  {
    trends := AddFeedLoop(NoWeights, google, GoogleWeight);
    trends := AddFeedLoop(trends, naver, NaverWeight);
    trends := AddFeedLoop(trends, rising, RisingWeight);
    trends := AddFeedLoop(trends, newKws, NewWeight);
  }

  lemma RealMulStep(w: real, c: int)
    ensures w * (c + 1) as real == w * c as real + w
  {
  }

  /** Adding a feed keeps the keys duplicate-free and in step with the dict. */
  lemma {:induction false} AddFeedValid(t: Weights, kws: seq<string>, w: real)
    requires WeightsValid(t)
    ensures WeightsValid(AddFeed(t, kws, w))
  {
    if kws != [] {
      var x := kws[|kws| - 1];
      AddFeedValid(t, kws[..|kws| - 1], w);
      var p := AddFeed(t, kws[..|kws| - 1], w);
      if x !in p.keys {
        assert NoDup(p.keys + [x]);
      }
    }
  }

  /** `w` added `n` times. */
  function Scaled(w: real, n: nat): real
  {
    if n == 0 then 0.0 else Scaled(w, n - 1) + w
  }

  lemma {:induction false} ScaledIsProduct(w: real, n: nat)
    ensures Scaled(w, n) == w * n as real
  {
    if n > 0 {
      ScaledIsProduct(w, n - 1);
      RealMulStep(w, n - 1);
    }
  }

  /** Each feed occurrence adds the feed's weight. */
  lemma {:induction false} AddFeedWeight(t: Weights, kws: seq<string>, w: real, kw: string)
    ensures WeightOf(AddFeed(t, kws, w), kw) == WeightOf(t, kw) + Scaled(w, Count(kws, kw))
  {
    if kws != [] {
      var q := kws[..|kws| - 1];
      AddFeedWeight(t, q, w, kw);
    }
  }

  /** The key order is the order of first occurrences. */
  lemma {:induction false} AddFeedKeys(t: Weights, kws: seq<string>, w: real)
    requires WeightsValid(t)
    ensures AddFeed(t, kws, w).keys == Dedup(t.keys + kws)
  {
    if kws == [] {
      assert t.keys + kws == t.keys;
      DedupOfNoDup(t.keys);
    } else {
      var q := kws[..|kws| - 1];
      var x := kws[|kws| - 1];
      AddFeedKeys(t, q, w);
      AddFeedValid(t, q, w);
      AddFeedKeysStep(t, q, x, w);
      assert AddFeed(t, kws, w) == AddFeed(t, q + [x], w) by { assert kws == q + [x]; }
      assert t.keys + kws == (t.keys + q) + [x];
    }
  }

  lemma AddFeedKeysStep(t: Weights, q: seq<string>, x: string, w: real)
    requires WeightsValid(AddFeed(t, q, w))
    requires AddFeed(t, q, w).keys == Dedup(t.keys + q)
    ensures AddFeed(t, q + [x], w).keys == Dedup((t.keys + q) + [x])
  {
    AddFeedSnoc(t, q, x, w);
    DedupSnoc(t.keys + q, x);
  }

  lemma AddFeedSnoc(t: Weights, q: seq<string>, x: string, w: real)
    ensures AddFeed(t, q + [x], w).keys ==
      if x in AddFeed(t, q, w).weight then AddFeed(t, q, w).keys else AddFeed(t, q, w).keys + [x]
  {
    assert (q + [x])[..|q|] == q;
  }

  lemma {:induction false} DedupOfNoDup<T>(s: seq<T>)
    requires NoDup(s)
    ensures Dedup(s) == s
  {
    if s != [] {
      var p := s[..|s| - 1];
      assert NoDup(p) by {
        forall i, j | 0 <= i < j < |p| ensures p[i] != p[j] { assert p[i] == s[i] && p[j] == s[j]; }
      }
      DedupOfNoDup(p);
      assert s[|s| - 1] !in p by {
        forall i | 0 <= i < |p| ensures p[i] != s[|s| - 1] { assert p[i] == s[i]; }
      }
    }
  }

  /** A keyword's fused weight is 1.5 per Google, 1.2 per Naver, 1.8 per rising and 1.5 per new occurrence. */
  lemma FusedWeight(google: seq<string>, naver: seq<string>, rising: seq<string>, newKws: seq<string>, kw: string)
    ensures WeightOf(FuseSpec(google, naver, rising, newKws), kw) ==
      1.5 * Count(google, kw) as real + 1.2 * Count(naver, kw) as real + 1.8 * Count(rising, kw) as real + 1.5 * Count(newKws, kw) as real
  {
    var t1 := AddFeed(NoWeights, google, GoogleWeight);
    var t2 := AddFeed(t1, naver, NaverWeight);
    var t3 := AddFeed(t2, rising, RisingWeight);
    AddFeedWeight(NoWeights, google, GoogleWeight, kw);
    AddFeedWeight(t1, naver, NaverWeight, kw);
    AddFeedWeight(t2, rising, RisingWeight, kw);
    AddFeedWeight(t3, newKws, NewWeight, kw);
    ScaledIsProduct(GoogleWeight, Count(google, kw));
    ScaledIsProduct(NaverWeight, Count(naver, kw));
    ScaledIsProduct(RisingWeight, Count(rising, kw));
    ScaledIsProduct(NewWeight, Count(newKws, kw));
  }

  /** The fused map lists every keyword of the four feeds once, in order of first occurrence. */
  lemma FusedKeys(google: seq<string>, naver: seq<string>, rising: seq<string>, newKws: seq<string>)
    ensures FuseSpec(google, naver, rising, newKws).keys == Dedup(google + naver + rising + newKws)
    ensures WeightsValid(FuseSpec(google, naver, rising, newKws))
  {
    var t1 := AddFeed(NoWeights, google, GoogleWeight);
    var t2 := AddFeed(t1, naver, NaverWeight);
    var t3 := AddFeed(t2, rising, RisingWeight);
    AddFeedValid(NoWeights, google, GoogleWeight);
    AddFeedValid(t1, naver, NaverWeight);
    AddFeedValid(t2, rising, RisingWeight);
    AddFeedValid(t3, newKws, NewWeight);
    AddFeedKeys(NoWeights, google, GoogleWeight);
    AddFeedKeys(t1, naver, NaverWeight);
    AddFeedKeys(t2, rising, RisingWeight);
    AddFeedKeys(t3, newKws, NewWeight);
    assert [] + google == google;
    DedupConcat(google, naver);
    DedupConcat(google + naver, rising);
    DedupConcat(google + naver + rising, newKws);
  }

  /** Deduplicating in two steps is deduplicating once. */
  lemma {:induction false} DedupConcat<T>(a: seq<T>, b: seq<T>)
    ensures Dedup(Dedup(a) + b) == Dedup(a + b)
  {
    if b == [] {
      assert Dedup(a) + b == Dedup(a);
      assert a + b == a;
      DedupOfNoDup(Dedup(a));
    } else {
      var q := b[..|b| - 1];
      var x := b[|b| - 1];
      DedupConcat(a, q);
      assert (Dedup(a) + b)[..|Dedup(a) + b| - 1] == Dedup(a) + q;
      assert (a + b)[..|a + b| - 1] == a + q;
      assert x in Dedup(Dedup(a) + q) <==> x in Dedup(a + q);
    }
  }

  // ---------------------------------------------------------------------------
  // Trend matching

  /** A stored article with the two keys match_trends adds to its copy. */
  datatype MatchedArticle = MatchedArticle(article: Article, matchScore: real, matchedKeywords: seq<string>)

  /** What keyword `kw` adds to the article's score: twice its weight in the title, else its weight in the content. */
  function Contribution(a: Article, kw: string, w: real): real
  {
    if Contains(a.title, kw) then w * 2.0 else if Contains(a.content, kw) then w * 1.0 else 0.0
  }

  function Mentions(a: Article): string -> bool
  {
    (kw: string) => Contains(a.title, kw) || Contains(a.content, kw)
  }

  /** The article's score over the first keys of the trend map. */
  function MatchScore(a: Article, t: Weights, keys: seq<string>): real
  {
    if keys == [] then 0.0 else MatchScore(a, t, keys[..|keys| - 1]) + Contribution(a, keys[|keys| - 1], WeightOf(t, keys[|keys| - 1]))
  }

  function MatchOne(a: Article, t: Weights): Option<MatchedArticle>
  {
    var score := MatchScore(a, t, t.keys);
    if score > 0.0 then Some(MatchedArticle(a, score, Filter(t.keys, Mentions(a)))) else None
  }

  function MatchAll(news: seq<Article>, t: Weights): seq<MatchedArticle>
  {
    if news == [] then []
    else
      var p := MatchAll(news[..|news| - 1], t);
      match MatchOne(news[|news| - 1], t)
      case Some(m) => p + [m]
      case None => p
  }

  function MatchScoreOf(m: MatchedArticle): real { m.matchScore }

  function MatchSpec(news: seq<Article>, t: Weights): seq<MatchedArticle>
  {
    SortDesc(MatchAll(news, t), MatchScoreOf, RealLess)
  }

  /** The keyword loop of match_trends for one article. */
  method ScoreArticle(a: Article, t: Weights) returns (score: real, matchedKws: seq<string>)
    ensures score == MatchScore(a, t, t.keys) && matchedKws == Filter(t.keys, Mentions(a))
  {
    score := 0.0;
    matchedKws := [];
    var i := 0;
    while i < |t.keys|
      invariant 0 <= i <= |t.keys|
      invariant score == MatchScore(a, t, t.keys[..i])
      invariant matchedKws == Filter(t.keys[..i], Mentions(a))
    {
      assert t.keys[..i + 1][..i] == t.keys[..i];
      FilterStep(t.keys, i, Mentions(a));
      var rankKw := t.keys[i];
      var weight := WeightOf(t, rankKw);
      if Contains(a.title, rankKw) {
        score := score + weight * 2.0;
        matchedKws := matchedKws + [rankKw];
      } else if Contains(a.content, rankKw) {
        score := score + weight * 1.0;
        matchedKws := matchedKws + [rankKw];
      }
      i := i + 1;
    }
    assert t.keys[..|t.keys|] == t.keys;
  }

  /** match_trends over the loaded articles. */
  method MatchTrends(news: seq<Article>, t: Weights) returns (matchedResults: seq<MatchedArticle>)
    ensures matchedResults == MatchSpec(news, t)
    ensures SortedDesc(matchedResults, MatchScoreOf, RealLess)
  {
    var acc: seq<MatchedArticle> := [];
    var i := 0;
    while i < |news|
      invariant 0 <= i <= |news|
      invariant acc == MatchAll(news[..i], t)
    {
      assert news[..i + 1][..i] == news[..i];
      var article := news[i];
      var score, matchedKws := ScoreArticle(article, t);
      if score > 0.0 {
        acc := acc + [MatchedArticle(article, score, matchedKws)];
      }
      i := i + 1;
    }
    assert news[..|news|] == news;
    matchedResults := SortDesc(acc, MatchScoreOf, RealLess);
    RealLessAsym();
    SortDescSorted(acc, MatchScoreOf, RealLess);
  }

  /** Every row carries an unchanged copy of an input article, a positive score and that article's matches. */
  lemma {:induction false} MatchAllRows(news: seq<Article>, t: Weights)
    ensures forall m :: m in MatchAll(news, t) ==>
      m.article in news && m.matchScore > 0.0 && m.matchScore == MatchScore(m.article, t, t.keys)
      && m.matchedKeywords == Filter(t.keys, Mentions(m.article))
    ensures forall i :: 0 <= i < |news| && MatchScore(news[i], t, t.keys) > 0.0 ==> MatchOne(news[i], t).value in MatchAll(news, t)
  {
    if news != [] {
      var p := news[..|news| - 1];
      MatchAllRows(p, t);
      forall i | 0 <= i < |news| && MatchScore(news[i], t, t.keys) > 0.0 ensures MatchOne(news[i], t).value in MatchAll(news, t) {
        if i < |news| - 1 { assert news[i] == p[i]; }
      }
    }
  }

  /** The sorted result keeps exactly the positively scored articles and their rows. */
  lemma MatchSpecRows(news: seq<Article>, t: Weights)
    ensures forall m :: m in MatchSpec(news, t) ==>
      m.article in news && m.matchScore > 0.0 && m.matchScore == MatchScore(m.article, t, t.keys)
      && m.matchedKeywords == Filter(t.keys, Mentions(m.article))
    ensures forall i :: 0 <= i < |news| && MatchScore(news[i], t, t.keys) > 0.0 ==> MatchOne(news[i], t).value in MatchSpec(news, t)
  {
    MatchAllRows(news, t);
    var all := MatchAll(news, t);
    assert forall m :: m in MatchSpec(news, t) <==> m in multiset(all);
  }

  /** matched_keywords lists each matching key once, in key order; with non-negative weights a positive score needs a match. */
  lemma {:induction false} MatchedKeywordsShape(a: Article, t: Weights, keys: seq<string>)
    requires NoDup(keys)
    requires forall k :: k in keys ==> WeightOf(t, k) >= 0.0
    ensures NoDup(Filter(keys, Mentions(a)))
    ensures IsSubseq(Filter(keys, Mentions(a)), keys)
    ensures MatchScore(a, t, keys) >= 0.0
    ensures MatchScore(a, t, keys) > 0.0 ==> Filter(keys, Mentions(a)) != []
  {
    FilterExact(keys, Mentions(a));
    var f := Filter(keys, Mentions(a));
    SubseqNoDup(f, keys);
    if keys != [] {
      var p := keys[..|keys| - 1];
      var x := keys[|keys| - 1];
      assert NoDup(p) by {
        forall i, j | 0 <= i < j < |p| ensures p[i] != p[j] { assert p[i] == keys[i] && p[j] == keys[j]; }
      }
      assert forall k :: k in p ==> k in keys;
      MatchedKeywordsShape(a, t, p);
    }
  }

  /** A subsequence of a duplicate-free list is duplicate-free. */
  lemma {:induction false} SubseqNoDup<T>(a: seq<T>, b: seq<T>)
    requires IsSubseq(a, b) && NoDup(b)
    ensures NoDup(a)
    decreases |b|
  {
    if a != [] {
      assert b != [];
      assert NoDup(b[1..]) by {
        forall i, j | 0 <= i < j < |b[1..]| ensures b[1..][i] != b[1..][j] { assert b[1..][i] == b[i + 1] && b[1..][j] == b[j + 1]; }
      }
      if a[0] == b[0] && IsSubseq(a[1..], b[1..]) {
        SubseqNoDup(a[1..], b[1..]);
        SubseqMembers(a[1..], b[1..]);
        assert b[0] !in b[1..] by {
          forall i | 0 <= i < |b[1..]| ensures b[1..][i] != b[0] { assert b[1..][i] == b[i + 1]; }
        }
        forall i, j | 0 <= i < j < |a| ensures a[i] != a[j] {
          if i == 0 { assert a[j] == a[1..][j - 1]; assert a[j] in a[1..]; }
          else { assert a[i] == a[1..][i - 1] && a[j] == a[1..][j - 1]; }
        }
      } else {
        SubseqNoDup(a, b[1..]);
      }
    }
  }
}
