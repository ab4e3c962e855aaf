// Phase 2 of the reconstruction pipeline: per-category topic clustering of
// the collected articles. TF-IDF vectorisation and agglomerative clustering
// are an oracle that may fail or gives one label per article; the driver
// around it (the empty and single-article cases, the target cluster count,
// the one-pass split of oversized clusters and the representative flag) is
// modelled as the source writes it.

module Clusterer {
  import opened Util

  /**
   * The keys of an article dict that clustering and reconstruction read; each is
   * None when the key is missing (the sources read them with `dict.get`).
   */
  datatype Article = Article(
    title: Option<string>,
    content: Option<string>,
    press: Option<string>,
    link: Option<string>,
    trendScore: Option<real>,
    matchedKeywords: Option<seq<string>>)

  /** A per-category target: a `{"min", "max"}` dict (keys may be missing), an int or a float. */
  datatype Target = Bounds(min: Option<int>, max: Option<int>) | IntTarget(n: int) | FloatTarget(r: real)

  /** The `config` dict; a missing key (or a None value for `targets`) is None. */
  datatype Config = Config(maxClusterSize: Option<int>, targets: Option<map<string, Target>>)

  /** The fields `__init__` sets; nothing changes them afterwards. */
  datatype Settings = Settings(maxClusterSize: int, targets: map<string, Target>)

  const DefaultTargets: map<string, Target> := map[
    "Economy" := Bounds(Some(5), Some(7)),
    "Money" := Bounds(Some(3), Some(5)),
    "Society" := Bounds(Some(2), Some(4)),
    "Trend" := Bounds(Some(4), Some(6))]

  /** `all(isinstance(v, float) for v in targets.values())` */
  predicate AllFloats(targets: map<string, Target>)
  {
    forall k :: k in targets ==> targets[k].FloatTarget?
  }

  /** `ArticleClusterer.__init__`: an empty or all-float `targets` (the `output_targets` shape) falls back to the defaults. */
  function NewSettings(config: Config): (s: Settings)
    ensures s.maxClusterSize == if config.maxClusterSize.Some? then config.maxClusterSize.value else 10
    ensures s.targets != map[] && !AllFloats(s.targets)
    ensures config.targets.Some? && config.targets.value != map[] && !AllFloats(config.targets.value) ==>
      s.targets == config.targets.value
    ensures config.targets.None? ==> s.targets == DefaultTargets
  {
    var maxSize := if config.maxClusterSize.Some? then config.maxClusterSize.value else 10;
    var targets := if config.targets.Some? then config.targets.value else DefaultTargets;
    var targets' := if targets == map[] || AllFloats(targets) then DefaultTargets else targets;
    assert "Economy" in DefaultTargets && !DefaultTargets["Economy"].FloatTarget?;
    Settings(maxSize, targets')
  }

  /** The target cluster count: the midpoint of min and max (3 and 6 when absent), or the number itself, capped at `n`. */
  function TargetCount(s: Settings, category: string, n: nat): (t: int)
    ensures t <= n
    ensures category !in s.targets ==> t == if n < 4 then n else 4
    ensures category in s.targets && s.targets[category].Bounds? ==>
      var b := s.targets[category];
      var mid := FloorDiv((if b.min.Some? then b.min.value else 3) + (if b.max.Some? then b.max.value else 6), 2);
      t == if mid < n then mid else n
  {
    var target := if category in s.targets then s.targets[category] else Bounds(Some(3), Some(6));
    var tn := match target
      case Bounds(lo, hi) => ((if lo.Some? then lo.value else 3) + (if hi.Some? then hi.value else 6)) / 2
      case IntTarget(v) => v
      case FloatTarget(r) => Truncate(r);
    if tn < n then tn else n
  }

  lemma DefaultTargetCounts(n: nat)
    requires n >= 7
    ensures TargetCount(NewSettings(Config(None, None)), "Economy", n) == 6
    ensures TargetCount(NewSettings(Config(None, None)), "Money", n) == 4
    ensures TargetCount(NewSettings(Config(None, None)), "Society", n) == 3
    ensures TargetCount(NewSettings(Config(None, None)), "Trend", n) == 5
    ensures TargetCount(NewSettings(Config(None, None)), "IT", n) == 4
  {
  }

  // ---------------------------------------------------------------------------
  // _cluster_articles

  /** The text that is vectorised: the title and the first 300 characters of the content. */
  function Text(a: Article): string
  {
    OrElse(a.title, "") + " " + Take(OrElse(a.content, ""), 300)
  }

  /**
   * TF-IDF and agglomerative clustering: `vectorizeFails` is the ValueError of
   * `fit_transform`, `clusterFails` any exception of `fit_predict`, and
   * `labelOf(texts, n, i)` the label it gives text `i` when asked for `n` clusters.
   */
  datatype Oracle = Oracle(
    vectorizeFails: seq<string> -> bool,
    clusterFails: (seq<string>, int) -> bool,
    labelOf: (seq<string>, int, int) -> int)

  function Labels(o: Oracle, texts: seq<string>, n: int): (r: seq<int>)
    ensures |r| == |texts|
  {
    seq(|texts|, i => o.labelOf(texts, n, i))
  }

  function Size(c: seq<Article>): int
  {
    |c|
  }

  /** What `_cluster_articles(articles, n)` returns. */
  function Clustered(o: Oracle, articles: seq<Article>, n: int): seq<seq<Article>>
  {
    var texts := Map(articles, Text);
    if o.vectorizeFails(texts) then Singletons(articles)
    else if |articles| < 2 then [articles]
    else if n >= |articles| then Singletons(articles)
    else if o.clusterFails(texts, n) then Singletons(articles)
    else Grouped(o, articles, n)
  }

  /** The label groups, largest first (`sorted(clusters.values(), key=len, reverse=True)`). */
  function Grouped(o: Oracle, articles: seq<Article>, n: int): seq<seq<Article>>
  {
    SortDesc(GroupByLabel(articles, Labels(o, Map(articles, Text), n)), Size, IntLess)
  }

  lemma GroupedPartition(o: Oracle, articles: seq<Article>, n: int)
    ensures multiset(Flatten(Grouped(o, articles, n))) == multiset(articles)
    ensures [] !in Grouped(o, articles, n)
    ensures SortedDesc(Grouped(o, articles, n), Size, IntLess)
  {
    var labels := Labels(o, Map(articles, Text), n);
    var groups := GroupByLabel(articles, labels);
    GroupByLabelPartition(articles, labels);
    FlattenSortDesc(groups, Size, IntLess);
    IntLessAsym();
    SortDescSorted(groups, Size, IntLess);
    assert [] !in multiset(groups);
  }

  /** The paths that give one cluster per article. */
  lemma ClusteredFallbacks(o: Oracle, articles: seq<Article>, n: int)
    ensures var texts := Map(articles, Text);
      o.vectorizeFails(texts) || (|articles| >= 2 && (n >= |articles| || o.clusterFails(texts, n))) ==>
      Clustered(o, articles, n) == Singletons(articles)
  {
  }

  /** A single article is one cluster on every path. */
  lemma ClusteredSingle(o: Oracle, articles: seq<Article>, n: int)
    requires |articles| == 1
    ensures Clustered(o, articles, n) == [articles]
  {
    assert Singletons(articles)[0] == [articles[0]];
    assert articles == [articles[0]];
  }

  lemma SingletonsSorted(articles: seq<Article>)
    ensures SortedDesc(Singletons(articles), Size, IntLess)
  {
  }

  /** The clusters partition the articles into non-empty groups, largest first. */
  lemma ClusteredPartition(o: Oracle, articles: seq<Article>, n: int)
    ensures multiset(Flatten(Clustered(o, articles, n))) == multiset(articles)
    ensures articles != [] ==> [] !in Clustered(o, articles, n)
    ensures SortedDesc(Clustered(o, articles, n), Size, IntLess)
  {
    var texts := Map(articles, Text);
    if o.vectorizeFails(texts) || (|articles| >= 2 && (n >= |articles| || o.clusterFails(texts, n))) {
      FlattenSingletons(articles);
      SingletonsSorted(articles);
    } else if |articles| < 2 {
      assert Flatten([articles]) == Flatten([]) + articles;
    } else {
      GroupedPartition(o, articles, n);
    }
  }

  /** One `clusters.setdefault(label, []).append(articles[idx])`; `order` is the dict's key order. */
  method AddToGroup(articles: seq<Article>, labels: seq<int>, idx: nat, clusters: map<int, seq<Article>>, order: seq<int>)
    returns (clusters': map<int, seq<Article>>, order': seq<int>)
    requires |labels| == |articles| && idx < |labels|
    requires order == Dedup(labels[..idx]) && clusters.Keys == set k | k in order
    requires forall k :: k in clusters ==> clusters[k] == Labelled(articles[..idx], labels[..idx], k)
    ensures order' == Dedup(labels[..idx + 1]) && clusters'.Keys == set k | k in order'
    ensures forall k :: k in clusters' ==> clusters'[k] == Labelled(articles[..idx + 1], labels[..idx + 1], k)
  {
    var l := labels[idx];
    assert labels[..idx + 1] == labels[..idx] + [l];
    DedupSnoc(labels[..idx], l);
    DedupMembers(labels[..idx]);
    if l in clusters {
      clusters' := clusters[l := clusters[l] + [articles[idx]]];
      order' := order;
    } else {
      clusters' := clusters[l := [articles[idx]]];
      order' := order + [l];
      assert Labelled(articles[..idx], labels[..idx], l) == [] by {
        LabelledAbsent(articles[..idx], labels[..idx], l);
      }
    }
    forall k | k in clusters' ensures clusters'[k] == Labelled(articles[..idx + 1], labels[..idx + 1], k) {
      LabelledStep(articles, labels, idx, k);
    }
  }

  /** The loop `for idx, label in enumerate(labels)`: the groups in the dict's key order. */
  method GroupLabels(articles: seq<Article>, labels: seq<int>) returns (groups: seq<seq<Article>>)
    requires |labels| == |articles|
    ensures groups == GroupByLabel(articles, labels)
  {
    var clusters: map<int, seq<Article>> := map[];
    var order: seq<int> := [];
    var idx := 0;
    while idx < |labels|
      invariant 0 <= idx <= |labels|
      invariant order == Dedup(labels[..idx]) && clusters.Keys == set k | k in order
      invariant forall k :: k in clusters ==> clusters[k] == Labelled(articles[..idx], labels[..idx], k)
    {
      clusters, order := AddToGroup(articles, labels, idx, clusters, order);
      idx := idx + 1;
    }
    assert articles[..idx] == articles && labels[..idx] == labels;
    groups := seq(|order|, j requires 0 <= j < |order| => clusters[order[j]]);
    GroupsForAt(articles, labels, order);
    forall j | 0 <= j < |order| ensures groups[j] == GroupsFor(articles, labels, order)[j] {
      assert clusters[order[j]] == Labelled(articles[..idx], labels[..idx], order[j]);
    }
    assert groups == GroupsFor(articles, labels, order);
  }

  /** The loop that builds `texts`. */
  method TextsOf(articles: seq<Article>) returns (texts: seq<string>)
    ensures texts == Map(articles, Text)
  {
    texts := [];
    var i := 0;
    while i < |articles|
      invariant 0 <= i <= |articles|
      invariant texts == Map(articles[..i], Text)
    {
      MapSnoc(articles[..i], articles[i], Text);
      assert articles[..i + 1] == articles[..i] + [articles[i]];
      texts := texts + [Text(articles[i])];
      i := i + 1;
    }
    assert articles[..i] == articles;
  }

  /** `_cluster_articles`. */
  method ClusterArticles(o: Oracle, articles: seq<Article>, n: int) returns (clusters: seq<seq<Article>>)
    ensures clusters == Clustered(o, articles, n)
  {
    var texts := TextsOf(articles);
    if o.vectorizeFails(texts) {
      return Singletons(articles);
    }
    if |texts| < 2 {
      return [articles];
    }
    if n >= |articles| {
      return Singletons(articles);
    }
    if o.clusterFails(texts, n) {
      return Singletons(articles);
    }
    var groups := GroupLabels(articles, Labels(o, texts, n));
    clusters := SortDesc(groups, Size, IntLess);
    assert clusters == Grouped(o, articles, n);
  }

  // ---------------------------------------------------------------------------
  // Splitting oversized clusters

  /** `max(2, len(cluster) // max_cluster_size + 1)` */
  function SubCount(size: nat, maxSize: int): int
    requires maxSize != 0
  {
    var q := FloorDiv(size, maxSize) + 1;
    if q < 2 then 2 else q
  }

  /** What one cluster becomes in `split_clusters`; None is the ZeroDivisionError of a zero `max_cluster_size`. */
  function SplitOne(o: Oracle, maxSize: int, c: seq<Article>): Option<seq<seq<Article>>>
  {
    if |c| > maxSize then
      if maxSize == 0 then None else Some(Clustered(o, c, SubCount(|c|, maxSize)))
    else Some([c])
  }

  /** Splitting one cluster keeps its articles, and a non-empty cluster gives non-empty parts. */
  lemma SplitOnePartition(o: Oracle, maxSize: int, c: seq<Article>)
    requires SplitOne(o, maxSize, c).Some?
    ensures multiset(Flatten(SplitOne(o, maxSize, c).value)) == multiset(c)
    ensures c != [] ==> [] !in SplitOne(o, maxSize, c).value
  {
    if |c| > maxSize {
      ClusteredPartition(o, c, SubCount(|c|, maxSize));
    } else {
      assert Flatten([c]) == Flatten([]) + c;
    }
  }

  /** The split loop over `clusters`. */
  function SplitAll(o: Oracle, maxSize: int, clusters: seq<seq<Article>>): Option<seq<seq<Article>>>
  {
    if clusters == [] then Some([])
    else
      match SplitAll(o, maxSize, clusters[..|clusters| - 1])
      case None => None
      case Some(done) =>
        match SplitOne(o, maxSize, clusters[|clusters| - 1])
        case None => None
        case Some(parts) => Some(done + parts)
  }

  lemma SplitAllStep(o: Oracle, maxSize: int, clusters: seq<seq<Article>>, j: nat)
    requires j < |clusters|
    ensures SplitAll(o, maxSize, clusters[..j + 1]) ==
      match SplitAll(o, maxSize, clusters[..j])
      case None => None
      case Some(done) =>
        match SplitOne(o, maxSize, clusters[j])
        case None => None
        case Some(parts) => Some(done + parts)
  {
    assert clusters[..j + 1][..j] == clusters[..j];
  }

  /** The split fails exactly when `max_cluster_size` is 0 and some cluster is non-empty. */
  lemma {:induction false} SplitAllFails(o: Oracle, maxSize: int, clusters: seq<seq<Article>>)
    ensures SplitAll(o, maxSize, clusters).None? <==> maxSize == 0 && exists c :: c in clusters && c != []
  {
    if clusters != [] {
      var p := clusters[..|clusters| - 1];
      var c := clusters[|clusters| - 1];
      SplitAllFails(o, maxSize, p);
      assert clusters[..|clusters| - 1] == p;
      var one := SplitOne(o, maxSize, c);
      assert one.None? <==> maxSize == 0 && c != [];
      assert SplitAll(o, maxSize, clusters).None? <==> SplitAll(o, maxSize, p).None? || one.None?;
      assert clusters == p + [c];
      assert (exists d :: d in clusters && d != []) <==> (exists d :: d in p && d != []) || c != [] by {
        if c != [] { assert c in clusters; }
        forall d | d in p ensures d in clusters {}
      }
    }
  }

  /** Splitting keeps every article exactly once and creates no empty cluster. */
  lemma {:induction false} SplitAllPartition(o: Oracle, maxSize: int, clusters: seq<seq<Article>>)
    requires SplitAll(o, maxSize, clusters).Some?
    ensures multiset(Flatten(SplitAll(o, maxSize, clusters).value)) == multiset(Flatten(clusters))
    ensures [] !in clusters ==> [] !in SplitAll(o, maxSize, clusters).value
  {
    if clusters != [] {
      var p := clusters[..|clusters| - 1];
      var c := clusters[|clusters| - 1];
      assert clusters == p + [c];
      assert [] !in clusters ==> [] !in p && c != [] by {
        forall d | d in p ensures d in clusters {}
      }
      SplitAllPartition(o, maxSize, p);
      var done := SplitAll(o, maxSize, p).value;
      var parts := SplitOne(o, maxSize, c).value;
      SplitOnePartition(o, maxSize, c);
      FlattenSnoc(p, c);
      FlattenAppend(done, parts);
    }
  }

  /** The `split_clusters` loop. */
  method SplitOversized(s: Settings, o: Oracle, clusters: seq<seq<Article>>) returns (r: Option<seq<seq<Article>>>)
    ensures r == SplitAll(o, s.maxClusterSize, clusters)
  {
    var split: seq<seq<Article>> := [];
    var j := 0;
    while j < |clusters|
      invariant 0 <= j <= |clusters|
      invariant SplitAll(o, s.maxClusterSize, clusters[..j]) == Some(split)
    {
      SplitAllStep(o, s.maxClusterSize, clusters, j);
      var cluster := clusters[j];
      if |cluster| > s.maxClusterSize {
        if s.maxClusterSize == 0 {
          SplitAllFails(o, s.maxClusterSize, clusters);
          assert cluster in clusters && cluster != [];
          return None;
        }
        var subN := SubCount(|cluster|, s.maxClusterSize);
        var subClusters := ClusterArticles(o, cluster, subN);
        split := split + subClusters;
      } else {
        split := split + [cluster];
      }
      j := j + 1;
    }
    assert clusters[..j] == clusters;
    r := Some(split);
  }

  // ---------------------------------------------------------------------------
  // Representatives

  /** An article dict after the marking loop; the flag is None when the key was never set. */
  datatype Marked = Marked(article: Article, isRepresentative: Option<bool>)

  /** `a.get("trend_score", 0)` */
  function Score(a: Article): real
  {
    OrElse(a.trendScore, 0.0)
  }

  /** `_get_representative`: the position of the first article with the highest score. */
  function RepIndex(c: seq<Article>): (r: nat)
    requires c != []
    ensures r < |c|
    ensures forall j :: 0 <= j < |c| ==> Score(c[j]) <= Score(c[r])
    ensures forall j :: 0 <= j < r ==> Score(c[j]) < Score(c[r])
  {
    if |c| == 1 then 0
    else
      var p := RepIndex(c[..|c| - 1]);
      if Score(c[|c| - 1]) > Score(c[p]) then |c| - 1 else p
  }

  /** `article["_is_representative"] = (article is representative)` over one cluster. */
  function MarkCluster(c: seq<Article>): (r: seq<Marked>)
    requires c != []
  {
    seq(|c|, j requires 0 <= j < |c| => Marked(c[j], Some(j == RepIndex(c))))
  }

  function MarkAll(clusters: seq<seq<Article>>): (r: seq<seq<Marked>>)
    requires [] !in clusters
    ensures |r| == |clusters|
  {
    if clusters == [] then []
    else
      assert clusters[..|clusters| - 1] <= clusters;
      MarkAll(clusters[..|clusters| - 1]) + [MarkCluster(clusters[|clusters| - 1])]
  }

  lemma {:induction false} MarkAllAt(clusters: seq<seq<Article>>)
    requires [] !in clusters
    ensures forall i :: 0 <= i < |clusters| ==> MarkAll(clusters)[i] == MarkCluster(clusters[i])
  {
    if clusters != [] {
      var p := clusters[..|clusters| - 1];
      assert p <= clusters;
      MarkAllAt(p);
    }
  }

  /** The articles of marked clusters, flags dropped. */
  function Unmark(ms: seq<seq<Marked>>): (r: seq<seq<Article>>)
    ensures |r| == |ms|
  {
    seq(|ms|, i requires 0 <= i < |ms| => seq(|ms[i]|, j requires 0 <= j < |ms[i]| => ms[i][j].article))
  }

  /** Marking changes no article and flags exactly one per cluster: the first with the highest score. */
  lemma MarkAllFlags(clusters: seq<seq<Article>>)
    requires [] !in clusters
    ensures Unmark(MarkAll(clusters)) == clusters
    ensures forall i, j :: 0 <= i < |clusters| && 0 <= j < |clusters[i]| ==>
      MarkAll(clusters)[i][j].isRepresentative == Some(j == RepIndex(clusters[i]))
  {
    MarkAllAt(clusters);
    var u := Unmark(MarkAll(clusters));
    forall i | 0 <= i < |clusters| ensures u[i] == clusters[i] {
      assert clusters[i] != [] by { assert clusters[i] in clusters; }
    }
  }

  /** The marking loop: `for cluster in split_clusters: ... for article in cluster: ...`. */
  method MarkRepresentatives(clusters: seq<seq<Article>>) returns (marked: seq<seq<Marked>>)
    requires [] !in clusters
    ensures marked == MarkAll(clusters)
  {
    marked := [];
    var i := 0;
    while i < |clusters|
      invariant 0 <= i <= |clusters|
      invariant [] !in clusters[..i]
      invariant marked == MarkAll(clusters[..i])
    {
      assert clusters[i] in clusters;
      var cluster := clusters[i];
      var representative := RepIndex(cluster);
      var flagged: seq<Marked> := [];
      var j := 0;
      while j < |cluster|
        invariant 0 <= j <= |cluster|
        invariant flagged == MarkCluster(cluster)[..j]
      {
        flagged := flagged + [Marked(cluster[j], Some(j == representative))];
        j := j + 1;
      }
      assert flagged == MarkCluster(cluster);
      assert clusters[..i + 1][..i] == clusters[..i];
      assert [] !in clusters[..i + 1] by { assert clusters[..i + 1] == clusters[..i] + [cluster]; }
      marked := marked + [flagged];
      i := i + 1;
    }
    assert clusters[..i] == clusters;
  }

  // ---------------------------------------------------------------------------
  // cluster_by_category

  /** The value `cluster_by_category` stores for one category; None when it raises. */
  function CategoryClusters(s: Settings, o: Oracle, category: string, articles: seq<Article>): Option<seq<seq<Marked>>>
  {
    if articles == [] then Some([])
    else if |articles| == 1 then Some([[Marked(articles[0], None)]])
    else
      var clusters := Clustered(o, articles, TargetCount(s, category, |articles|));
      ClusteredPartition(o, articles, TargetCount(s, category, |articles|));
      match SplitAll(o, s.maxClusterSize, clusters)
      case None => None
      case Some(split) =>
        SplitAllPartition(o, s.maxClusterSize, clusters);
        Some(MarkAll(split))
  }

  /** An empty category gives no cluster; a single article is one cluster, left unmarked. */
  lemma SmallCategories(s: Settings, o: Oracle, category: string, articles: seq<Article>)
    ensures articles == [] ==> CategoryClusters(s, o, category, articles) == Some([])
    ensures |articles| == 1 ==> CategoryClusters(s, o, category, articles) == Some([[Marked(articles[0], None)]])
  {
  }

  /** Only a zero `max_cluster_size` makes a category of two or more articles fail. */
  lemma CategoryFails(s: Settings, o: Oracle, category: string, articles: seq<Article>)
    ensures CategoryClusters(s, o, category, articles).None? <==> s.maxClusterSize == 0 && |articles| >= 2
  {
    if |articles| >= 2 {
      var n := TargetCount(s, category, |articles|);
      var clusters := Clustered(o, articles, n);
      ClusteredPartition(o, articles, n);
      SplitAllFails(o, s.maxClusterSize, clusters);
      if s.maxClusterSize == 0 {
        assert clusters != [];
        assert clusters[0] in clusters;
      }
    }
  }

  /** Every article lands in exactly one non-empty cluster; the sizes add up to the article count. */
  lemma CategoryPartition(s: Settings, o: Oracle, category: string, articles: seq<Article>)
    requires CategoryClusters(s, o, category, articles).Some?
    ensures var cs := Unmark(CategoryClusters(s, o, category, articles).value);
      multiset(Flatten(cs)) == multiset(articles) && [] !in cs && SizeSum(cs) == |articles|
  {
    var r := CategoryClusters(s, o, category, articles).value;
    if articles == [] {
      assert Unmark(r) == [];
    } else if |articles| == 1 {
      assert articles == [articles[0]];
      assert Unmark(r)[0] == [articles[0]];
      assert Unmark(r) == [articles];
      assert Flatten([articles]) == Flatten([]) + articles;
    } else {
      var n := TargetCount(s, category, |articles|);
      var clusters := Clustered(o, articles, n);
      ClusteredPartition(o, articles, n);
      SplitAllPartition(o, s.maxClusterSize, clusters);
      var split := SplitAll(o, s.maxClusterSize, clusters).value;
      MarkAllFlags(split);
      assert Unmark(r) == split;
    }
    SizeSumFlatten(Unmark(r));
  }

  /** With two or more articles, each cluster flags exactly its first highest-scoring article. */
  lemma CategoryRepresentatives(s: Settings, o: Oracle, category: string, articles: seq<Article>)
    requires |articles| >= 2 && CategoryClusters(s, o, category, articles).Some?
    ensures var ms := CategoryClusters(s, o, category, articles).value;
      forall i, j :: 0 <= i < |ms| && 0 <= j < |ms[i]| ==>
        ms[i][j].isRepresentative.Some? &&
        (ms[i][j].isRepresentative.value <==> j == RepIndex(Unmark(ms)[i]))
  {
    var n := TargetCount(s, category, |articles|);
    var clusters := Clustered(o, articles, n);
    ClusteredPartition(o, articles, n);
    SplitAllPartition(o, s.maxClusterSize, clusters);
    var split := SplitAll(o, s.maxClusterSize, clusters).value;
    assert CategoryClusters(s, o, category, articles).value == MarkAll(split);
    MarkAllFlags(split);
  }

  /** The body of the category loop. */
  method ClusterCategory(s: Settings, o: Oracle, category: string, articles: seq<Article>) returns (r: Option<seq<seq<Marked>>>)
    ensures r == CategoryClusters(s, o, category, articles)
  {
    if articles == [] {
      return Some([]);
    }
    if |articles| == 1 {
      return Some([[Marked(articles[0], None)]]);
    }
    var targetN := TargetCount(s, category, |articles|);
    var clusters := ClusterArticles(o, articles, targetN);
    ClusteredPartition(o, articles, targetN);
    var split := SplitOversized(s, o, clusters);
    if split.None? {
      return None;
    }
    SplitAllPartition(o, s.maxClusterSize, clusters);
    var marked := MarkRepresentatives(split.value);
    r := Some(marked);
  }

  /** `cluster_by_category`: every category clustered on its own; None when some category raises. */
  method ClusterByCategory(s: Settings, o: Oracle, byCategory: map<string, seq<Article>>)
    returns (result: Option<map<string, seq<seq<Marked>>>>)
    ensures result.None? <==> exists c :: c in byCategory && CategoryClusters(s, o, c, byCategory[c]).None?
    ensures result.Some? ==> result.value.Keys == byCategory.Keys
    ensures result.Some? ==> forall c :: c in byCategory ==> Some(result.value[c]) == CategoryClusters(s, o, c, byCategory[c])
  {
    var acc: map<string, seq<seq<Marked>>> := map[];
    var todo := byCategory.Keys;
    while todo != {}
      invariant todo <= byCategory.Keys
      invariant acc.Keys == byCategory.Keys - todo
      invariant forall c :: c in acc ==> Some(acc[c]) == CategoryClusters(s, o, c, byCategory[c])
      decreases |todo|
    {
      var category :| category in todo;
      var r := ClusterCategory(s, o, category, byCategory[category]);
      if r.None? {
        return None;
      }
      acc := acc[category := r.value];
      todo := todo - {category};
    }
    result := Some(acc);
  }
}
