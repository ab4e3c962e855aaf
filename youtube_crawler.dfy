/**
 * The YouTube crawler's own rules: the pre-filter that drops the markdown header of
 * `config.yaml`, the view-count text parser, the quality score, the title blacklist,
 * and the keyword search of crawl_youtube, which collects each video id at most once
 * across all categories.
 */
module YoutubeCrawler {
  import opened Util

  // ---------------------------------------------------------------------------
  // load_config

  /** A line whose stripped form starts with `categories:` opens the YAML part. */
  predicate IsConfigStart(line: string)
  {
    "categories:" <= Strip(line)
  }

  /** The first line that opens the YAML part, if any. */
  function FirstConfigLine(lines: seq<string>): (r: Option<nat>)
    ensures r.Some? ==> (r.value < |lines| && IsConfigStart(lines[r.value])
      && forall k :: 0 <= k < r.value ==> !IsConfigStart(lines[k]))
    ensures r.None? ==> forall k :: 0 <= k < |lines| ==> !IsConfigStart(lines[k])
  {
    if lines == [] then None
    else
      var p := lines[..|lines| - 1];
      assert forall k :: 0 <= k < |p| ==> p[k] == lines[k];
      match FirstConfigLine(p)
      case Some(j) => Some(j)
      case None => if IsConfigStart(lines[|lines| - 1]) then Some(|lines| - 1) else None
  }

  /** The lines load_config hands to the YAML parser. */
  function YamlLines(lines: seq<string>): (r: seq<string>)
    ensures |r| <= |lines| && r == lines[|lines| - |r|..]
    ensures r != [] ==> IsConfigStart(r[0])
    ensures forall k :: 0 <= k < |lines| - |r| ==> !IsConfigStart(lines[k])
    ensures (exists k :: 0 <= k < |lines| && IsConfigStart(lines[k])) ==> r != []
  {
    match FirstConfigLine(lines)
    case None => []
    case Some(j) => lines[j..]
  }

  lemma YamlStep(lines: seq<string>, i: nat)
    requires i < |lines|
    ensures FirstConfigLine(lines[..i + 1]) ==
      if FirstConfigLine(lines[..i]).Some? then FirstConfigLine(lines[..i]) else if IsConfigStart(lines[i]) then Some(i) else None
    ensures YamlLines(lines[..i + 1]) ==
      if FirstConfigLine(lines[..i + 1]).Some? then YamlLines(lines[..i]) + [lines[i]] else []
  {
    var p := lines[..i + 1];
    assert p[..i] == lines[..i];
    match FirstConfigLine(lines[..i])
    case Some(j) =>
      assert p[j..] == lines[..i][j..] + [lines[i]];
    case None =>
  }

  /** The loop of load_config before `yaml.safe_load`: the lines from the first `categories:` line on, joined again. */
  method LoadConfigText(content: string) returns (yamlContent: string)
    ensures yamlContent == Join(YamlLines(SplitOn(content, '\n')), "\n")
  {
    var lines := SplitOn(content, '\n');
    var yamlLines: seq<string> := [];
    var inYaml := false;
    var i := 0;
    while i < |lines|
      invariant 0 <= i <= |lines|
      invariant inYaml == FirstConfigLine(lines[..i]).Some?
      invariant yamlLines == YamlLines(lines[..i])
    {
      var line := lines[i];
      YamlStep(lines, i);
      if "categories:" <= Strip(line) {
        inYaml := true;
      }
      if inYaml {
        yamlLines := yamlLines + [line];
      }
      i := i + 1;
    }
    assert lines[..|lines|] == lines;
    yamlContent := Join(yamlLines, "\n");
  }

  // ---------------------------------------------------------------------------
  // parse_view_count

  function Pow10(n: nat): (p: nat)
    ensures p >= 1
  {
    if n == 0 then 1 else 10 * Pow10(n - 1)
  }

  /** The end of the greedy `\d+` run from `p`. */
  function DigitRunEnd(text: string, p: nat): (q: nat)
    requires p <= |text|
    ensures p <= q <= |text|
    ensures forall k :: p <= k < q ==> IsDigit(text[k])
    ensures q < |text| ==> !IsDigit(text[q])
    decreases |text| - p
  {
    if p < |text| && IsDigit(text[p]) then DigitRunEnd(text, p + 1) else p
  }

  /** The end of the greedy `\s*` run from `p`. */
  function SpaceRunEnd(text: string, p: nat): (q: nat)
    requires p <= |text|
    ensures p <= q <= |text|
    ensures forall k :: p <= k < q ==> IsSpace(text[k])
    ensures q < |text| ==> !IsSpace(text[q])
    decreases |text| - p
  {
    if p < |text| && IsSpace(text[p]) then SpaceRunEnd(text, p + 1) else p
  }

  /** After the integer digits ending at `q`: the end of the optional `\.\d+`, or `q` when there is none. */
  function FracEnd(text: string, q: nat): (e: nat)
    requires q <= |text|
    ensures q <= e <= |text|
    ensures e > q ==> e >= q + 2 && text[q] == '.' && forall k :: q + 1 <= k < e ==> IsDigit(text[k])
    ensures e < |text| && e > q ==> !IsDigit(text[e])
  {
    if q + 1 < |text| && text[q] == '.' && IsDigit(text[q + 1]) then DigitRunEnd(text, q + 1) else q
  }

  /** A match of `(\d+(?:\.\d+)?)\s*<unit>`: the integer digits, the fraction digits, and where the unit stands. */
  datatype UnitMatch = UnitMatch(intDigits: string, fracDigits: string, unitPos: nat)

  predicate AllDigits(s: string)
  {
    forall k :: 0 <= k < |s| ==> IsDigit(s[k])
  }

  /**
   * The pattern tried at position `p`. Each repetition is greedy and backtracking cannot
   * help: a shorter digit or space run leaves a digit or a space where the next part of
   * the pattern needs something else, so the greedy reading is the only candidate.
   */
  function UnitAt(text: string, p: nat, unit: char): (r: Option<UnitMatch>)
    requires p <= |text|
    ensures r.Some? ==> (r.value.intDigits != [] && r.value.intDigits <= text[p..]
      && AllDigits(r.value.intDigits) && AllDigits(r.value.fracDigits))
    ensures r.Some? ==> p < r.value.unitPos < |text| && text[r.value.unitPos] == unit
    ensures p < |text| && !IsDigit(text[p]) ==> r.None?
  {
    if p < |text| && IsDigit(text[p]) then
      var q := DigitRunEnd(text, p);
      var e := FracEnd(text, q);
      var w := SpaceRunEnd(text, e);
      if w < |text| && text[w] == unit then
        Some(UnitMatch(text[p..q], if e > q then text[q + 1..e] else [], w))
      else None
    else None
  }

  /** No match of the pattern starts in [p, q). */
  predicate NoMatchBetween(text: string, unit: char, p: nat, q: nat)
    requires q <= |text|
  {
    forall k :: p <= k < q ==> UnitAt(text, k, unit).None?
  }

  /** `re.search`: the leftmost position from `p` on where the pattern matches. */
  function SearchUnit(text: string, unit: char, p: nat): (r: Option<nat>)
    requires p <= |text|
    ensures r.None? ==> NoMatchBetween(text, unit, p, |text|)
    ensures r.Some? ==> p <= r.value < |text| && UnitAt(text, r.value, unit).Some? && NoMatchBetween(text, unit, p, r.value)
    decreases |text| - p
  {
    if p == |text| then None
    else if UnitAt(text, p, unit).Some? then Some(p)
    else SearchUnit(text, unit, p + 1)
  }

  /** The match `re.search` returns. */
  function SearchMatch(text: string, unit: char): (r: Option<UnitMatch>)
    ensures r.Some? <==> SearchUnit(text, unit, 0).Some?
  {
    match SearchUnit(text, unit, 0)
    case Some(k) => UnitAt(text, k, unit)
    case None => None
  }

  /** `int(float(number) * scale)` on the exact decimal value: the floor of number × scale. */
  function Scaled(m: UnitMatch, scale: nat): int
  {
    (DigitsValue(m.intDigits) * Pow10(|m.fracDigits|) + DigitsValue(m.fracDigits)) * scale / Pow10(|m.fracDigits|)
  }

  lemma DivLower(x: int, y: nat, d: nat)
    requires d >= 1
    ensures (x * d + y) / d >= x
  {
    var q := (x * d + y) / d;
    var r := (x * d + y) % d;
    assert q * d + r == x * d + y;
    assert (q - x) * d == y - r;
    PositiveFactor(q - x + 1, d);
  }

  lemma PositiveFactor(a: int, d: int)
    requires d >= 1 && (a - 1) * d > -d
    ensures a >= 1
  {
    assert a * d == (a - 1) * d + d;
  }

  /** A whole number scales exactly; a fraction never scales below its integer part. */
  lemma ScaledBounds(m: UnitMatch, scale: nat)
    ensures m.fracDigits == [] ==> Scaled(m, scale) == DigitsValue(m.intDigits) * scale
    ensures DigitsValue(m.intDigits) * scale <= Scaled(m, scale)
  {
    var d := Pow10(|m.fracDigits|);
    var i := DigitsValue(m.intDigits);
    var f := DigitsValue(m.fracDigits);
    assert (i * d + f) * scale == (i * scale) * d + f * scale;
    DivLower(i * scale, f * scale, d);
  }

  /** The first digit at or after `p`. */
  function FirstDigit(text: string, p: nat): (r: Option<nat>)
    requires p <= |text|
    ensures r.Some? ==> p <= r.value < |text| && IsDigit(text[r.value]) && forall k :: p <= k < r.value ==> !IsDigit(text[k])
    ensures r.None? ==> forall k :: p <= k < |text| ==> !IsDigit(text[k])
    decreases |text| - p
  {
    if p == |text| then None else if IsDigit(text[p]) then Some(p) else FirstDigit(text, p + 1)
  }

  /** The end of `\d+(?:,\d+)*` from a digit at `p`, greedy. */
  function GroupEnd(text: string, p: nat): (e: nat)
    requires p < |text| && IsDigit(text[p])
    ensures p < e <= |text| && IsDigit(text[e - 1])
    ensures forall k :: p <= k < e ==> IsDigit(text[k]) || text[k] == ','
    ensures e < |text| ==> !IsDigit(text[e]) && !(e + 1 < |text| && text[e] == ',' && IsDigit(text[e + 1]))
    decreases |text| - p
  {
    var q := DigitRunEnd(text, p);
    if q + 1 < |text| && text[q] == ',' && IsDigit(text[q + 1]) then GroupEnd(text, q + 1) else q
  }

  /** `.replace(',', '')`. */
  function NoCommas(s: string): (r: string)
    ensures ',' !in r
    ensures (forall k :: 0 <= k < |s| ==> IsDigit(s[k]) || s[k] == ',') ==> AllDigits(r)
  {
    if s == [] then []
    else
      var p := s[..|s| - 1];
      assert forall k :: 0 <= k < |p| ==> p[k] == s[k];
      NoCommas(p) + (if s[|s| - 1] == ',' then [] else [s[|s| - 1]])
  }

  /**
   * parse_view_count. `만` anywhere in the text selects the 10000 pattern even when it does
   * not match (then the result is 0); otherwise `천` selects the 1000 pattern; otherwise the
   * leftmost comma-grouped number is read with its commas dropped.
   */
  function ParseViewCount(text: string): int
  {
    if '만' in text then
      match SearchMatch(text, '만')
      case Some(m) => Scaled(m, 10000)
      case None => 0
    else if '천' in text then
      match SearchMatch(text, '천')
      case Some(m) => Scaled(m, 1000)
      case None => 0
    else
      match FirstDigit(text, 0)
      case Some(p) => DigitsValue(NoCommas(text[p..GroupEnd(text, p)]))
      case None => 0
  }

  /** A unit pattern needs a digit where it starts. */
  lemma {:induction false} NoDigitNoUnit(text: string, unit: char, p: nat)
    requires p <= |text| && forall k :: 0 <= k < |text| ==> !IsDigit(text[k])
    ensures SearchUnit(text, unit, p).None?
    decreases |text| - p
  {
    if p < |text| {
      NoDigitNoUnit(text, unit, p + 1);
    }
  }

  /** Text without a digit counts no views. */
  lemma NoDigitZero(text: string)
    requires forall k :: 0 <= k < |text| ==> !IsDigit(text[k])
    ensures ParseViewCount(text) == 0
  {
    NoDigitNoUnit(text, '만', 0);
    NoDigitNoUnit(text, '천', 0);
  }

  /**
   * With `만` present the count is a `만` match scaled by 10000, or 0 when there is none,
   * whatever `천` the text holds; it is never negative and never below the integer part
   * times 10000, and a whole number of `만` gives exactly that many ten-thousands.
   */
  lemma ManTakesPrecedence(text: string)
    requires '만' in text
    ensures SearchMatch(text, '만').None? ==> ParseViewCount(text) == 0
    ensures SearchMatch(text, '만').Some? ==>
      var m := SearchMatch(text, '만').value;
      ParseViewCount(text) >= DigitsValue(m.intDigits) * 10000 >= 0
      && (m.fracDigits == [] ==> ParseViewCount(text) == DigitsValue(m.intDigits) * 10000)
  {
    match SearchMatch(text, '만')
    case Some(m) => ScaledBounds(m, 10000);
    case None =>
  }

  /** Without `만`, a `천` selects the 1000 pattern in the same way. */
  lemma CheonPattern(text: string)
    requires '만' !in text && '천' in text
    ensures SearchMatch(text, '천').None? ==> ParseViewCount(text) == 0
    ensures SearchMatch(text, '천').Some? ==>
      var m := SearchMatch(text, '천').value;
      ParseViewCount(text) >= DigitsValue(m.intDigits) * 1000 >= 0
      && (m.fracDigits == [] ==> ParseViewCount(text) == DigitsValue(m.intDigits) * 1000)
  {
    match SearchMatch(text, '천')
    case Some(m) => ScaledBounds(m, 1000);
    case None =>
  }

  /** The example the crawler documents: `조회수 15만회` reads as 150000. */
  lemma DocumentedExample()
    ensures ParseViewCount("조회수 15만회") == 150000
  {
    var t := "조회수 15만회";
    assert t[6] == '만' && '만' in t;
    assert !IsDigit(t[0]) && !IsDigit(t[1]) && !IsDigit(t[2]) && !IsDigit(t[3]);
    assert DigitRunEnd(t, 4) == 6 by {
      assert DigitRunEnd(t, 6) == 6;
    }
    assert SpaceRunEnd(t, 6) == 6;
    assert UnitAt(t, 4, '만') == Some(UnitMatch("15", [], 6)) by {
      assert t[4..6] == "15";
    }
    assert SearchUnit(t, '만', 0) == Some(4);
    assert DigitsValue("15") == 15 by {
      assert "15"[..1] == "1";
    }
  }

  /** Without either unit the count reads the leftmost digit group, which holds only digits and commas. */
  lemma PlainCountShape(text: string)
    requires '만' !in text && '천' !in text
    ensures FirstDigit(text, 0).None? ==> ParseViewCount(text) == 0
    ensures FirstDigit(text, 0).Some? ==>
      var p := FirstDigit(text, 0).value;
      var g := text[p..GroupEnd(text, p)];
      ParseViewCount(text) == DigitsValue(NoCommas(g)) && AllDigits(NoCommas(g))
      && forall k :: 0 <= k < p ==> !IsDigit(text[k])
  {
    match FirstDigit(text, 0)
    case Some(p) =>
      var g := text[p..GroupEnd(text, p)];
      assert forall k :: 0 <= k < |g| ==> g[k] == text[p + k];
    case None =>
  }

  // ---------------------------------------------------------------------------
  // calculate_quality_score

  /** The view-count part: 100, 80, 60 or 40 at 100000, 50000 and 10000 views. */
  function ViewScore(viewCount: int): (s: int)
    ensures s == 40 || s == 60 || s == 80 || s == 100
    ensures s == 100 <==> viewCount >= 100000
    ensures s == 40 <==> viewCount < 10000
  {
    if viewCount >= 100000 then 100 else if viewCount >= 50000 then 80 else if viewCount >= 10000 then 60 else 40
  }

  /**
   * calculate_quality_score: 30% of the view score, 20% of the channel score (100 for a
   * whitelisted channel, 50 otherwise), and the fixed 60 × 20% freshness and 50 × 30% like
   * parts. Every part is a whole number, so the sum is one too.
   */
  function QualityScore(viewCount: int, isWhitelist: bool): (q: int)
    ensures 49 <= q <= 77
  {
    ViewScore(viewCount) * 3 / 10 + (if isWhitelist then 100 else 50) / 5 + 60 / 5 + 50 * 3 / 10
  }

  /** More views never lower the score, and a whitelisted channel adds exactly 10 points. */
  lemma QualityMonotone(v1: int, v2: int, isWhitelist: bool)
    requires v1 <= v2
    ensures QualityScore(v1, isWhitelist) <= QualityScore(v2, isWhitelist)
    ensures QualityScore(v1, true) == QualityScore(v1, false) + 10
  {
  }

  // ---------------------------------------------------------------------------
  // filter_videos

  /** A crawled video; `title` and `view_count` may be missing. */
  datatype Video = Video(videoId: string, title: Option<string>, viewCount: Option<int>)

  function TitleOf(v: Video): string { OrElse(v.title, "") }

  /** `any(kw.lower() in title.lower() for kw in keywords)`. */
  predicate MentionsAny(title: string, keywords: seq<string>)
  {
    exists k :: 0 <= k < |keywords| && Contains(Lower(title), Lower(keywords[k]))
  }

  function NotBlacklisted(blacklist: seq<string>): Video -> bool
  {
    (v: Video) => !MentionsAny(TitleOf(v), blacklist)
  }

  /** filter_videos, with `config["blacklist"]["title"]` passed in ([] when missing); the minimum-view test lets every video through. */
  method FilterVideos(videos: seq<Video>, blacklistTitle: seq<string>) returns (filtered: seq<Video>)
    ensures filtered == Filter(videos, NotBlacklisted(blacklistTitle))
  {
    filtered := [];
    var i := 0;
    while i < |videos|
      invariant 0 <= i <= |videos|
      invariant filtered == Filter(videos[..i], NotBlacklisted(blacklistTitle))
    {
      FilterStep(videos, i, NotBlacklisted(blacklistTitle));
      var video := videos[i];
      var title := TitleOf(video);
      var isBlacklisted := MentionsAny(title, blacklistTitle);
      if !isBlacklisted {
        filtered := filtered + [video];
      }
      i := i + 1;
    }
    assert videos[..|videos|] == videos;
  }

  /** The filter keeps the order and drops exactly the videos whose title contains a blacklisted keyword. */
  lemma FilterVideosExact(videos: seq<Video>, blacklistTitle: seq<string>)
    ensures IsSubseq(Filter(videos, NotBlacklisted(blacklistTitle)), videos)
    ensures forall v :: v in Filter(videos, NotBlacklisted(blacklistTitle)) <==> v in videos && !MentionsAny(TitleOf(v), blacklistTitle)
  {
    FilterExact(videos, NotBlacklisted(blacklistTitle));
    forall v | v in videos && !MentionsAny(TitleOf(v), blacklistTitle)
      ensures v in Filter(videos, NotBlacklisted(blacklistTitle))
    {
      var i :| 0 <= i < |videos| && videos[i] == v;
      assert NotBlacklisted(blacklistTitle)(videos[i]);
    }
  }

  // ---------------------------------------------------------------------------
  // crawl_youtube: keyword search and dedup

  /** One entry of `config["categories"]`; `keywords` maps priority_1..priority_3 to keyword lists. */
  datatype CategoryConfig = CategoryConfig(name: Option<string>, keywords: map<string, seq<string>>, excludeKeywords: seq<string>)

  function Priority(keywords: map<string, seq<string>>, p: string): seq<string>
  {
    if p in keywords then keywords[p] else []
  }

  /** `all_keywords[:3]` over the priority lists in order. */
  function SelectKeywords(keywords: map<string, seq<string>>): (r: seq<string>)
    ensures var all := Priority(keywords, "priority_1") + Priority(keywords, "priority_2") + Priority(keywords, "priority_3");
      |r| == (if |all| <= 3 then |all| else 3) && r == all[..|r|]
  {
    Take(Priority(keywords, "priority_1") + Priority(keywords, "priority_2") + Priority(keywords, "priority_3"), 3)
  }

  /** A collected video, tagged with its category and its score for a non-whitelisted channel. */
  datatype Collected = Collected(video: Video, category: string, qualityScore: int)

  /** `category_data`. */
  datatype CategoryData = CategoryData(categoryKey: string, categoryName: string, videos: seq<Collected>)

  function IdsOf(vs: seq<Video>): set<string>
  {
    set i | 0 <= i < |vs| :: vs[i].videoId
  }

  /** The body of the video loop: a video is taken when its id is new and its title mentions no excluded keyword. */
  function KeepVideo(seen: set<string>, exclude: seq<string>): (seq<Video>, Video) -> bool
  {
    (acc: seq<Video>, v: Video) => v.videoId !in seen && v.videoId !in IdsOf(acc) && !MentionsAny(TitleOf(v), exclude)
  }

  /** The search results of the selected keywords, in keyword order. */
  function KeywordResults(key: string, kws: seq<string>, search: (string, string) -> seq<Video>): seq<seq<Video>>
  {
    if kws == [] then [] else KeywordResults(key, kws[..|kws| - 1], search) + [search(key, kws[|kws| - 1])]
  }

  function Tag(key: string): Video -> Collected
  {
    (v: Video) => Collected(v, key, QualityScore(OrElse(v.viewCount, 0), false))
  }

  /** The videos one category collects, given the ids collected before it. */
  function CategoryVideos(key: string, c: CategoryConfig, seen: set<string>, search: (string, string) -> seq<Video>): seq<Collected>
  {
    Map(Greedy(Flatten(KeywordResults(key, SelectKeywords(c.keywords), search)), KeepVideo(seen, c.excludeKeywords)), Tag(key))
  }

  function CollectedIds(vs: seq<Collected>): set<string>
  {
    set i | 0 <= i < |vs| :: vs[i].video.videoId
  }

  /** `collected_ids` after the given categories. */
  function SeenIds(cats: seq<CategoryData>): set<string>
  {
    if cats == [] then {} else SeenIds(cats[..|cats| - 1]) + CollectedIds(cats[|cats| - 1].videos)
  }

  /** `categories or list(categories_config.keys())`: an empty or missing list means every configured category. */
  function TargetKeys(configOrder: seq<string>, categories: seq<string>): seq<string>
  {
    if categories == [] then configOrder else categories
  }

  /** The categories the loop produces over `keys`; a key without a config entry is skipped. */
  function CrawlSpec(keys: seq<string>, config: map<string, CategoryConfig>, search: (string, string) -> seq<Video>): seq<CategoryData>
  {
    if keys == [] then []
    else
      var prev := CrawlSpec(keys[..|keys| - 1], config, search);
      var key := keys[|keys| - 1];
      if key !in config then prev
      else prev + [CategoryData(key, OrElse(config[key].name, key), CategoryVideos(key, config[key], SeenIds(prev), search))]
  }

  lemma SeenStep(acc: seq<Video>, v: Video)
    ensures IdsOf(acc + [v]) == IdsOf(acc) + {v.videoId}
  {
    var r := acc + [v];
    assert forall i :: 0 <= i < |acc| ==> r[i] == acc[i];
    assert r[|acc|] == v;
  }

  lemma TaggedIds(acc: seq<Video>, key: string)
    ensures CollectedIds(Map(acc, Tag(key))) == IdsOf(acc)
  {
    var m := Map(acc, Tag(key));
    forall id | id in IdsOf(acc) ensures id in CollectedIds(m) {
      var i :| 0 <= i < |acc| && acc[i].videoId == id;
      assert m[i].video == acc[i];
    }
  }

  /** One more search result: the greedy pass decides on it alone. */
  lemma KeepStep(done: seq<Video>, videos: seq<Video>, j: nat, keep: (seq<Video>, Video) -> bool)
    requires j < |videos|
    ensures var acc := Greedy(done + videos[..j], keep);
      Greedy(done + videos[..j + 1], keep) == if keep(acc, videos[j]) then acc + [videos[j]] else acc
  {
    assert done + videos[..j + 1] == (done + videos[..j]) + [videos[j]];
    GreedySnoc(done + videos[..j], videos[j], keep);
  }

  /** The loop over one keyword's videos. */
  method CollectKeyword(seen: set<string>, exclude: seq<string>, done: seq<Video>, acc: seq<Video>, ids: set<string>, videos: seq<Video>)
    returns (acc': seq<Video>, ids': set<string>)
    requires acc == Greedy(done, KeepVideo(seen, exclude)) && ids == seen + IdsOf(acc)
    ensures acc' == Greedy(done + videos, KeepVideo(seen, exclude)) && ids' == seen + IdsOf(acc')
  {
    acc', ids' := acc, ids;
    var j := 0;
    assert done + videos[..0] == done;
    while j < |videos|
      invariant 0 <= j <= |videos|
      invariant acc' == Greedy(done + videos[..j], KeepVideo(seen, exclude))
      invariant ids' == seen + IdsOf(acc')
    {
      var video := videos[j];
      KeepStep(done, videos, j, KeepVideo(seen, exclude));
      SeenStep(acc', video);
      if video.videoId !in ids' {
        var isExcluded := MentionsAny(TitleOf(video), exclude);
        if !isExcluded {
          ids' := ids' + {video.videoId};
          acc' := acc' + [video];
        }
      }
      j := j + 1;
    }
    assert videos[..|videos|] == videos;
  }

  lemma KeywordResultsStep(key: string, kws: seq<string>, k: nat, search: (string, string) -> seq<Video>)
    requires k < |kws|
    ensures Flatten(KeywordResults(key, kws[..k + 1], search)) == Flatten(KeywordResults(key, kws[..k], search)) + search(key, kws[k])
  {
    assert kws[..k + 1][..k] == kws[..k];
    FlattenSnoc(KeywordResults(key, kws[..k], search), search(key, kws[k]));
  }

  /** The keyword loop of one category. */
  method CollectCategory(key: string, c: CategoryConfig, seen: set<string>, search: (string, string) -> seq<Video>)
    returns (data: CategoryData, seen': set<string>)
    ensures data == CategoryData(key, OrElse(c.name, key), CategoryVideos(key, c, seen, search))
    ensures seen' == seen + CollectedIds(data.videos)
  {
    var kws := SelectKeywords(c.keywords);
    var acc: seq<Video> := [];
    var ids := seen;
    var k := 0;
    while k < |kws|
      invariant 0 <= k <= |kws|
      invariant acc == Greedy(Flatten(KeywordResults(key, kws[..k], search)), KeepVideo(seen, c.excludeKeywords))
      invariant ids == seen + IdsOf(acc)
    {
      var videos := search(key, kws[k]);
      KeywordResultsStep(key, kws, k, search);
      acc, ids := CollectKeyword(seen, c.excludeKeywords, Flatten(KeywordResults(key, kws[..k], search)), acc, ids, videos);
      k := k + 1;
    }
    assert kws[..|kws|] == kws;
    TaggedIds(acc, key);
    data := CategoryData(key, OrElse(c.name, key), Map(acc, Tag(key)));
    seen' := ids;
  }

  lemma CrawlStep(keys: seq<string>, i: nat, config: map<string, CategoryConfig>, search: (string, string) -> seq<Video>)
    requires i < |keys|
    ensures var prev := CrawlSpec(keys[..i], config, search);
      CrawlSpec(keys[..i + 1], config, search) == if keys[i] !in config then prev
        else prev + [CategoryData(keys[i], OrElse(config[keys[i]].name, keys[i]), CategoryVideos(keys[i], config[keys[i]], SeenIds(prev), search))]
  {
    assert keys[..i + 1][..i] == keys[..i];
  }

  lemma SeenSnoc(cats: seq<CategoryData>, d: CategoryData)
    ensures SeenIds(cats + [d]) == SeenIds(cats) + CollectedIds(d.videos)
  {
    assert (cats + [d])[..|cats|] == cats;
  }

  /**
   * The keyword-search part of crawl_youtube (the channel crawl is off by default). The
   * search results come from `search(category, keyword)`; transcripts and timestamps are
   * not modelled.
   */
  method CrawlYoutube(configOrder: seq<string>, config: map<string, CategoryConfig>, categories: seq<string>,
                      search: (string, string) -> seq<Video>)
    returns (cats: seq<CategoryData>, totalVideos: nat)
    ensures cats == CrawlSpec(TargetKeys(configOrder, categories), config, search)
    ensures totalVideos == |Flatten(Map(cats, VideosOf))|
  {
    var keys := TargetKeys(configOrder, categories);
    cats := [];
    totalVideos := 0;
    var collectedIds: set<string> := {};
    var i := 0;
    while i < |keys|
      invariant 0 <= i <= |keys|
      invariant cats == CrawlSpec(keys[..i], config, search)
      invariant collectedIds == SeenIds(cats)
      invariant totalVideos == |Flatten(Map(cats, VideosOf))|
    {
      var key := keys[i];
      CrawlStep(keys, i, config, search);
      if key in config {
        var data, ids := CollectCategory(key, config[key], collectedIds, search);
        SeenSnoc(cats, data);
        MapSnoc(cats, data, VideosOf);
        FlattenSnoc(Map(cats, VideosOf), data.videos);
        cats := cats + [data];
        collectedIds := ids;
        totalVideos := totalVideos + |data.videos|;
      }
      i := i + 1;
    }
    assert keys[..|keys|] == keys;
  }

  function VideosOf(d: CategoryData): seq<Collected> { d.videos }

  /** Distinct ids, none of them in `seen`, and no title mentioning an excluded keyword. */
  predicate FreshVideos(g: seq<Video>, seen: set<string>, exclude: seq<string>)
  {
    (forall i, j :: 0 <= i < j < |g| ==> g[i].videoId != g[j].videoId)
    && forall i :: 0 <= i < |g| ==> g[i].videoId !in seen && !MentionsAny(TitleOf(g[i]), exclude)
  }

  /** The greedy pass takes distinct ids, none seen before, and no excluded title. */
  lemma GreedyKeepDistinct(s: seq<Video>, seen: set<string>, exclude: seq<string>)
    ensures FreshVideos(Greedy(s, KeepVideo(seen, exclude)), seen, exclude)
  {
    var g := Greedy(s, KeepVideo(seen, exclude));
    forall j | 0 <= j < |g|
      ensures g[j].videoId !in seen && !MentionsAny(TitleOf(g[j]), exclude)
      ensures forall i :: 0 <= i < j ==> g[i].videoId != g[j].videoId
    {
      GreedyAccepted(s, KeepVideo(seen, exclude), j);
      assert g[j].videoId !in IdsOf(g[..j]);
      forall i | 0 <= i < j ensures g[i].videoId != g[j].videoId {
        assert g[..j][i] == g[i];
      }
    }
  }

  /** No collected video repeats an id, within or across categories. */
  predicate DistinctIds(vs: seq<Collected>)
  {
    forall i, j :: 0 <= i < j < |vs| ==> vs[i].video.videoId != vs[j].video.videoId
  }

  /** What one category adds: fresh distinct ids, no excluded title, tagged with its key and its score. */
  lemma CategoryVideosShape(key: string, c: CategoryConfig, seen: set<string>, search: (string, string) -> seq<Video>)
    ensures var vs := CategoryVideos(key, c, seen, search);
      DistinctIds(vs)
      && forall i :: 0 <= i < |vs| ==> (vs[i].video.videoId !in seen && !MentionsAny(TitleOf(vs[i].video), c.excludeKeywords)
        && vs[i].category == key && vs[i].qualityScore == QualityScore(OrElse(vs[i].video.viewCount, 0), false))
  {
    var s := Flatten(KeywordResults(key, SelectKeywords(c.keywords), search));
    var g := Greedy(s, KeepVideo(seen, c.excludeKeywords));
    GreedyKeepDistinct(s, seen, c.excludeKeywords);
    assert FreshVideos(g, seen, c.excludeKeywords);
    var vs := Map(g, Tag(key));
    assert vs == CategoryVideos(key, c, seen, search);
    forall i | 0 <= i < |vs|
      ensures vs[i] == Collected(g[i], key, QualityScore(OrElse(g[i].viewCount, 0), false))
    {
      assert vs[i] == Tag(key)(g[i]);
    }
    forall i, j | 0 <= i < j < |vs| ensures vs[i].video.videoId != vs[j].video.videoId {
      assert vs[i].video == g[i] && vs[j].video == g[j];
    }
    forall i | 0 <= i < |vs| ensures vs[i].video.videoId !in seen && !MentionsAny(TitleOf(vs[i].video), c.excludeKeywords) {
      assert vs[i].video == g[i];
    }
  }

  lemma CollectedIdsAppend(a: seq<Collected>, b: seq<Collected>)
    ensures CollectedIds(a + b) == CollectedIds(a) + CollectedIds(b)
  {
    var ab := a + b;
    forall id | id in CollectedIds(a + b) ensures id in CollectedIds(a) + CollectedIds(b) {
      var i :| 0 <= i < |ab| && ab[i].video.videoId == id;
      if i < |a| { assert ab[i] == a[i]; } else { assert ab[i] == b[i - |a|]; }
    }
    forall id | id in CollectedIds(a) ensures id in CollectedIds(a + b) {
      var i :| 0 <= i < |a| && a[i].video.videoId == id;
      assert ab[i] == a[i];
    }
    forall id | id in CollectedIds(b) ensures id in CollectedIds(a + b) {
      var i :| 0 <= i < |b| && b[i].video.videoId == id;
      assert ab[|a| + i] == b[i];
    }
  }

  /** `collected_ids` holds exactly the ids of the videos collected so far. */
  lemma {:induction false} SeenIdsExact(cats: seq<CategoryData>)
    ensures SeenIds(cats) == CollectedIds(Flatten(Map(cats, VideosOf)))
  {
    if cats != [] {
      var p := cats[..|cats| - 1];
      var d := cats[|cats| - 1];
      SeenIdsExact(p);
      assert cats == p + [d];
      MapSnoc(p, d, VideosOf);
      FlattenSnoc(Map(p, VideosOf), d.videos);
      CollectedIdsAppend(Flatten(Map(p, VideosOf)), d.videos);
    }
  }

  lemma DistinctAppend(a: seq<Collected>, b: seq<Collected>)
    requires DistinctIds(a) && DistinctIds(b)
    requires forall j :: 0 <= j < |b| ==> b[j].video.videoId !in CollectedIds(a)
    ensures DistinctIds(a + b)
  {
    var ab := a + b;
    forall i, j | 0 <= i < j < |ab| ensures ab[i].video.videoId != ab[j].video.videoId {
      if j >= |a| {
        assert ab[j] == b[j - |a|];
        if i >= |a| {
          assert ab[i] == b[i - |a|];
        } else {
          assert ab[i] == a[i];
          assert a[i].video.videoId in CollectedIds(a);
        }
      } else {
        assert ab[i] == a[i] && ab[j] == a[j];
      }
    }
  }

  /** Across all categories each video id is collected at most once: `collected_ids` is never bypassed. */
  lemma {:induction false} CrawlDistinct(keys: seq<string>, config: map<string, CategoryConfig>, search: (string, string) -> seq<Video>)
    ensures DistinctIds(Flatten(Map(CrawlSpec(keys, config, search), VideosOf)))
  {
    if keys != [] {
      var p := keys[..|keys| - 1];
      var key := keys[|keys| - 1];
      var prev := CrawlSpec(p, config, search);
      CrawlDistinct(p, config, search);
      if key in config {
        var d := CategoryData(key, OrElse(config[key].name, key), CategoryVideos(key, config[key], SeenIds(prev), search));
        assert CrawlSpec(keys, config, search) == prev + [d];
        CategoryVideosShape(key, config[key], SeenIds(prev), search);
        SeenIdsExact(prev);
        MapSnoc(prev, d, VideosOf);
        FlattenSnoc(Map(prev, VideosOf), d.videos);
        DistinctAppend(Flatten(Map(prev, VideosOf)), d.videos);
      }
    }
  }
}
