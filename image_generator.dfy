/**
 * The thumbnail stage: an image prompt per article, one image request per article,
 * a per-category running index in the file name, and the category's default image
 * when a request fails.
 */
module ImageGenerator {
  import opened Util

  /** The article fields the thumbnail stage reads and writes (a missing key is None). */
  datatype Piece = Piece(title: Option<string>, category: Option<string>, hashtags: Option<seq<string>>, imageUrl: Option<string>)

  /** `image_config`; a missing key is None. */
  datatype ImageConfig = ImageConfig(model: Option<string>, requestInterval: Option<real>, defaultImages: Option<map<string, string>>)

  /** Whether the `k`-th image request, sent with the prompt `BuildPrompt(a)` of article `a`, returns an image part that is saved. */
  type Images = (nat, Piece) -> bool

  const CategoryTranslate: map<string, string> := map[
    "Economy" := "economy and finance", "Money" := "personal finance and investment",
    "Society" := "society and politics", "Trend" := "trending culture and lifestyle",
    "경제" := "economy and finance", "재테크" := "personal finance and investment",
    "사회" := "society and politics", "트렌딩" := "trending culture and lifestyle"]

  const CategoryKr: map<string, string> := map[
    "Economy" := "경제", "Money" := "재테크", "Society" := "사회", "Trend" := "트렌딩"]

  /** `article.get("category", "Trend")`. */
  function CategoryOf(a: Piece): string
  {
    OrElse(a.category, "Trend")
  }

  /** `CATEGORY_KR.get(category, category)`. */
  function KrName(category: string): string
  {
    if category in CategoryKr then CategoryKr[category] else category
  }

  /** `CATEGORY_TRANSLATE.get(category, "news")`. */
  function CategoryEn(category: string): string
  {
    if category in CategoryTranslate then CategoryTranslate[category] else "news"
  }

  /** An English category and its Korean name are described to the image model in the same words. */
  lemma TranslateAgreesWithKr(category: string)
    requires category in CategoryKr
    ensures CategoryEn(KrName(category)) == CategoryEn(category) != "news"
  {
  }

  /** `", ".join(hashtags[:3]) if hashtags else ""`. */
  function TagsText(hashtags: seq<string>): string
  {
    if hashtags == [] then "" else Join(Take(hashtags, 3), ", ")
  }

  /** The keywords are empty without hashtags and name each of the first three hashtags otherwise. */
  lemma TagsMention(hashtags: seq<string>)
    ensures hashtags == [] ==> TagsText(hashtags) == ""
    ensures forall i :: 0 <= i < |hashtags| && i < 3 ==> Contains(TagsText(hashtags), hashtags[i])
  {
    forall i | 0 <= i < |hashtags| && i < 3 ensures Contains(TagsText(hashtags), hashtags[i]) {
      JoinContains(Take(hashtags, 3), ", ", i);
    }
  }

  const PromptIntro: string := "Create a photorealistic news thumbnail image for a Korean news article. "
  const PromptRequirements: string :=
    "Requirements: NO text or letters in the image, clean composition, professional news media style, suitable as a 16:9 thumbnail."

  function CategoryLine(categoryEn: string): string { "Category: " + categoryEn + ". " }
  function TitleLine(title: string): string { "Article title: " + title + ". " }
  function KeywordsLine(tags: string): string { "Related keywords: " + tags + ". " }

  /** The article-specific middle of the prompt. */
  function PromptLines(a: Piece): string
  {
    CategoryLine(CategoryEn(CategoryOf(a))) + TitleLine(OrElse(a.title, "")) + KeywordsLine(TagsText(OrElse(a.hashtags, [])))
  }

  /** `_build_prompt(article)`. */
  function BuildPrompt(a: Piece): string
  {
    PromptIntro + PromptLines(a) + PromptRequirements
  }

  /** The prompt names the English category (or "news"), the title, and the hashtag keywords. */
  lemma PromptMentions(a: Piece)
    ensures Contains(BuildPrompt(a), CategoryLine(CategoryEn(CategoryOf(a))))
    ensures Contains(BuildPrompt(a), TitleLine(OrElse(a.title, "")))
    ensures Contains(BuildPrompt(a), KeywordsLine(TagsText(OrElse(a.hashtags, []))))
  {
    var c := CategoryLine(CategoryEn(CategoryOf(a)));
    var t := TitleLine(OrElse(a.title, ""));
    var k := KeywordsLine(TagsText(OrElse(a.hashtags, [])));
    LinesMention(c, t, k);
    ContainsInMiddle(PromptIntro, PromptLines(a), PromptRequirements, c);
    ContainsInMiddle(PromptIntro, PromptLines(a), PromptRequirements, t);
    ContainsInMiddle(PromptIntro, PromptLines(a), PromptRequirements, k);
  }

  lemma LinesMention(c: string, t: string, k: string)
    ensures Contains(c + t + k, c) && Contains(c + t + k, t) && Contains(c + t + k, k)
  {
    assert c <= c + t + k;
    assert t <= t + k;
    ContainsSuffix(c, t + k, t);
    assert c + (t + k) == c + t + k;
    assert Contains(k, k) by { assert k <= k; }
    ContainsSuffix(c + t, k, k);
  }

  lemma ContainsInMiddle(p: string, m: string, q: string, sub: string)
    requires Contains(m, sub)
    ensures Contains(p + m + q, sub)
  {
    ContainsSuffix(p, m, sub);
    ContainsPrefix(p + m, q, sub);
  }

  /** The saved file's public path: `/thumbnails/{date}/{category_kr}_{index}.png`. */
  function ThumbUrl(dateStr: string, category: string, index: nat): string
  {
    "/thumbnails/" + dateStr + "/" + KrName(category) + "_" + NatToString(index) + ".png"
  }

  /** Two indices of one category give two different files. */
  lemma ThumbUrlInjective(dateStr: string, category: string, i: nat, j: nat)
    requires ThumbUrl(dateStr, category, i) == ThumbUrl(dateStr, category, j)
    ensures i == j
  {
    var p := "/thumbnails/" + dateStr + "/" + KrName(category) + "_";
    var u := ThumbUrl(dateStr, category, i);
    assert u == p + NatToString(i) + ".png";
    assert ThumbUrl(dateStr, category, j) == p + NatToString(j) + ".png";
    assert |NatToString(i)| == |NatToString(j)|;
    assert NatToString(i) == u[|p|..|u| - 4];
    assert NatToString(j) == u[|p|..|u| - 4];
    NatToStringValue(i);
    NatToStringValue(j);
  }

  /** The index `generate_all` passes for article `i`: its position among the articles of its category so far, from 1. */
  function IndexIn(s: seq<Piece>, i: nat): nat
    requires i < |s|
  {
    KeyCount(s[..i + 1], CategoryOf, CategoryOf(s[i]))
  }

  /** Within a category the indices are 1, 2, 3, ... in article order. */
  lemma IndexOrder(s: seq<Piece>, i: nat, j: nat)
    requires i < j < |s| && CategoryOf(s[i]) == CategoryOf(s[j])
    ensures IndexIn(s, i) >= 1
    ensures IndexIn(s, i) < IndexIn(s, j)
    ensures (forall k :: i < k < j ==> CategoryOf(s[k]) != CategoryOf(s[i])) ==> IndexIn(s, j) == IndexIn(s, i) + 1
  {
    var d := CategoryOf(s[i]);
    KeyCountSome(s[..i + 1], CategoryOf, d, i);
    assert s[..j + 1] == s[..i + 1] + s[i + 1..j] + [s[j]];
    KeyCountAppend(s[..i + 1] + s[i + 1..j], [s[j]], CategoryOf, d);
    KeyCountAppend(s[..i + 1], s[i + 1..j], CategoryOf, d);
    assert KeyCount([s[j]], CategoryOf, d) == 1 by {
      assert [s[j]][..0] == [];
    }
    if forall k :: i < k < j ==> CategoryOf(s[k]) != d {
      var mid := s[i + 1..j];
      assert forall k :: 0 <= k < |mid| ==> mid[k] == s[i + 1 + k];
      KeyCountNone(mid, CategoryOf, d);
    }
  }

  /** The first article of a category gets index 1. */
  lemma IndexFirst(s: seq<Piece>, i: nat)
    requires i < |s| && forall k :: 0 <= k < i ==> CategoryOf(s[k]) != CategoryOf(s[i])
    ensures IndexIn(s, i) == 1
  {
    var d := CategoryOf(s[i]);
    assert s[..i + 1][..i] == s[..i];
    assert forall k :: 0 <= k < i ==> s[..i][k] == s[k];
    KeyCountNone(s[..i], CategoryOf, d);
  }

  /** One step of `cat_counters`: the bumped entry is the article's index, and the dict counts one more article. */
  lemma CounterStep(s: seq<Piece>, i: nat, counters: map<string, nat>)
    requires i < |s| && counters == KeyCounts(s[..i], CategoryOf)
    ensures CountIn(counters, CategoryOf(s[i])) + 1 == IndexIn(s, i)
    ensures counters[CategoryOf(s[i]) := CountIn(counters, CategoryOf(s[i])) + 1] == KeyCounts(s[..i + 1], CategoryOf)
  {
    KeyCountsExact(s[..i], CategoryOf, CategoryOf(s[i]));
    KeyCountsSnoc(s[..i], s[i], CategoryOf);
    assert s[..i + 1] == s[..i] + [s[i]];
    assert s[..i + 1][..i] == s[..i];
  }

  class ThumbnailGenerator {
    const model: string
    const interval: real
    const defaultImages: map<string, string>
    const dateStr: string

    /** `__init__` past the API-key check; `today` is `datetime.now().strftime("%Y%m%d")`. */
    constructor (config: ImageConfig, today: string)
      ensures model == OrElse(config.model, "gemini-2.5-flash-image")
      ensures interval == OrElse(config.requestInterval, 1.0)
      ensures defaultImages == OrElse(config.defaultImages, map[])
      ensures dateStr == today
    {
      model := OrElse(config.model, "gemini-2.5-flash-image");
      interval := OrElse(config.requestInterval, 1.0);
      defaultImages := OrElse(config.defaultImages, map[]);
      dateStr := today;
    }

    /** `generate_one(article, index)` as the `k`-th request: the file's URL, or None when no image came back. */
    function GenerateOne(a: Piece, index: nat, k: nat, images: Images): (r: Option<string>)
    {
      if images(k, a) then Some(ThumbUrl(dateStr, CategoryOf(a), index)) else None
    }

    /** `self.default_images.get(CATEGORY_KR.get(cat, cat), "")`. */
    function FallbackUrl(category: string): string
    {
      if KrName(category) in defaultImages then defaultImages[KrName(category)] else ""
    }

    /** The `image_url` article `i` ends with. */
    function UrlAt(s: seq<Piece>, i: nat, images: Images): string
      requires i < |s|
    {
      match GenerateOne(s[i], IndexIn(s, i), i, images)
      case Some(url) => url
      case None => FallbackUrl(CategoryOf(s[i]))
    }

    /** The articles after `generate_all`: each one's `image_url` set, nothing else changed. */
    function Thumbnailed(s: seq<Piece>, images: Images): (r: seq<Piece>)
    {
      seq(|s|, i requires 0 <= i < |s| => s[i].(imageUrl := Some(UrlAt(s, i, images))))
    }

    /** How many of the first `n` requests returned an image. */
    function Successes(s: seq<Piece>, images: Images, n: nat): nat
      requires n <= |s|
    {
      if n == 0 then 0
      else Successes(s, images, n - 1) + (if GenerateOne(s[n - 1], IndexIn(s, n - 1), n - 1, images).Some? then 1 else 0)
    }

    /** Every article gets an image URL: its own file when the request succeeded, otherwise its category's default image or "". */
    lemma ThumbnailedAt(s: seq<Piece>, images: Images, i: nat)
      requires i < |s|
      ensures |Thumbnailed(s, images)| == |s|
      ensures var t := Thumbnailed(s, images)[i];
        && t.title == s[i].title && t.category == s[i].category && t.hashtags == s[i].hashtags
        && t.imageUrl.Some?
        && (images(i, s[i]) ==> t.imageUrl.value == ThumbUrl(dateStr, CategoryOf(s[i]), IndexIn(s, i)))
        && (!images(i, s[i]) && KrName(CategoryOf(s[i])) in defaultImages ==>
              t.imageUrl.value == defaultImages[KrName(CategoryOf(s[i]))])
        && (!images(i, s[i]) && KrName(CategoryOf(s[i])) !in defaultImages ==> t.imageUrl.value == "")
    {
    }

    /**
     * The counters are keyed by the category as written, but the file name uses its Korean
     * name: a first "Economy" article and a first "경제" article both get index 1 and, when
     * both images are saved, both write `경제_1.png`, the second overwriting the first.
     */
    lemma SharedKrNameCollision()
      ensures var s := [Piece(Some("a"), Some("Economy"), None, None), Piece(Some("b"), Some("경제"), None, None)];
        var saved := (k: nat, a: Piece) => true;
        CategoryOf(s[0]) != CategoryOf(s[1]) && UrlAt(s, 0, saved) == UrlAt(s, 1, saved)
          && UrlAt(s, 0, saved) == ThumbUrl(dateStr, "경제", 1)
    {
      var s := [Piece(Some("a"), Some("Economy"), None, None), Piece(Some("b"), Some("경제"), None, None)];
      IndexFirst(s, 0);
      IndexFirst(s, 1);
      assert KrName("Economy") == "경제" == KrName("경제");
    }

    /** No two successful articles of one category write the same file. */
    lemma DistinctFiles(s: seq<Piece>, images: Images, i: nat, j: nat)
      requires i < j < |s| && CategoryOf(s[i]) == CategoryOf(s[j])
      requires images(i, s[i]) && images(j, s[j])
      ensures UrlAt(s, i, images) != UrlAt(s, j, images)
    {
      IndexOrder(s, i, j);
      if UrlAt(s, i, images) == UrlAt(s, j, images) {
        ThumbUrlInjective(dateStr, CategoryOf(s[i]), IndexIn(s, i), IndexIn(s, j));
      }
    }

    /** `generate_all(articles)`, writing each article's `image_url` in place; `pauses` counts the rate-limit waits. */
    method GenerateAll(articles: array<Piece>, images: Images) returns (success: nat, fallback: nat, pauses: nat)
      modifies articles
      ensures articles[..] == Thumbnailed(old(articles[..]), images)
      ensures success == Successes(old(articles[..]), images, articles.Length)
      ensures success + fallback == articles.Length
      ensures pauses == (if interval > 0.0 then articles.Length else 0)
    {
      ghost var s := articles[..];
      var counters: map<string, nat> := map[];
      success, fallback, pauses := 0, 0, 0;
      var i := 0;
      while i < articles.Length
        invariant 0 <= i <= articles.Length
        invariant forall k :: i <= k < articles.Length ==> articles[k] == s[k]
        invariant forall k :: 0 <= k < i ==> articles[k] == s[k].(imageUrl := Some(UrlAt(s, k, images)))
        invariant counters == KeyCounts(s[..i], CategoryOf)
        invariant success == Successes(s, images, i) && success + fallback == i
        invariant pauses == (if interval > 0.0 then i else 0)
      {
        var article := articles[i];
        var category := CategoryOf(article);
        CounterStep(s, i, counters);
        counters := counters[category := CountIn(counters, category) + 1];
        var idx := counters[category];
        var url := GenerateOne(article, idx, i, images);
        var imageUrl: string;
        if url.Some? {
          imageUrl := url.value;
          success := success + 1;
        } else {
          imageUrl := FallbackUrl(category);
          fallback := fallback + 1;
        }
        assert imageUrl == UrlAt(s, i, images);
        articles[i] := article.(imageUrl := Some(imageUrl));
        if interval > 0.0 {
          pauses := pauses + 1;
        }
        i := i + 1;
      }
      assert articles[..] == Thumbnailed(s, images);
    }
  }
}
