/**
 * The section list of the Naver news crawler: `크롤링.md` is read line by line; `## ` headings
 * name the main category, `### ` headings the sub-category, and every Naver news URL becomes
 * one section tagged with the headings in force at that line.
 */
module NewsCrawler {
  import opened Util

  datatype Section = Section(mainCategory: string, subCategory: string, sectionUrl: string)

  const UrlPrefix: string := "https://news.naver.com/"

  /** How one stripped line is read. */
  datatype LineKind = H2(title: string) | H3(title: string) | Url(url: string) | Other

  /** The branches of the loop body, in their order, on a stripped line. */
  function Classify(line: string): LineKind
  {
    if StartsWith(line, "## ") && !StartsWith(line, "###") then H2(Strip(line[3..]))
    else if StartsWith(line, "### ") then H3(Strip(line[4..]))
    else if StartsWith(line, UrlPrefix) then Url(line)
    else Other
  }

  /** The `not line.startswith('###')` test never excludes anything: a `## ` line has a space where `###` has `#`. */
  lemma H2GuardRedundant(line: string)
    ensures (StartsWith(line, "## ") && !StartsWith(line, "###")) <==> StartsWith(line, "## ")
  {
  }

  /** A URL line is kept whole, and only lines with the Naver news prefix are URL lines. */
  lemma ClassifyUrl(line: string)
    ensures Classify(line).Url? ==> Classify(line).url == line && StartsWith(line, UrlPrefix)
    ensures StartsWith(line, UrlPrefix) ==> Classify(line).Url?
  {
    if StartsWith(line, UrlPrefix) {
      UrlNotHeading(line);
    }
  }

  /** A Naver news URL starts with `h`, so it is neither a `## ` nor a `### ` heading. */
  lemma UrlNotHeading(line: string)
    requires StartsWith(line, UrlPrefix)
    ensures !StartsWith(line, "## ") && !StartsWith(line, "### ")
  {
    assert line[0] == UrlPrefix[0] == 'h';
  }

  /** `content.strip().split('\n')`, each line stripped as the loop does first. */
  function Lines(content: string): (r: seq<string>)
    ensures |r| >= 1
  {
    Map(SplitOn(Strip(content), '\n'), Strip)
  }

  /** One raw line, stripped and classified. */
  function Read(line: string): LineKind
  {
    Classify(Strip(line))
  }

  /** How each line of the file is read. */
  function Kinds(content: string): (r: seq<LineKind>)
    ensures |r| == |Lines(content)|
    ensures forall i :: 0 <= i < |r| ==> r[i] == Classify(Lines(content)[i])
  {
    var lines := SplitOn(Strip(content), '\n');
    forall i | 0 <= i < |lines| ensures ReadAll(lines)[i] == Read(lines[i]) {
      ReadAllAt(lines, i);
    }
    ReadAll(lines)
  }

  /** How each raw line is read, in order. */
  function ReadAll(lines: seq<string>): (r: seq<LineKind>)
    ensures |r| == |lines|
  {
    if lines == [] then [] else ReadAll(lines[..|lines| - 1]) + [Read(lines[|lines| - 1])]
  }

  lemma {:induction false} ReadAllAt(lines: seq<string>, i: nat)
    requires i < |lines|
    ensures ReadAll(lines)[i] == Read(lines[i])
  {
    if i < |lines| - 1 {
      ReadAllAt(lines[..|lines| - 1], i);
    }
  }

  /** The main category in force after the first `n` lines: the last `## ` heading, or "". */
  function MainAt(ks: seq<LineKind>, n: nat): string
    requires n <= |ks|
  {
    if n == 0 then ""
    else match ks[n - 1]
      case H2(t) => t
      case _ => MainAt(ks, n - 1)
  }

  /** The sub-category in force after the first `n` lines: the last `### ` heading since the last `## `, or "". */
  function SubAt(ks: seq<LineKind>, n: nat): string
    requires n <= |ks|
  {
    if n == 0 then ""
    else match ks[n - 1]
      case H2(_) => ""
      case H3(t) => t
      case _ => SubAt(ks, n - 1)
  }

  /** The sections of the first `n` lines: one per URL line, in file order. */
  function SectionsOf(ks: seq<LineKind>, n: nat): (r: seq<Section>)
    requires n <= |ks|
    ensures |r| <= n
  {
    if n == 0 then []
    else SectionsOf(ks, n - 1) + (if ks[n - 1].Url? then [Section(MainAt(ks, n - 1), SubAt(ks, n - 1), ks[n - 1].url)] else [])
  }

  /** `parse_crawling_md` on the file's contents. */
  method ParseCrawlingMd(content: string) returns (sections: seq<Section>)
    ensures sections == SectionsOf(Kinds(content), |Kinds(content)|)
  {
    sections := ParseLines(SplitOn(Strip(content), '\n'));
  }

  /** The loop of `parse_crawling_md` over the raw lines. */
  method ParseLines(lines: seq<string>) returns (sections: seq<Section>)
    ensures sections == SectionsOf(ReadAll(lines), |lines|)
  {
    ghost var ks := ReadAll(lines);
    sections := [];
    var currentH2, currentH3 := "", "";
    var i := 0;
    while i < |lines|
      invariant 0 <= i <= |lines| && |ks| == |lines|
      invariant currentH2 == MainAt(ks, i) && currentH3 == SubAt(ks, i)
      invariant sections == SectionsOf(ks, i)
    {
      var kind := ReadLine(lines[i]);
      ReadAllAt(lines, i);
      ParseStep(ks, i);
      currentH2, currentH3, sections := Advance(kind, currentH2, currentH3, sections);
      i := i + 1;
    }
  }

  /** The body of the loop: a heading replaces the current one, a URL line adds a section under the current headings. */
  method Advance(kind: LineKind, h2: string, h3: string, sections: seq<Section>) returns (h2': string, h3': string, sections': seq<Section>)
    ensures h2' == (if kind.H2? then kind.title else h2)
    ensures h3' == (if kind.H2? then "" else if kind.H3? then kind.title else h3)
    ensures sections' == sections + (if kind.Url? then [Section(h2, h3, kind.url)] else [])
  {
    h2', h3', sections' := h2, h3, sections;
    match kind {
      case H2(title) =>
        h2' := title;
        h3' := "";
      case H3(title) =>
        h3' := title;
      case Url(url) =>
        sections' := sections + [Section(h2, h3, url)];
      case Other =>
    }
  }

  /** One line of the loop: the headings it updates and the section it adds. */
  lemma ParseStep(ks: seq<LineKind>, i: nat)
    requires i < |ks|
    ensures SectionsOf(ks, i + 1) == SectionsOf(ks, i) + (if ks[i].Url? then [Section(MainAt(ks, i), SubAt(ks, i), ks[i].url)] else [])
    ensures MainAt(ks, i + 1) == (if ks[i].H2? then ks[i].title else MainAt(ks, i))
    ensures SubAt(ks, i + 1) == (if ks[i].H2? then "" else if ks[i].H3? then ks[i].title else SubAt(ks, i))
  {
  }

  /** The line is stripped, then classified. */
  method ReadLine(line: string) returns (kind: LineKind)
    ensures kind == Read(line)
  {
    var stripped := Strip(line);
    kind := Classify(stripped);
  }

  /** Some line among the first `n` is the URL line `u`. */
  predicate UrlLineIn(ks: seq<LineKind>, n: nat, u: string)
    requires n <= |ks|
  {
    exists j :: 0 <= j < n && ks[j] == Url(u)
  }

  /** Each section comes from a URL line, with that line's URL. */
  lemma {:induction false} SectionsFromUrls(ks: seq<LineKind>, n: nat)
    requires n <= |ks|
    ensures forall k :: 0 <= k < |SectionsOf(ks, n)| ==> UrlLineIn(ks, n, SectionsOf(ks, n)[k].sectionUrl)
  {
    if n > 0 {
      SectionsFromUrls(ks, n - 1);
      var prev, ss := SectionsOf(ks, n - 1), SectionsOf(ks, n);
      forall k | 0 <= k < |ss|
        ensures UrlLineIn(ks, n, ss[k].sectionUrl)
      {
        if k < |prev| {
          assert ss[k] == prev[k];
          var j :| 0 <= j < n - 1 && ks[j] == Url(prev[k].sectionUrl);
        } else {
          assert ks[n - 1] == Url(ss[k].sectionUrl);
        }
      }
    }
  }

  /** Every section URL is one of the file's stripped lines and starts with the Naver news prefix. */
  lemma SectionUrls(content: string)
    ensures var ss := SectionsOf(Kinds(content), |Kinds(content)|);
      forall k :: 0 <= k < |ss| ==> StartsWith(ss[k].sectionUrl, UrlPrefix) && ss[k].sectionUrl in Lines(content)
  {
    var ks := Kinds(content);
    var lines := Lines(content);
    SectionsFromUrls(ks, |ks|);
    var ss := SectionsOf(ks, |ks|);
    forall k | 0 <= k < |ss|
      ensures StartsWith(ss[k].sectionUrl, UrlPrefix) && ss[k].sectionUrl in lines
    {
      var j :| 0 <= j < |ks| && ks[j] == Url(ss[k].sectionUrl);
      ClassifyUrl(lines[j]);
    }
  }

  /** There is exactly one section per URL line. */
  lemma {:induction false} OneSectionPerUrl(ks: seq<LineKind>, n: nat)
    requires n <= |ks|
    ensures |SectionsOf(ks, n)| == |Filter(ks[..n], (k: LineKind) => k.Url?)|
  {
    if n > 0 {
      OneSectionPerUrl(ks, n - 1);
      FilterStep(ks, n - 1, (k: LineKind) => k.Url?);
    }
  }

  /** A `### ` line changes only the sub-category; a `## ` line sets the main category and clears the sub-category. */
  lemma HeadingsUpdate(ks: seq<LineKind>, j: nat)
    requires j < |ks|
    ensures ks[j].H3? ==> MainAt(ks, j + 1) == MainAt(ks, j) && SubAt(ks, j + 1) == ks[j].title
    ensures ks[j].H2? ==> MainAt(ks, j + 1) == ks[j].title && SubAt(ks, j + 1) == ""
    ensures ks[j].Url? || ks[j].Other? ==> MainAt(ks, j + 1) == MainAt(ks, j) && SubAt(ks, j + 1) == SubAt(ks, j)
  {
  }

  /** Without heading lines between `j` and `n`, the headings in force at `n` are those at `j`. */
  lemma {:induction false} HeadingsPersist(ks: seq<LineKind>, j: nat, n: nat)
    requires j <= n <= |ks|
    requires forall k :: j <= k < n ==> !ks[k].H2? && !ks[k].H3?
    ensures MainAt(ks, n) == MainAt(ks, j) && SubAt(ks, n) == SubAt(ks, j)
    decreases n - j
  {
    if j < n {
      HeadingsPersist(ks, j, n - 1);
    }
  }

  /** A file without `## ` headings tags every section with the main category "". */
  lemma {:induction false} NoHeadingNoMain(ks: seq<LineKind>, n: nat)
    requires n <= |ks|
    requires forall k :: 0 <= k < n ==> !ks[k].H2?
    ensures MainAt(ks, n) == ""
    ensures forall k :: 0 <= k < |SectionsOf(ks, n)| ==> SectionsOf(ks, n)[k].mainCategory == ""
  {
    if n > 0 {
      NoHeadingNoMain(ks, n - 1);
    }
  }
}
