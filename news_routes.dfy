/**
 * The news routes of the Express backend: the paged list with its category filter and
 * the guest restriction after the third item, the category list, and the detail route
 * with its id check and its view log. The `news` table is an abstract sequence of rows
 * in the order the server's `ORDER BY published_at DESC` returns them; the joined like,
 * bookmark and comment counts are fields of the row.
 */
module NewsRoutes {
  import opened Util
  import opened JsUtil

  /** Items before this global position are shown in full to guests. */
  const FreeLimit := 3
  const DefaultLimit := 20

  const Categories: seq<string> := ["전체", "트렌딩", "경제", "재테크", "사회"]
  const AllCategories := "전체"

  /** A `news` row with its three joined counts; `None` is SQL NULL. */
  datatype NewsRow = NewsRow(
    newsId: nat, category: string, title: string, bulletSummary: Option<seq<string>>, content: string,
    sourceName: Option<string>, sourceUrl: Option<string>, imageUrl: Option<string>, hashtags: Option<seq<string>>,
    publishedAt: int, likeCount: nat, bookmarkCount: nat, commentCount: nat)

  /** A list item: the whole card, or the five fields a guest sees past the free limit (`restricted: true`). */
  datatype NewsItem =
    | Full(id: string, category: string, title: string, summary: seq<string>, content: string, source: string,
           date: int, imageUrl: string, likeCount: nat, bookmarkCount: nat, commentCount: nat, hashtags: seq<string>)
    | Restricted(id: string, category: string, title: string, imageUrl: string, date: int)

  function OrEmpty(s: Option<string>): string
  {
    match s case Some(v) => v case None => ""
  }

  function OrNone<T>(s: Option<seq<T>>): seq<T>
  {
    match s case Some(v) => v case None => []
  }

  /** Newest first: what the server's ordering guarantees (rows with equal dates come in an order of its choosing). */
  predicate NewestFirst(rows: seq<NewsRow>)
  {
    forall i, j :: 0 <= i < j < |rows| ==> rows[i].publishedAt >= rows[j].publishedAt
  }

  /** The category condition, if any: none when the parameter is absent ("") or `전체`. */
  function CategoryFilter(category: string): (f: Option<string>)
    ensures f.None? <==> category == [] || category == AllCategories
    ensures f.Some? ==> f.value == category
  {
    if category != [] && category != AllCategories then Some(category) else None
  }

  predicate RowMatches(f: Option<string>, row: NewsRow)
  {
    f.None? || row.category == f.value
  }

  /** The rows the WHERE clause keeps, in table order. */
  function Matching(table: seq<NewsRow>, f: Option<string>): (m: seq<NewsRow>)
    ensures |m| <= |table|
    ensures forall i :: 0 <= i < |m| ==> RowMatches(f, m[i])
    ensures f.None? ==> m == table
    ensures NewestFirst(table) ==> NewestFirst(m)
    ensures NewestFirst(table) && table != [] ==> forall k :: 0 <= k < |m| ==> m[k].publishedAt <= table[0].publishedAt
  {
    if table == [] then []
    else
      assert NewestFirst(table) ==> NewestFirst(table[1..]) by {
        if NewestFirst(table) {
          forall i, j | 0 <= i < j < |table[1..]|
            ensures table[1..][i].publishedAt >= table[1..][j].publishedAt
          {
            assert table[1..][i] == table[i + 1] && table[1..][j] == table[j + 1];
          }
        }
      }
      var rest := Matching(table[1..], f);
      if RowMatches(f, table[0]) then [table[0]] + rest else rest
  }

  /** The card of one row at global position `index`. */
  function ShowItem(row: NewsRow, index: int, loggedIn: bool): (item: NewsItem)
    ensures item.Restricted? <==> !loggedIn && index >= FreeLimit
    ensures item.id == NatToString(row.newsId) && item.category == row.category && item.title == row.title
    ensures item.imageUrl == OrEmpty(row.imageUrl) && item.date == row.publishedAt
    ensures item.Full? ==> (item.summary == OrNone(row.bulletSummary) && item.content == row.content
      && item.source == OrEmpty(row.sourceName) && item.hashtags == OrNone(row.hashtags)
      && item.likeCount == row.likeCount && item.bookmarkCount == row.bookmarkCount && item.commentCount == row.commentCount)
  {
    var id := NatToString(row.newsId);
    if !loggedIn && index >= FreeLimit then
      Restricted(id, row.category, row.title, OrEmpty(row.imageUrl), row.publishedAt)
    else
      Full(id, row.category, row.title, OrNone(row.bulletSummary), row.content, OrEmpty(row.sourceName),
           row.publishedAt, OrEmpty(row.imageUrl), row.likeCount, row.bookmarkCount, row.commentCount, OrNone(row.hashtags))
  }

  /** The cards of a window whose first row is at global position `offset`. */
  function Cards(w: seq<NewsRow>, offset: nat, loggedIn: bool): (r: seq<NewsItem>)
    ensures |r| == |w| && forall i :: 0 <= i < |w| ==> r[i] == ShowItem(w[i], offset + i, loggedIn)
  {
    seq(|w|, i requires 0 <= i < |w| => ShowItem(w[i], offset + i, loggedIn))
  }

  datatype ListReply =
    | ListOk(news: seq<NewsItem>, page: int, limit: int, total: nat, totalPages: nat)
    | ListServerError

  /**
   * `GET /api/news?category&page&limit`; an absent `page` or `limit` is passed as "1" or
   * "20", the route's defaults.
   */
  function ListNews(table: seq<NewsRow>, loggedIn: bool, category: string, page: string, rawLimit: string): ListReply
  {
    ListPage(table, loggedIn, category, ParseInt(page), PageLimit(rawLimit, DefaultLimit))
  }

  /**
   * The list for `parseInt(page)` (`None` is NaN) and the clamped limit. A NaN or negative
   * OFFSET is refused by the server, and the handler's catch answers 500.
   */
  function ListPage(table: seq<NewsRow>, loggedIn: bool, category: string, page: Option<int>, limit: int): ListReply
    requires 1 <= limit <= 100
  {
    match page
    case None => ListServerError
    case Some(p) =>
      var offset := PageOffset(p, limit);
      if offset < 0 then ListServerError
      else
        var m := Matching(table, CategoryFilter(category));
        ListOk(Cards(Window(m, offset, limit), offset, loggedIn), p, limit, |m|, CeilDiv(|m|, limit))
  }

  /** The list route answers exactly when the page is a number of at least 1. */
  lemma ListAnswers(table: seq<NewsRow>, loggedIn: bool, category: string, page: Option<int>, limit: int)
    requires 1 <= limit <= 100
    ensures ListPage(table, loggedIn, category, page, limit).ListOk? <==> page.Some? && page.value >= 1
  {
  }

  /**
   * An answered list holds the cards of the `limit`-row window at `(page - 1) * limit` of
   * the matching rows (`Window` and `Cards` say what those are), with `total` the number of
   * matching rows and `totalPages = ceil(total / limit)`.
   */
  lemma ListWindow(table: seq<NewsRow>, loggedIn: bool, category: string, page: Option<int>, limit: int)
    requires 1 <= limit <= 100 && ListPage(table, loggedIn, category, page, limit).ListOk?
    ensures var r := ListPage(table, loggedIn, category, page, limit);
      var m := Matching(table, CategoryFilter(category));
      var offset := PageOffset(r.page, limit);
      && page == Some(r.page) && r.limit == limit && offset >= 0
      && r.total == |m| && r.totalPages == CeilDiv(|m|, limit)
      && r.news == Cards(Window(m, offset, limit), offset, loggedIn)
  {
    var p := page.value;
    var offset := PageOffset(p, limit);
    var m := Matching(table, CategoryFilter(category));
    assert ListPage(table, loggedIn, category, page, limit)
      == ListOk(Cards(Window(m, offset, limit), offset, loggedIn), p, limit, |m|, CeilDiv(|m|, limit));
  }

  /** An answered list is newest first. */
  lemma ListNewestFirst(table: seq<NewsRow>, loggedIn: bool, category: string, page: Option<int>, limit: int)
    requires 1 <= limit <= 100 && NewestFirst(table) && ListPage(table, loggedIn, category, page, limit).ListOk?
    ensures var r := ListPage(table, loggedIn, category, page, limit);
      forall i, j :: 0 <= i < j < |r.news| ==> r.news[i].date >= r.news[j].date
  {
    ListWindow(table, loggedIn, category, page, limit);
  }

  /**
   * Guests get the whole card only for the first three items of the whole list, whatever
   * the page; a logged-in viewer always gets whole cards.
   */
  lemma GuestRestriction(table: seq<NewsRow>, loggedIn: bool, category: string, page: Option<int>, limit: int)
    requires 1 <= limit <= 100
    ensures var r := ListPage(table, loggedIn, category, page, limit);
      r.ListOk? ==> forall i :: 0 <= i < |r.news| ==>
        (r.news[i].Restricted? <==> !loggedIn && PageOffset(r.page, r.limit) + i >= FreeLimit)
  {
    if ListPage(table, loggedIn, category, page, limit).ListOk? {
      ListWindow(table, loggedIn, category, page, limit);
    }
  }

  /** Every listed item is in the requested category, unless none (or `전체`) was requested. */
  lemma ListCategory(table: seq<NewsRow>, loggedIn: bool, category: string, page: Option<int>, limit: int)
    requires 1 <= limit <= 100
    ensures var r := ListPage(table, loggedIn, category, page, limit);
      r.ListOk? && CategoryFilter(category).Some? ==> forall i :: 0 <= i < |r.news| ==> r.news[i].category == category
    ensures var r := ListPage(table, loggedIn, category, page, limit);
      r.ListOk? && CategoryFilter(category).None? ==> r.total == |table|
  {
    if ListPage(table, loggedIn, category, page, limit).ListOk? {
      ListWindow(table, loggedIn, category, page, limit);
    }
  }

  /** Page two of a guest's list with the default size is all restricted. */
  lemma SecondPageRestricted(table: seq<NewsRow>, category: string)
    ensures var r := ListNews(table, false, category, "2", "20");
      r.ListOk? && forall i :: 0 <= i < |r.news| ==> r.news[i].Restricted?
  {
    assert "2" == NatToString(2);
    ParseIntNat(2);
    assert "20" == NatToString(20);
    ParseIntNat(20);
    ListAnswers(table, false, category, Some(2), 20);
    GuestRestriction(table, false, category, Some(2), 20);
  }

  // ---------------------------------------------------------------------------
  // The detail route

  /** PostgreSQL's whitespace for integer input. */
  predicate PgSpace(c: char)
  {
    c == ' ' || c == '\t' || c == '\n' || c == '\r' || c == '\U{000B}' || c == '\U{000C}'
  }

  function PgLead(s: string): (n: nat)
    ensures n <= |s| && forall k :: 0 <= k < n ==> PgSpace(s[k])
    ensures n < |s| ==> !PgSpace(s[n])
    decreases |s|
  {
    if s != [] && PgSpace(s[0]) then
      var n := PgLead(s[1..]);
      assert forall k :: 1 <= k < n + 1 ==> s[k] == s[1..][k - 1];
      n + 1
    else 0
  }

  function PgTrailEnd(s: string, i: nat, e: nat): (r: nat)
    requires i <= e <= |s|
    ensures i <= r <= e && forall k :: r <= k < e ==> PgSpace(s[k])
    ensures r > i ==> !PgSpace(s[r - 1])
    decreases e
  {
    if e > i && PgSpace(s[e - 1]) then PgTrailEnd(s, i, e - 1) else e
  }

  predicate AllDigits(s: string)
  {
    forall k :: 0 <= k < |s| ==> IsDigit(s[k])
  }

  /**
   * The text-to-integer cast the server applies to `$1` in `news_id = $1`: surrounding
   * whitespace, an optional sign and at least one decimal digit, within 32 bits; anything
   * else is an error.
   */
  function PgInt4(s: string): (r: Option<int>)
    ensures r.Some? ==> -0x8000_0000 <= r.value < 0x8000_0000
  {
    var i := PgLead(s);
    var u := s[i..PgTrailEnd(s, i, |s|)];
    var (neg, d) := SignSplit(u);
    var v := if neg then -(DigitsValue(d) as int) else DigitsValue(d) as int;
    if d != [] && AllDigits(d) && -0x8000_0000 <= v < 0x8000_0000 then Some(v) else None
  }

  /** Whatever the cast accepts, `parseInt` reads as the same number: a detail id is never refused with 400 when the server can look it up. */
  lemma PgInt4ParseInt(s: string)
    requires PgInt4(s).Some?
    ensures ParseInt(s) == PgInt4(s)
  {
    var i := PgLead(s);
    var e := PgTrailEnd(s, i, |s|);
    var u := s[i..e];
    var rest := s[e..];
    PgInt4Value(s, i, e);
    PgBody(s, i, e);
    TrimStartPg(s, i, e);
    SignSplitAppend(u, rest);
    var (neg, d) := SignSplit(u);
    DigitPrefixAppend(d, rest);
    NoHexPrefix(d, rest);
    ParseIntReads(s, neg, d + rest, d);
  }

  /** What an accepted cast read: the sign and the digits between the whitespace. */
  lemma PgInt4Value(s: string, i: nat, e: nat)
    requires i == PgLead(s) && e == PgTrailEnd(s, i, |s|) && PgInt4(s).Some?
    ensures SignSplit(s[i..e]).1 != [] && AllDigits(SignSplit(s[i..e]).1)
    ensures PgInt4(s) == Some(if SignSplit(s[i..e]).0 then -(DigitsValue(SignSplit(s[i..e]).1) as int)
                              else DigitsValue(SignSplit(s[i..e]).1) as int)
  {
  }

  /** `parseInt` over text whose sign and decimal digits are already known. */
  lemma ParseIntReads(s: string, neg: bool, w: string, d: string)
    requires SignSplit(TrimStart(s)) == (neg, w) && !HasHexPrefix(w) && DigitPrefix(w) == d && d != []
    ensures ParseInt(s) == Some(if neg then -(DigitsValue(d) as int) else DigitsValue(d) as int)
  {
  }

  lemma TrimStartPg(s: string, i: nat, e: nat)
    requires i == PgLead(s) && i < e <= |s| && (s[i] == '-' || s[i] == '+' || IsDigit(s[i]))
    ensures TrimStart(s) == s[i..e] + s[e..]
  {
    LeadingSpacesAt(s, i);
    assert s[i..] == s[i..e] + s[e..];
  }

  lemma NoHexPrefix(d: string, rest: string)
    requires d != [] && AllDigits(d) && (rest == [] || !IsDigit(rest[0]))
    requires rest != [] ==> PgSpace(rest[0])
    ensures !HasHexPrefix(d + rest)
  {
    if |d + rest| >= 2 && |d| < 2 {
      assert (d + rest)[1] == rest[0];
    }
  }

  /** The text between the whitespace starts with a sign or a digit and is followed by whitespace or nothing. */
  lemma PgBody(s: string, i: nat, e: nat)
    requires i == PgLead(s) && e == PgTrailEnd(s, i, |s|)
    requires SignSplit(s[i..e]).1 != [] && AllDigits(SignSplit(s[i..e]).1)
    ensures i < e && (s[i] == '-' || s[i] == '+' || IsDigit(s[i]))
    ensures e < |s| ==> !IsDigit(s[e])
  {
    var u := s[i..e];
    var d := SignSplit(u).1;
    assert d != [] && AllDigits(d);
    assert u != [] && s[i] == u[0];
    if u[0] != '-' && u[0] != '+' {
      assert d == u;
    }
  }

  lemma SignSplitAppend(u: string, rest: string)
    requires u != []
    ensures SignSplit(u + rest) == (SignSplit(u).0, SignSplit(u).1 + rest)
  {
    assert (u + rest)[0] == u[0];
    assert (u + rest)[1..] == u[1..] + rest;
  }

  lemma {:induction false} LeadingSpacesAt(s: string, i: nat)
    requires i <= |s| && (forall k :: 0 <= k < i ==> PgSpace(s[k]))
    requires i < |s| ==> s[i] == '-' || s[i] == '+' || IsDigit(s[i])
    ensures LeadingSpaces(s) == i
  {
    if i > 0 {
      assert PgSpace(s[0]) && JsIsSpace(s[0]);
      assert forall k :: 0 <= k < i - 1 ==> s[1..][k] == s[k + 1];
      LeadingSpacesAt(s[1..], i - 1);
    } else if s != [] {
      assert !JsIsSpace(s[0]);
    }
  }

  lemma {:induction false} DigitPrefixAppend(d: string, rest: string)
    requires AllDigits(d) && (rest == [] || !IsDigit(rest[0]))
    ensures DigitPrefix(d + rest) == d
  {
    if d != [] {
      assert (d + rest)[1..] == d[1..] + rest;
      DigitPrefixAppend(d[1..], rest);
    } else if rest != [] {
      assert !IsDigit((d + rest)[0]);
    }
  }

  /** `parseInt` stops at the first non-digit but the cast does not: "12abc" passes the id check and then fails in the query. */
  lemma TrailingTextIsServerError()
    ensures ParseInt("12abc") == Some(12)
    ensures PgInt4("12abc").None?
  {
    var s := "12abc";
    assert !JsIsSpace(s[0]);
    assert LeadingSpaces(s) == 0;
    assert DigitPrefix(s) == "12" by {
      assert s[1..][1..] == "abc";
    }
    assert DigitsValue("12") == 12 by {
      assert "12"[..1] == "1";
    }
    assert !AllDigits(s[PgLead(s)..PgTrailEnd(s, PgLead(s), |s|)]) by {
      assert PgLead(s) == 0 && PgTrailEnd(s, 0, 5) == 5;
      assert !IsDigit(s[2]);
    }
  }

  /** The first row with the given id, as `rows[0]` of `WHERE news_id = $1`. */
  function FindNews(table: seq<NewsRow>, id: int): (r: Option<NewsRow>)
    ensures r.Some? ==> r.value in table && r.value.newsId == id
    ensures r.None? ==> forall k :: 0 <= k < |table| ==> table[k].newsId != id
  {
    if table == [] then None
    else if table[0].newsId == id then Some(table[0])
    else FindNews(table[1..], id)
  }

  datatype Detail = Detail(item: NewsItem, sourceUrl: string, isLiked: bool, isBookmarked: bool)
  datatype DetailReply = DetailOk(detail: Detail) | BadId | NotFound | DetailServerError

  /** A `user_view_logs` row. */
  datatype ViewLog = ViewLog(userId: int, newsId: int)

  class NewsDb {
    const table: seq<NewsRow>
    /** The `(user_id, news_id)` pairs of the `likes` and `bookmarks` tables. */
    const likes: set<(int, int)>
    const bookmarks: set<(int, int)>
    var viewLogs: seq<ViewLog>

    constructor (table: seq<NewsRow>, likes: set<(int, int)>, bookmarks: set<(int, int)>, logs: seq<ViewLog>)
      ensures this.table == table && this.likes == likes && this.bookmarks == bookmarks && viewLogs == logs
    {
      this.table := table;
      this.likes := likes;
      this.bookmarks := bookmarks;
      viewLogs := logs;
    }

    /**
     * `GET /api/news/:id`; `user` is the `userId` of a valid token, if any. The id must
     * read as a number (400), the cast must accept it (500), the row must exist (404); a
     * logged-in viewer's visit is logged and their like and bookmark flags are looked up.
     */
    method GetDetail(id: string, user: Option<int>) returns (reply: DetailReply)
      modifies this
      ensures ParseInt(id).None? ==> reply == BadId
      ensures ParseInt(id).Some? && PgInt4(id).None? ==> reply == DetailServerError
      ensures PgInt4(id).Some? && FindNews(table, PgInt4(id).value).None? ==> reply == NotFound
      ensures PgInt4(id).Some? && FindNews(table, PgInt4(id).value).Some? ==>
        var n := PgInt4(id).value;
        var row := FindNews(table, n).value;
        reply == DetailOk(Detail(ShowItem(row, 0, true), OrEmpty(row.sourceUrl),
          user.Some? && (user.value, n) in likes, user.Some? && (user.value, n) in bookmarks))
      ensures viewLogs == if reply.DetailOk? && user.Some? then old(viewLogs) + [ViewLog(user.value, PgInt4(id).value)] else old(viewLogs)
    {
      if PgInt4(id).Some? {
        PgInt4ParseInt(id);
      }
      if id == [] || ParseInt(id).None? {
        return BadId;
      }
      var cast := PgInt4(id);
      if cast.None? {
        return DetailServerError;
      }
      var n := cast.value;
      var found := FindNews(table, n);
      if found.None? {
        return NotFound;
      }
      var row := found.value;
      var isLiked := false;
      var isBookmarked := false;
      if user.Some? {
        viewLogs := viewLogs + [ViewLog(user.value, n)];
        isLiked := (user.value, n) in likes;
        isBookmarked := (user.value, n) in bookmarks;
      }
      reply := DetailOk(Detail(ShowItem(row, 0, true), OrEmpty(row.sourceUrl), isLiked, isBookmarked));
    }
  }

  /** `GET /api/news/categories`. */
  lemma CategoriesListed()
    ensures |Categories| == 5 && Categories[0] == AllCategories && CategoryFilter(Categories[0]).None?
    ensures forall i :: 1 <= i < |Categories| ==> CategoryFilter(Categories[i]) == Some(Categories[i])
  {
  }
}
