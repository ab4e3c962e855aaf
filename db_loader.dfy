/**
 * The database stage: one `news` row per reconstructed article, all inserted in one
 * transaction that is committed at the end. A row that cannot be built or is refused
 * by the server is counted as failed and the loop goes on; when the connection (or
 * the commit) fails, the articles are saved as JSON without their private `_` keys.
 */
module DbLoader {
  import opened Util

  /** A JSON value as the reconstruction stage leaves it in an article dict (numbers are integers). */
  datatype Json = JNull | JBool(b: bool) | JNum(n: int) | JStr(s: string) | JArr(items: seq<Json>) | JObj(fields: map<string, Json>)

  /** A reconstructed article: a dict from keys to JSON values. */
  type Article = map<string, Json>

  /** Python truthiness of a value. */
  predicate Truthy(j: Json)
  {
    match j
    case JNull => false
    case JBool(b) => b
    case JNum(n) => n != 0
    case JStr(s) => s != []
    case JArr(items) => items != []
    case JObj(fields) => fields != map[]
  }

  /** `article.get(key, default)`. */
  function Get(a: Article, key: string, default: Json): Json
  {
    if key in a then a[key] else default
  }

  const CategoryMap: map<string, string> := map["IT" := "IT 소식", "Review" := "리뷰", "HowTo" := "사용 방법"]

  // ---------------------------------------------------------------------------
  // Row fields

  /** `CATEGORY_MAP.get(c, c)`; None for a list or dict, which Python cannot hash (TypeError). */
  function MapCategory(c: Json): Option<Json>
  {
    match c
    case JArr(_) => None
    case JObj(_) => None
    case JStr(s) => Some(if s in CategoryMap then JStr(CategoryMap[s]) else c)
    case _ => Some(c)
  }

  /**
   * The truthy `a.get("press")` values of a list of source articles, in order; None where
   * Python raises: an element that is not a dict (no `.get`), or a truthy press that is not
   * a string (`set` cannot hash a list, `", ".join` refuses anything else).
   */
  function PressNamesIn(items: seq<Json>): (r: Option<seq<string>>)
    ensures r.Some? ==> forall i :: 0 <= i < |r.value| ==> r.value[i] != []
  {
    if items == [] then Some([])
    else
      match PressNamesIn(items[..|items| - 1])
      case None => None
      case Some(names) =>
        var x := items[|items| - 1];
        if !x.JObj? then None
        else if "press" !in x.fields || !Truthy(x.fields["press"]) then Some(names)
        else if x.fields["press"].JStr? then Some(names + [x.fields["press"].s])
        else None
  }

  /** Iterating `article.get("_source_articles", [])`: a list, or an empty string or dict (nothing to iterate). */
  function PressNames(sources: Json): Option<seq<string>>
  {
    match sources
    case JArr(items) => PressNamesIn(items)
    case JStr(s) => if s == [] then Some([]) else None
    case JObj(fields) => if fields == map[] then Some([]) else None
    case _ => None
  }

  /** Inserts `x` into a strictly ascending list unless it is already there. */
  function InsertUnique(x: string, s: seq<string>): seq<string>
  {
    if s == [] then [x]
    else if x == s[0] then s
    else if StrLess(x, s[0]) then [x] + s
    else [s[0]] + InsertUnique(x, s[1..])
  }

  /** `sorted(set(s))`. */
  function SortedUnique(s: seq<string>): seq<string>
  {
    if s == [] then [] else InsertUnique(s[|s| - 1], SortedUnique(s[..|s| - 1]))
  }

  predicate Ascending(s: seq<string>)
  {
    forall i :: 0 <= i < |s| - 1 ==> StrLess(s[i], s[i + 1])
  }

  /** `article.get("source_links", [""])[0] if article.get("source_links") else ""`; None where the subscript raises. */
  function SourceUrl(a: Article): Option<Json>
  {
    var links := Get(a, "source_links", JNull);
    if !Truthy(links) then Some(JStr(""))
    else
      match links
      case JArr(items) => Some(items[0])
      case JStr(s) => Some(JStr([s[0]]))
      case _ => None
  }

  /** The parameters of one INSERT into `news` (`bullet_summary` and `hashtags` before `json.dumps`). */
  datatype Row = Row(title: Json, summary: Json, bulletSummary: Json, content: Json, category: Json, hashtags: Json,
                     imageUrl: Json, sourceUrl: Json, sourceName: string, sourceCount: Json, publishedAt: int)

  /** The keys read with `article[...]`, whose absence raises KeyError. */
  predicate HasRequired(a: Article)
  {
    "title" in a && "summary" in a && "bullet_summary" in a && "content" in a && "hashtags" in a
  }

  /** The row built for `a` at time `now` (`datetime.now()`), or None when building it raises. */
  function RowOf(a: Article, now: int): Option<Row>
  {
    var names := PressNames(Get(a, "_source_articles", JArr([])));
    var category := MapCategory(Get(a, "category", JStr("")));
    var url := SourceUrl(a);
    if names.None? || category.None? || url.None? || !HasRequired(a) then None
    else Some(Row(a["title"], a["summary"], a["bullet_summary"], a["content"], category.value, a["hashtags"],
                  Get(a, "image_url", JStr("")), url.value, Join(SortedUnique(names.value), ", "),
                  Get(a, "source_count", JNum(1)), now))
  }

  // ---------------------------------------------------------------------------
  // Properties of the row

  lemma {:induction false} InsertUniqueAscending(x: string, s: seq<string>)
    requires Ascending(s)
    ensures Ascending(InsertUnique(x, s))
    ensures forall y :: y in InsertUnique(x, s) <==> y == x || y in s
    ensures s != [] ==> InsertUnique(x, s)[0] == x || InsertUnique(x, s)[0] == s[0]
    decreases |s|
  {
    if s != [] && x != s[0] && !StrLess(x, s[0]) {
      StrLessTotal(x, s[0]);
      InsertUniqueAscending(x, s[1..]);
      assert s == [s[0]] + s[1..];
    }
  }

  /** `sorted(set(s))` is strictly ascending and holds exactly the elements of `s`. */
  lemma {:induction false} SortedUniqueSpec(s: seq<string>)
    ensures Ascending(SortedUnique(s))
    ensures forall y :: y in SortedUnique(s) <==> y in s
  {
    if s != [] {
      SortedUniqueSpec(s[..|s| - 1]);
      InsertUniqueAscending(s[|s| - 1], SortedUnique(s[..|s| - 1]));
      assert s == s[..|s| - 1] + [s[|s| - 1]];
    }
  }

  /** A strictly ascending list has no repetition. */
  lemma {:induction false} AscendingNoDup(s: seq<string>)
    requires Ascending(s)
    ensures forall i, j :: 0 <= i < j < |s| ==> StrLess(s[i], s[j])
    ensures NoDup(s)
  {
    forall i, j | 0 <= i < j < |s| ensures StrLess(s[i], s[j]) {
      AscendingFrom(s, i, j);
    }
    forall i, j | 0 <= i < j < |s| ensures s[i] != s[j] {
      StrLessIrreflexive(s[i]);
    }
  }

  lemma {:induction false} AscendingFrom(s: seq<string>, i: nat, j: nat)
    requires Ascending(s) && i < j < |s|
    ensures StrLess(s[i], s[j])
    decreases j - i
  {
    if i + 1 < j {
      AscendingFrom(s, i + 1, j);
      StrLessTrans(s[i], s[i + 1], s[j]);
    }
  }

  /** A name is in the list exactly when some source article is a dict whose press is that non-empty string. */
  lemma {:induction false} PressNamesMembers(items: seq<Json>)
    requires PressNamesIn(items).Some?
    ensures forall x :: x in PressNamesIn(items).value <==>
      exists k :: 0 <= k < |items| && items[k].JObj? && "press" in items[k].fields
                  && items[k].fields["press"] == JStr(x) && x != []
  {
    if items != [] {
      var p := items[..|items| - 1];
      PressNamesMembers(p);
      forall x ensures x in PressNamesIn(items).value <==>
        exists k :: 0 <= k < |items| && items[k].JObj? && "press" in items[k].fields
                    && items[k].fields["press"] == JStr(x) && x != []
      {
        if x in PressNamesIn(p).value {
          var k :| 0 <= k < |p| && p[k].JObj? && "press" in p[k].fields && p[k].fields["press"] == JStr(x) && x != [];
          assert items[k] == p[k];
        }
        if exists k :: 0 <= k < |items| && items[k].JObj? && "press" in items[k].fields
                       && items[k].fields["press"] == JStr(x) && x != [] {
          var k :| 0 <= k < |items| && items[k].JObj? && "press" in items[k].fields
                   && items[k].fields["press"] == JStr(x) && x != [];
          if k < |p| {
            assert p[k] == items[k];
          }
        }
      }
    }
  }

  /**
   * `source_name` is the ", "-join of the distinct non-empty press names of the source
   * articles, in ascending order.
   */
  lemma SourceNameSorted(a: Article, now: int, names: seq<string>)
    requires RowOf(a, now).Some?
    requires PressNames(Get(a, "_source_articles", JArr([]))) == Some(names)
    ensures RowOf(a, now).value.sourceName == Join(SortedUnique(names), ", ")
    ensures Ascending(SortedUnique(names)) && NoDup(SortedUnique(names))
    ensures forall x :: x in SortedUnique(names) <==> x in names
    ensures forall x :: x in names ==> x != []
  {
    SortedUniqueSpec(names);
    AscendingNoDup(SortedUnique(names));
  }

  /** The category goes through `CATEGORY_MAP` and is kept when it is not a key; a missing one is "". */
  lemma CategoryColumn(a: Article, now: int)
    requires RowOf(a, now).Some?
    ensures var c := RowOf(a, now).value.category;
      && ("category" !in a ==> c == JStr(""))
      && ("category" in a && a["category"].JStr? && a["category"].s in CategoryMap ==> c == JStr(CategoryMap[a["category"].s]))
      && ("category" in a && !(a["category"].JStr? && a["category"].s in CategoryMap) ==> c == a["category"])
  {
  }

  /** `source_url` is the first source link, or "" without links; `source_count` defaults to 1; `image_url` to "". */
  lemma LinkAndCountColumns(a: Article, now: int)
    requires RowOf(a, now).Some?
    ensures var r := RowOf(a, now).value;
      && ("source_links" in a && a["source_links"].JArr? && a["source_links"].items != [] ==> r.sourceUrl == a["source_links"].items[0])
      && (!("source_links" in a && Truthy(a["source_links"])) ==> r.sourceUrl == JStr(""))
      && ("source_count" !in a ==> r.sourceCount == JNum(1))
      && ("image_url" !in a ==> r.imageUrl == JStr(""))
      && r.title == a["title"] && r.content == a["content"] && r.publishedAt == now
  {
  }

  /** Building the row raises exactly for a missing required key or one of the TypeErrors above. */
  lemma RowFails(a: Article, now: int)
    ensures RowOf(a, now).None? <==>
      !HasRequired(a) || PressNames(Get(a, "_source_articles", JArr([]))).None?
      || Get(a, "category", JStr("")).JArr? || Get(a, "category", JStr("")).JObj?
      || SourceUrl(a).None?
  {
  }

  // ---------------------------------------------------------------------------
  // The JSON fallback

  /** `{k: v for k, v in article.items() if not k.startswith("_")}`. */
  function StripPrivate(a: Article): (r: Article)
    ensures forall k :: k in r <==> k in a && !("_" <= k)
    ensures forall k :: k in r ==> r[k] == a[k]
  {
    map k | k in a && !("_" <= k) :: a[k]
  }

  /** Stripping twice strips nothing more, and a stripped article builds the same row apart from `source_name`. */
  lemma StripPrivateStable(a: Article, now: int)
    ensures StripPrivate(StripPrivate(a)) == StripPrivate(a)
    ensures RowOf(a, now).Some? ==> RowOf(StripPrivate(a), now) == Some(RowOf(a, now).value.(sourceName := ""))
  {
    var b := StripPrivate(a);
    assert StripPrivate(b) == b;
    if RowOf(a, now).Some? {
      assert "_source_articles" !in b;
      StripKeeps(a, "category", JStr(""));
      StripKeeps(a, "source_links", JNull);
      StripKeeps(a, "image_url", JStr(""));
      StripKeeps(a, "source_count", JNum(1));
      StripKeeps(a, "title", JNull);
      StripKeeps(a, "summary", JNull);
      StripKeeps(a, "bullet_summary", JNull);
      StripKeeps(a, "content", JNull);
      StripKeeps(a, "hashtags", JNull);
    }
  }

  lemma StripKeeps(a: Article, key: string, default: Json)
    requires key != [] && key[0] != '_'
    ensures (key in StripPrivate(a) <==> key in a) && Get(StripPrivate(a), key, default) == Get(a, key, default)
  {
    assert !("_" <= key);
  }

  /** The `save_data` loop of the fallback. */
  method FallbackData(articles: seq<Article>) returns (data: seq<Article>)
    ensures data == Map(articles, StripPrivate)
  {
    data := [];
    var i := 0;
    while i < |articles|
      invariant 0 <= i <= |articles|
      invariant data == Map(articles[..i], StripPrivate)
    {
      MapSnoc(articles[..i], articles[i], StripPrivate);
      assert articles[..i + 1] == articles[..i] + [articles[i]];
      data := data + [StripPrivate(articles[i])];
      i := i + 1;
    }
    assert articles[..i] == articles;
  }

  // ---------------------------------------------------------------------------
  // The insert loop

  /** The server's answer to one INSERT: a new row, a row skipped by ON CONFLICT DO NOTHING, or an error. */
  datatype Status = Written | Conflict | Refused

  /** The answer to the INSERT of the `k`-th article's row. */
  type Server<-R> = (nat, R) -> Status

  /**
   * What the loop sees of one article: its row (None when building it raises) and whether
   * the failure handler's own `article.get('title', '')[:20]` raises, which it does for a
   * title that is present but neither a string nor a list; that exception leaves the loop.
   */
  datatype Attempt<R> = Attempt(row: Option<R>, handlerRaises: bool)

  predicate HandlerRaises(a: Article)
  {
    "title" in a && !(a["title"].JStr? || a["title"].JArr?)
  }

  function AttemptOf(a: Article, now: int): Attempt<Row>
  {
    Attempt(RowOf(a, now), HandlerRaises(a))
  }

  /** The server's answer for attempt `k`; Refused also stands for a row that could not be built. */
  function StatusOf<R>(t: Attempt<R>, server: Server<R>, k: nat): Status
  {
    if t.row.Some? then server(k, t.row.value) else Refused
  }

  datatype RunState<R> = RunState(inserted: nat, failed: nat, pending: seq<R>, escaped: bool)

  /**
   * One article of the loop. The code as written calls `conn.rollback()` on a failure, which
   * empties the whole open transaction (`savepoints` false); with a savepoint per row only the
   * failing row would be undone (`savepoints` true).
   */
  function Step<R>(st: RunState<R>, t: Attempt<R>, status: Status, savepoints: bool): RunState<R>
    requires status.Refused? || t.row.Some?
  {
    match status
    case Written => st.(inserted := st.inserted + 1, pending := st.pending + [t.row.value])
    case Conflict => st.(inserted := st.inserted + 1)
    case Refused =>
      if t.handlerRaises then st.(escaped := true)
      else st.(failed := st.failed + 1, pending := if savepoints then st.pending else [])
  }

  /** The loop over the first `n` attempts; after an escape nothing more happens. */
  function Run<R>(ts: seq<Attempt<R>>, server: Server<R>, savepoints: bool, n: nat): (st: RunState<R>)
    requires n <= |ts|
    ensures !st.escaped ==> st.inserted + st.failed == n
  {
    if n == 0 then RunState(0, 0, [], false)
    else
      var st := Run(ts, server, savepoints, n - 1);
      if st.escaped then st
      else Step(st, ts[n - 1], StatusOf(ts[n - 1], server, n - 1), savepoints)
  }

  /** Reference: the rows the server wrote among the first `n` attempts. */
  function WrittenRows<R>(ts: seq<Attempt<R>>, server: Server<R>, n: nat): seq<R>
    requires n <= |ts|
  {
    if n == 0 then []
    else WrittenRows(ts, server, n - 1) + (if StatusOf(ts[n - 1], server, n - 1).Written? then [ts[n - 1].row.value] else [])
  }

  /** Reference: how many of the first `n` INSERTs were executed without an error. */
  function ExecutedCount<R>(ts: seq<Attempt<R>>, server: Server<R>, n: nat): nat
    requires n <= |ts|
  {
    if n == 0 then 0
    else ExecutedCount(ts, server, n - 1) + (if StatusOf(ts[n - 1], server, n - 1).Refused? then 0 else 1)
  }

  /** `inserted` counts the executed INSERTs, conflicts included, and both variants count alike. */
  lemma {:induction false} RunCounts<R>(ts: seq<Attempt<R>>, server: Server<R>, n: nat)
    requires n <= |ts|
    ensures var a, b := Run(ts, server, false, n), Run(ts, server, true, n);
      && a.inserted == b.inserted && a.failed == b.failed && a.escaped == b.escaped
      && (!a.escaped ==> a.inserted == ExecutedCount(ts, server, n))
  {
    if n > 0 {
      RunCounts(ts, server, n - 1);
    }
  }

  /** Once the handler has raised, the remaining articles are not visited. */
  lemma {:induction false} EscapeStays<R>(ts: seq<Attempt<R>>, server: Server<R>, savepoints: bool, k: nat, n: nat)
    requires k <= n <= |ts|
    requires Run(ts, server, savepoints, k).escaped
    ensures Run(ts, server, savepoints, n) == Run(ts, server, savepoints, k)
    decreases n - k
  {
    if k < n {
      EscapeStays(ts, server, savepoints, k, n - 1);
    }
  }

  /** With a savepoint per row, the transaction holds every row the server wrote. */
  lemma {:induction false} SavepointsKeepRows<R>(ts: seq<Attempt<R>>, server: Server<R>, n: nat)
    requires n <= |ts|
    requires !Run(ts, server, true, n).escaped
    ensures Run(ts, server, true, n).pending == WrittenRows(ts, server, n)
  {
    if n > 0 {
      SavepointsKeepRows(ts, server, n - 1);
    }
  }

  ghost predicate IsSuffix<T>(a: seq<T>, b: seq<T>)
  {
    |a| <= |b| && a == b[|b| - |a|..]
  }

  /** One step of both variants keeps the as-written rows a suffix of the savepoint rows. */
  lemma StepKeepsSuffix<R>(a: RunState<R>, b: RunState<R>, a': RunState<R>, b': RunState<R>, t: Attempt<R>, status: Status)
    requires status.Refused? || t.row.Some?
    requires a.escaped == b.escaped && IsSuffix(a.pending, b.pending)
    requires a' == (if a.escaped then a else Step(a, t, status, false))
    requires b' == (if b.escaped then b else Step(b, t, status, true))
    ensures IsSuffix(a'.pending, b'.pending)
  {
    if !a.escaped && status.Written? {
      var r := t.row.value;
      assert (b.pending + [r])[|b.pending| + 1 - (|a.pending| + 1)..] == b.pending[|b.pending| - |a.pending|..] + [r];
    }
  }

  /** As written, the transaction holds only a suffix of the written rows: those after the last failure. */
  lemma {:induction false} RollbackKeepsSuffix<R>(ts: seq<Attempt<R>>, server: Server<R>, n: nat)
    requires n <= |ts|
    ensures IsSuffix(Run(ts, server, false, n).pending, Run(ts, server, true, n).pending)
  {
    if n > 0 {
      RollbackKeepsSuffix(ts, server, n - 1);
      RunCounts(ts, server, n - 1);
      StepKeepsSuffix(Run(ts, server, false, n - 1), Run(ts, server, true, n - 1), Run(ts, server, false, n), Run(ts, server, true, n),
        ts[n - 1], StatusOf(ts[n - 1], server, n - 1));
    }
  }

  /** While nothing has failed, both variants hold the same rows. */
  lemma {:induction false} NoFailureSameRows<R>(ts: seq<Attempt<R>>, server: Server<R>, n: nat)
    requires n <= |ts|
    requires Run(ts, server, false, n).failed == 0
    ensures Run(ts, server, false, n).pending == Run(ts, server, true, n).pending
  {
    if n > 0 {
      var a := Run(ts, server, false, n - 1);
      assert a.failed <= Run(ts, server, false, n).failed;
      NoFailureSameRows(ts, server, n - 1);
      RunCounts(ts, server, n - 1);
    }
  }

  // ---------------------------------------------------------------------------
  // The connection

  /** The `news` table behind a psycopg2 connection: the committed rows and the open transaction's rows. */
  class Connection {
    var committed: seq<Row>
    var pending: seq<Row>
    var savepoint: nat
    var open: bool

    /** `psycopg2.connect(**db_config)` on a table that already holds `table`. */
    constructor (table: seq<Row>)
      ensures committed == table && pending == [] && savepoint == 0 && open
    {
      committed := table;
      pending := [];
      savepoint := 0;
      open := true;
    }

    /** `cur.execute(INSERT_SQL, row)` answered with `status`; an error raises (`ok` false). */
    method Execute(row: Row, status: Status) returns (ok: bool)
      modifies this
      ensures ok == !status.Refused?
      ensures pending == old(pending) + (if status.Written? then [row] else [])
      ensures committed == old(committed) && savepoint == old(savepoint) && open == old(open)
    {
      ok := !status.Refused?;
      if status.Written? {
        pending := pending + [row];
      }
    }

    /** `conn.rollback()`: the whole open transaction is undone. */
    method Rollback()
      modifies this
      ensures pending == [] && savepoint == 0
      ensures committed == old(committed) && open == old(open)
    {
      pending := [];
      savepoint := 0;
    }

    /** `SAVEPOINT row`. */
    method Savepoint()
      modifies this
      ensures savepoint == |pending|
      ensures pending == old(pending) && committed == old(committed) && open == old(open)
    {
      savepoint := |pending|;
    }

    /** `ROLLBACK TO SAVEPOINT row`: only what came after the savepoint is undone. */
    method RollbackToSavepoint()
      requires savepoint <= |pending|
      modifies this
      ensures pending == old(pending)[..old(savepoint)]
      ensures committed == old(committed) && savepoint == old(savepoint) && open == old(open)
    {
      pending := pending[..savepoint];
    }

    /** `conn.commit()`; when it raises the transaction stays open. */
    method Commit(succeeds: bool) returns (ok: bool)
      modifies this
      ensures ok == succeeds
      ensures committed == old(committed) + (if succeeds then old(pending) else [])
      ensures pending == (if succeeds then [] else old(pending))
      ensures savepoint == (if succeeds then 0 else old(savepoint)) && open == old(open)
    {
      ok := succeeds;
      if succeeds {
        committed := committed + pending;
        pending := [];
        savepoint := 0;
      }
    }

    /** `conn.close()`: an uncommitted transaction is discarded. */
    method Close()
      modifies this
      ensures !open && pending == [] && savepoint == 0
      ensures committed == old(committed)
    {
      open := false;
      pending := [];
      savepoint := 0;
    }
  }

  // ---------------------------------------------------------------------------
  // load_to_db

  datatype Outcome = Loaded(inserted: nat, failed: nat) | SavedAsJson(data: seq<Article>)

  /** The attempts of a batch of articles, in order. */
  function Attempts(articles: seq<Article>, now: int): (ts: seq<Attempt<Row>>)
    ensures |ts| == |articles|
  {
    if articles == [] then []
    else Attempts(articles[..|articles| - 1], now) + [AttemptOf(articles[|articles| - 1], now)]
  }

  /** The `k`-th attempt is that of the `k`-th article. */
  lemma {:induction false} AttemptsAt(articles: seq<Article>, now: int, k: nat)
    requires k < |articles|
    ensures Attempts(articles, now)[k] == AttemptOf(articles[k], now)
  {
    if k < |articles| - 1 {
      var p := articles[..|articles| - 1];
      AttemptsAt(p, now, k);
      assert Attempts(articles, now)[k] == Attempts(p, now)[k];
    }
  }

  /** What `load_to_db` reports: the two counters, or the fallback file's contents. */
  function LoadOutcome(articles: seq<Article>, now: int, server: Server<Row>, connected: bool, commitOk: bool, savepoints: bool): Outcome
  {
    if !connected then SavedAsJson(Map(articles, StripPrivate))
    else
      var st := Run(Attempts(articles, now), server, savepoints, |articles|);
      if st.escaped || !commitOk then SavedAsJson(Map(articles, StripPrivate))
      else Loaded(st.inserted, st.failed)
  }

  /** The rows `load_to_db` leaves committed in the table. */
  function CommittedRows(articles: seq<Article>, now: int, server: Server<Row>, connected: bool, commitOk: bool, savepoints: bool): seq<Row>
  {
    if LoadOutcome(articles, now, server, connected, commitOk, savepoints).Loaded?
    then Run(Attempts(articles, now), server, savepoints, |articles|).pending
    else []
  }

  /** The outcome once connected, read off the finished run. */
  lemma OutcomeAfterRun(articles: seq<Article>, now: int, server: Server<Row>, commitOk: bool, savepoints: bool)
    ensures var st := Run(Attempts(articles, now), server, savepoints, |articles|);
      && LoadOutcome(articles, now, server, true, commitOk, savepoints)
         == (if st.escaped || !commitOk then SavedAsJson(Map(articles, StripPrivate)) else Loaded(st.inserted, st.failed))
      && CommittedRows(articles, now, server, true, commitOk, savepoints) == (if st.escaped || !commitOk then [] else st.pending)
  {
  }

  /**
   * The body of the loop for the `k`-th article: build the row, execute the INSERT and, on
   * an exception, roll back; `raised` is an exception escaping from the handler itself.
   */
  method InsertArticle(db: Connection, articles: seq<Article>, k: nat, now: int, server: Server<Row>, savepoints: bool, ghost st: RunState<Row>)
    returns (ok: bool, raised: bool)
    requires db.open && st.pending == db.pending && !st.escaped && k < |articles|
    modifies db
    ensures var t := Attempts(articles, now)[k];
      var next := Step(st, t, StatusOf(t, server, k), savepoints);
      && raised == next.escaped
      && (!raised ==> next == st.(inserted := st.inserted + (if ok then 1 else 0),
                                  failed := st.failed + (if ok then 0 else 1), pending := db.pending))
    ensures db.committed == old(db.committed) && db.open
  {
    var article := articles[k];
    AttemptsAt(articles, now, k);
    if savepoints {
      db.Savepoint();
    }
    var row := RowOf(article, now);
    ok := false;
    if row.Some? {
      ok := db.Execute(row.value, server(k, row.value));
    }
    raised := !ok && HandlerRaises(article);
    if !ok && !raised {
      if savepoints {
        db.RollbackToSavepoint();
      } else {
        db.Rollback();
      }
    }
  }

  /** The insert loop of `load_to_db`: it stops early when the failure handler raises. */
  method InsertAll(db: Connection, articles: seq<Article>, now: int, server: Server<Row>, savepoints: bool)
    returns (inserted: nat, failed: nat, raised: bool)
    requires db.open && db.pending == []
    modifies db
    ensures var st := Run(Attempts(articles, now), server, savepoints, |articles|);
      raised == st.escaped && (!raised ==> st == RunState(inserted, failed, db.pending, false))
    ensures db.committed == old(db.committed) && db.open
  {
    ghost var ts := Attempts(articles, now);
    inserted, failed := 0, 0;
    var i := 0;
    while i < |articles|
      invariant 0 <= i <= |articles|
      invariant Run(ts, server, savepoints, i) == RunState(inserted, failed, db.pending, false)
      invariant db.committed == old(db.committed) && db.open
    {
      ghost var st := RunState(inserted, failed, db.pending, false);
      var ok;
      ok, raised := InsertArticle(db, articles, i, now, server, savepoints, st);
      if raised {
        EscapeStays(ts, server, savepoints, i + 1, |articles|);
        return;
      }
      if ok {
        inserted := inserted + 1;
      } else {
        failed := failed + 1;
      }
      i := i + 1;
    }
    raised := false;
  }

  /**
   * `load_to_db(articles)`: `connected` is whether `psycopg2.connect` succeeds, `server`
   * answers each INSERT and `commitOk` is whether `conn.commit()` succeeds.
   */
  method LoadToDb(db: Connection, articles: seq<Article>, now: int, server: Server<Row>, connected: bool, commitOk: bool, savepoints: bool)
    returns (outcome: Outcome)
    requires db.open && db.pending == []
    modifies db
    ensures outcome == LoadOutcome(articles, now, server, connected, commitOk, savepoints)
    ensures db.committed == old(db.committed) + CommittedRows(articles, now, server, connected, commitOk, savepoints)
    ensures db.pending == []
  {
    if !connected {
      var data := FallbackData(articles);
      outcome := SavedAsJson(data);
      return;
    }
    var inserted, failed, raised := InsertAll(db, articles, now, server, savepoints);
    OutcomeAfterRun(articles, now, server, commitOk, savepoints);
    if raised {
      db.Close();
      var data := FallbackData(articles);
      outcome := SavedAsJson(data);
      return;
    }
    var committed := db.Commit(commitOk);
    db.Close();
    if committed {
      outcome := Loaded(inserted, failed);
    } else {
      var data := FallbackData(articles);
      outcome := SavedAsJson(data);
    }
  }

  /** A finished load accounts for every article: `inserted + failed` is the number of articles. */
  lemma LoadedAccountsAll(articles: seq<Article>, now: int, server: Server<Row>, connected: bool, commitOk: bool, savepoints: bool)
    requires LoadOutcome(articles, now, server, connected, commitOk, savepoints).Loaded?
    ensures var o := LoadOutcome(articles, now, server, connected, commitOk, savepoints);
      o.inserted + o.failed == |articles| && o.inserted == ExecutedCount(Attempts(articles, now), server, |articles|)
  {
    RunCounts(Attempts(articles, now), server, |articles|);
  }

  /** Without a connection, or when the commit fails, every article is saved without its `_` keys. */
  lemma FallbackSavesAll(articles: seq<Article>, now: int, server: Server<Row>, connected: bool, commitOk: bool, savepoints: bool)
    requires !connected || !commitOk
    ensures var o := LoadOutcome(articles, now, server, connected, commitOk, savepoints);
      && o.SavedAsJson? && |o.data| == |articles|
      && forall i :: 0 <= i < |articles| ==> forall k :: k in o.data[i] <==> k in articles[i] && !("_" <= k)
    ensures CommittedRows(articles, now, server, connected, commitOk, savepoints) == []
  {
  }

  /** With savepoints, the committed rows are exactly the rows the server wrote. */
  lemma SavepointsCommitWritten(articles: seq<Article>, now: int, server: Server<Row>, commitOk: bool)
    requires LoadOutcome(articles, now, server, true, commitOk, true).Loaded?
    ensures CommittedRows(articles, now, server, true, commitOk, true) == WrittenRows(Attempts(articles, now), server, |articles|)
  {
    SavepointsKeepRows(Attempts(articles, now), server, |articles|);
  }

  /**
   * As written, one failing article discards the rows written before it although they were
   * counted as inserted: a good article followed by one without a title reports one insert
   * and commits nothing, where savepoints would commit the good article's row.
   */
  lemma RollbackLosesRows(good: Article, now: int)
    requires RowOf(good, now).Some?
    ensures var articles, server := [good, map[]], (k: nat, row: Row) => Written;
      && LoadOutcome(articles, now, server, true, true, false) == Loaded(1, 1)
      && CommittedRows(articles, now, server, true, true, false) == []
      && CommittedRows(articles, now, server, true, true, true) == [RowOf(good, now).value]
  {
    var articles: seq<Article>, server: Server<Row> := [good, map[]], (k: nat, row: Row) => Written;
    var ts := Attempts(articles, now);
    AttemptsAt(articles, now, 0);
    AttemptsAt(articles, now, 1);
    assert ts[0] == Attempt(RowOf(good, now), HandlerRaises(good));
    assert RowOf(map[], now).None?;
    assert ts[1] == Attempt(None, false);
    assert Run(ts, server, false, 1) == RunState(1, 0, [RowOf(good, now).value], false);
    assert Run(ts, server, true, 1) == RunState(1, 0, [RowOf(good, now).value], false);
    assert Run(ts, server, false, 2) == RunState(1, 1, [], false);
    assert Run(ts, server, true, 2) == RunState(1, 1, [RowOf(good, now).value], false);
  }
}
