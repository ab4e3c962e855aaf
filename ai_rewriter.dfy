// Reconstruction by LLM (pipeline/reconstruction/ai_rewriter.py): the router that
// retries the primary provider, falls back to the secondary one and keeps four
// counters; the prompt inputs; the backfill of required fields; the deterministic
// fallback article built by sentence splitting; and the driver over every cluster.
// Providers are oracles: `tries(a)` is what the provider answers on attempt `a` of
// one `generate` call, None standing for an exception.

module AiRewriter {
  import opened Util
  import Clusterer

  type Article = Clusterer.Article

  /** A value of a reconstructed-article dict (the JSON an LLM returns, plus the keys the driver adds). */
  datatype Value =
    | Str(s: string)
    | Strs(items: seq<string>)
    | Flag(b: bool)
    | Count(n: int)
    | Sources(articles: seq<Article>)
    | Other

  /**
   * The keys of that dict the pipeline names; any other key an LLM returns is an `OtherKey`.
   * A named key is always its own constructor: `OtherKey(name)` never carries the name of one
   * (`KeyName` below), so each JSON key has exactly one `Key`, as each Python dict key is itself.
   */
  datatype Key =
    | Title | Summary | BulletSummary | Content | Hashtags | Persona | IsFallback
    | Category | SourceCount | SourceLinks | SourceArticles
    | OtherKey(name: string)

  type Record = map<Key, Value>

  /** The name a key has in the JSON text. */
  function KeyName(k: Key): string
  {
    match k
    case Title => "title"
    case Summary => "summary"
    case BulletSummary => "bullet_summary"
    case Content => "content"
    case Hashtags => "hashtags"
    case Persona => "persona"
    case IsFallback => "_fallback"
    case Category => "category"
    case SourceCount => "source_count"
    case SourceLinks => "source_links"
    case SourceArticles => "_source_articles"
    case OtherKey(name) => name
  }

  /**
   * What `json.loads` makes of an answer: an object, a list, a string, or a scalar (a number, a
   * boolean or null). A list is kept as its string elements, the only ones a key name can equal.
   */
  datatype Json =
    | Object(fields: Record)
    | Array(strings: seq<string>)
    | Text(s: string)
    | Scalar

  /** A provider's answers to the attempts of one call. */
  type Tries = nat -> Option<Json>

  // ---------------------------------------------------------------------------
  // LLMRouter

  datatype Role = Primary | Fallback

  /** What `generate` does that can be observed: provider calls and `time.sleep` waits, in order. */
  datatype Event = Call(role: Role, attempt: nat) | Sleep(seconds: int)

  /** The `stats` dict. */
  datatype Stats = Stats(primarySuccess: nat, primaryFail: nat, fallbackSuccess: nat, fallbackFail: nat)

  function AddStats(s: Stats, d: Stats): Stats
  {
    Stats(s.primarySuccess + d.primarySuccess, s.primaryFail + d.primaryFail,
          s.fallbackSuccess + d.fallbackSuccess, s.fallbackFail + d.fallbackFail)
  }

  function Pow2(a: nat): (p: nat)
    ensures p >= 1
  {
    if a == 0 then 1 else 2 * Pow2(a - 1)
  }

  /** The wait after failed attempt `attempt`: `min(retry_delay_base * 2 ** attempt, 30)`, negative exactly when the base is. */
  function Backoff(base: int, attempt: nat): (w: int)
    ensures w <= 30
    ensures w == 30 || w == base * Pow2(attempt)
    ensures base * Pow2(attempt) <= 30 ==> w == base * Pow2(attempt)
    ensures w < 0 <==> base < 0
  {
    var w := base * Pow2(attempt);
    if w < 30 then w else 30
  }

  /** The number of attempts `range(max_retries)` allows. */
  function Attempts(maxRetries: int): nat
  {
    if maxRetries > 0 then maxRetries else 0
  }

  /** The first of attempts `0 .. n-1` that a provider answers. */
  function FirstAnswer(tries: Tries, n: nat): (r: Option<nat>)
    ensures r.Some? ==> r.value < n && tries(r.value).Some? && forall a :: 0 <= a < r.value ==> tries(a).None?
    ensures r.None? ==> forall a :: 0 <= a < n ==> tries(a).None?
  {
    if n == 0 then None
    else
      match FirstAnswer(tries, n - 1)
      case Some(a) => Some(a)
      case None => if tries(n - 1).Some? then Some(n - 1) else None
  }

  /** A provider that fails every one of the first `n` attempts has no first answer among them. */
  lemma {:induction false} NoFirstAnswer(tries: Tries, n: nat)
    requires forall a :: 0 <= a < n ==> tries(a).None?
    ensures FirstAnswer(tries, n) == None
  {
    if n > 0 {
      NoFirstAnswer(tries, n - 1);
    }
  }

  /** The first answer is at `k` when attempt `k` answers and every earlier one fails. */
  lemma {:induction false} FirstAnswerAt(tries: Tries, n: nat, k: nat)
    requires k < n && tries(k).Some?
    requires forall a :: 0 <= a < k ==> tries(a).None?
    ensures FirstAnswer(tries, n) == Some(k)
  {
    if k < n - 1 {
      FirstAnswerAt(tries, n - 1, k);
    } else {
      NoFirstAnswer(tries, k);
    }
  }

  /** The events of the first `k` attempts of a provider, all failed: each call is followed by its wait unless it is attempt `n - 1`. */
  function FailEvents(role: Role, base: int, n: nat, k: nat): (r: seq<Event>)
  {
    if k == 0 then []
    else FailEvents(role, base, n, k - 1) + [Call(role, k - 1)] + (if k - 1 < n - 1 then [Sleep(Backoff(base, k - 1))] else [])
  }

  /**
   * What trying one provider gives: its answer, its counter increments, its events, and whether
   * `time.sleep` raised ValueError on a negative backoff, which escapes `generate`.
   */
  datatype Phase = Phase(answer: Option<Json>, successes: nat, failures: nat, events: seq<Event>, sleepRaised: bool)

  /**
   * Whether the wait after a failed first attempt raises: there is such a wait when a retry is
   * left, and `time.sleep` rejects a negative duration. Every later backoff has the sign of the
   * first, so a provider that gets past its first wait never raises.
   */
  predicate FirstWaitRaises(n: nat, base: int)
  {
    n >= 2 && Backoff(base, 0) < 0
  }

  function TryProvider(role: Role, present: bool, tries: Tries, n: nat, base: int): Phase
  {
    if !present then Phase(None, 0, 0, [], false)
    else if tries(0).None? && FirstWaitRaises(n, base) then Phase(None, 0, 1, [Call(role, 0)], true)
    else
      match FirstAnswer(tries, n)
      case Some(k) => Phase(tries(k), 1, k, FailEvents(role, base, n, k) + [Call(role, k)], false)
      case None => Phase(None, 0, n, FailEvents(role, base, n, n), false)
  }

  /**
   * What one `generate` call gives: the answer, the increments of `stats`, the events, and whether
   * ValueError escaped from `time.sleep`. No answer without that ValueError is the RuntimeError.
   */
  datatype Outcome = Outcome(answer: Option<Json>, delta: Stats, events: seq<Event>, sleepRaised: bool)

  function Route(hasPrimary: bool, hasFallback: bool, primaryTry: Tries, fallbackTry: Tries, maxRetries: int, base: int): Outcome
  {
    var n := Attempts(maxRetries);
    var p := TryProvider(Primary, hasPrimary, primaryTry, n, base);
    if p.answer.Some? || p.sleepRaised then Outcome(p.answer, Stats(p.successes, p.failures, 0, 0), p.events, p.sleepRaised)
    else
      var f := TryProvider(Fallback, hasFallback, fallbackTry, n, base);
      Outcome(f.answer, Stats(p.successes, p.failures, f.successes, f.failures), p.events + f.events, f.sleepRaised)
  }

  function CallCount(events: seq<Event>, role: Role): nat
  {
    if events == [] then 0
    else CallCount(events[..|events| - 1], role) + (if events[|events| - 1].Call? && events[|events| - 1].role == role then 1 else 0)
  }

  lemma {:induction false} CallCountAppend(a: seq<Event>, b: seq<Event>, role: Role)
    ensures CallCount(a + b, role) == CallCount(a, role) + CallCount(b, role)
    decreases |b|
  {
    if b == [] {
      assert a + b == a;
    } else {
      var q := b[..|b| - 1];
      CallCountAppend(a, q, role);
      assert (a + b)[..|a + b| - 1] == a + q;
      assert (a + b)[|a + b| - 1] == b[|b| - 1];
    }
  }

  lemma CallCountOne(e: Event, role: Role)
    ensures CallCount([e], role) == if e.Call? && e.role == role then 1 else 0
  {
    assert [e][..0] == [];
  }

  /** `k` failed attempts make `k` calls of their provider and none of the other. */
  lemma {:induction false} FailEventsCalls(role: Role, other: Role, base: int, n: nat, k: nat)
    requires other != role
    ensures CallCount(FailEvents(role, base, n, k), role) == k
    ensures CallCount(FailEvents(role, base, n, k), other) == 0
  {
    if k > 0 {
      FailEventsCalls(role, other, base, n, k - 1);
      var prev := FailEvents(role, base, n, k - 1);
      var c: seq<Event> := [Call(role, k - 1)];
      var w: seq<Event> := if k - 1 < n - 1 then [Sleep(Backoff(base, k - 1))] else [];
      assert FailEvents(role, base, n, k) == prev + c + w;
      CallCountAppend(prev, c, role);
      CallCountAppend(prev + c, w, role);
      CallCountAppend(prev, c, other);
      CallCountAppend(prev + c, w, other);
      CallCountOne(Call(role, k - 1), role);
      CallCountOne(Call(role, k - 1), other);
      if k - 1 < n - 1 {
        CallCountOne(Sleep(Backoff(base, k - 1)), role);
        CallCountOne(Sleep(Backoff(base, k - 1)), other);
      }
    }
  }

  /** A provider is called at most `n` times, once more than the failures when it answers. */
  lemma TryProviderCalls(role: Role, other: Role, present: bool, tries: Tries, n: nat, base: int)
    requires other != role
    ensures var p := TryProvider(role, present, tries, n, base);
      CallCount(p.events, role) == p.successes + p.failures <= n && CallCount(p.events, other) == 0
  {
    if present && tries(0).None? && FirstWaitRaises(n, base) {
      CallCountOne(Call(role, 0), role);
      CallCountOne(Call(role, 0), other);
    } else if present {
      match FirstAnswer(tries, n)
      case Some(k) =>
        FailEventsCalls(role, other, base, n, k);
        CallCountAppend(FailEvents(role, base, n, k), [Call(role, k)], role);
        CallCountAppend(FailEvents(role, base, n, k), [Call(role, k)], other);
        CallCountOne(Call(role, k), role);
        CallCountOne(Call(role, k), other);
      case None =>
        FailEventsCalls(role, other, base, n, n);
    }
  }

  /** Each provider is tried at most `max_retries` times, so one `generate` makes at most `2 * max_retries` calls. */
  lemma RouteCalls(hasPrimary: bool, hasFallback: bool, primaryTry: Tries, fallbackTry: Tries, maxRetries: int, base: int)
    ensures var o := Route(hasPrimary, hasFallback, primaryTry, fallbackTry, maxRetries, base);
      && CallCount(o.events, Primary) == o.delta.primarySuccess + o.delta.primaryFail <= Attempts(maxRetries)
      && CallCount(o.events, Fallback) == o.delta.fallbackSuccess + o.delta.fallbackFail <= Attempts(maxRetries)
      && CallCount(o.events, Primary) + CallCount(o.events, Fallback) <= 2 * Attempts(maxRetries)
  {
    var n := Attempts(maxRetries);
    var p := TryProvider(Primary, hasPrimary, primaryTry, n, base);
    var f := TryProvider(Fallback, hasFallback, fallbackTry, n, base);
    TryProviderCalls(Primary, Fallback, hasPrimary, primaryTry, n, base);
    TryProviderCalls(Fallback, Primary, hasFallback, fallbackTry, n, base);
    CallCountAppend(p.events, f.events, Primary);
    CallCountAppend(p.events, f.events, Fallback);
  }

  /**
   * The first answer of the primary is returned at once: one success, one failure per earlier
   * attempt, no fallback call. With a negative base and an earlier failure, the first wait raises
   * ValueError instead, after one counted failure.
   */
  lemma PrimaryAnswers(hasFallback: bool, primaryTry: Tries, fallbackTry: Tries, maxRetries: int, base: int, k: nat)
    requires k < maxRetries && primaryTry(k).Some?
    requires forall a :: 0 <= a < k ==> primaryTry(a).None?
    ensures var o := Route(true, hasFallback, primaryTry, fallbackTry, maxRetries, base);
      if k > 0 && base < 0 then
        o.answer.None? && o.sleepRaised && o.delta == Stats(0, 1, 0, 0) && o.events == [Call(Primary, 0)]
      else
        o.answer == primaryTry(k) && !o.sleepRaised && o.delta == Stats(1, k, 0, 0) && CallCount(o.events, Fallback) == 0
  {
    var n := Attempts(maxRetries);
    FirstAnswerAt(primaryTry, n, k);
    TryProviderCalls(Primary, Fallback, true, primaryTry, n, base);
  }

  /**
   * When every primary attempt fails and the fallback answers at once, `primary_fail` grows by
   * `max_retries` and `fallback_success` by 1; unless a retry is left and the base is negative,
   * when the primary's first wait raises ValueError and the fallback is never tried.
   */
  lemma FallbackRescues(primaryTry: Tries, fallbackTry: Tries, maxRetries: int, base: int)
    requires maxRetries >= 1
    requires forall a :: 0 <= a < maxRetries ==> primaryTry(a).None?
    requires fallbackTry(0).Some?
    ensures var o := Route(true, true, primaryTry, fallbackTry, maxRetries, base);
      if maxRetries >= 2 && base < 0 then
        o.answer.None? && o.sleepRaised && o.delta == Stats(0, 1, 0, 0) && o.events == [Call(Primary, 0)]
      else
        o.answer == fallbackTry(0) && !o.sleepRaised && o.delta == Stats(0, maxRetries, 1, 0)
  {
    var n := Attempts(maxRetries);
    NoFirstAnswer(primaryTry, n);
    FirstAnswerAt(fallbackTry, n, 0);
  }

  /**
   * `generate` lets ValueError escape exactly when a retry is left, the base is negative and the
   * first present provider fails its first attempt: the wait after it is negative.
   */
  lemma RouteSleepRaises(hasPrimary: bool, hasFallback: bool, primaryTry: Tries, fallbackTry: Tries, maxRetries: int, base: int)
    ensures Route(hasPrimary, hasFallback, primaryTry, fallbackTry, maxRetries, base).sleepRaised <==>
      && maxRetries >= 2 && base < 0
      && (if hasPrimary then primaryTry(0).None? else hasFallback && fallbackTry(0).None?)
  {
  }

  /**
   * `generate` gives no answer exactly when it raises: ValueError from a negative wait, or
   * RuntimeError when no present provider answers within `max_retries` attempts.
   */
  lemma RouteRaises(hasPrimary: bool, hasFallback: bool, primaryTry: Tries, fallbackTry: Tries, maxRetries: int, base: int)
    ensures var o := Route(hasPrimary, hasFallback, primaryTry, fallbackTry, maxRetries, base);
      var allFail :=
        && (hasPrimary ==> forall a :: 0 <= a < maxRetries ==> primaryTry(a).None?)
        && (hasFallback ==> forall a :: 0 <= a < maxRetries ==> fallbackTry(a).None?);
      o.answer.None? <==> o.sleepRaised || allFail
  {
    var n := Attempts(maxRetries);
    if hasPrimary && FirstAnswer(primaryTry, n).Some? {
      var k := FirstAnswer(primaryTry, n).value;
      assert 0 <= k < maxRetries && primaryTry(k).Some?;
    }
    if hasFallback && FirstAnswer(fallbackTry, n).Some? {
      var k := FirstAnswer(fallbackTry, n).value;
      assert 0 <= k < maxRetries && fallbackTry(k).Some?;
    }
  }

  /** The calls among the events of `k` failed attempts are this provider's attempts below `k`; the events end with a call only after the last allowed attempt. */
  lemma {:induction false} FailEventsCallShape(role: Role, base: int, n: nat, k: nat)
    requires k <= n
    ensures var e := FailEvents(role, base, n, k);
      && (forall i :: 0 <= i < |e| && e[i].Call? ==> e[i] == Call(role, e[i].attempt) && e[i].attempt < k)
      && (e != [] && e[|e| - 1].Call? ==> e[|e| - 1].attempt >= n - 1)
      && (k == n && n > 0 ==> e != [] && e[|e| - 1] == Call(role, n - 1))
  {
    if k > 0 {
      FailEventsCallShape(role, base, n, k - 1);
      var prev := FailEvents(role, base, n, k - 1);
      var w: seq<Event> := if k - 1 < n - 1 then [Sleep(Backoff(base, k - 1))] else [];
      var e := FailEvents(role, base, n, k);
      assert e == prev + [Call(role, k - 1)] + w;
      forall i | 0 <= i < |e| && e[i].Call?
        ensures e[i] == Call(role, e[i].attempt) && e[i].attempt < k
      {
        if i < |prev| {
          assert e[i] == prev[i];
        }
      }
    }
  }

  /** Every wait directly follows a failed call below the last allowed attempt `n - 1` and lasts that call's backoff. */
  predicate WaitsFollowCalls(e: seq<Event>, n: nat, base: int)
  {
    forall i :: 0 <= i < |e| && e[i].Sleep? ==>
      i > 0 && e[i - 1].Call? && e[i - 1].attempt < n - 1 && e[i].seconds == Backoff(base, e[i - 1].attempt)
  }

  /** The events of failed attempts keep every wait right after its call. */
  lemma {:induction false} FailEventsSleepShape(role: Role, base: int, n: nat, k: nat)
    requires k <= n
    ensures WaitsFollowCalls(FailEvents(role, base, n, k), n, base)
  {
    if k > 0 {
      FailEventsSleepShape(role, base, n, k - 1);
      var prev := FailEvents(role, base, n, k - 1);
      var w: seq<Event> := if k - 1 < n - 1 then [Sleep(Backoff(base, k - 1))] else [];
      var e := FailEvents(role, base, n, k);
      assert e == prev + [Call(role, k - 1)] + w;
      forall i | 0 <= i < |e| && e[i].Sleep?
        ensures i > 0 && e[i - 1].Call? && e[i - 1].attempt < n - 1 && e[i].seconds == Backoff(base, e[i - 1].attempt)
      {
        if i < |prev| {
          assert e[i] == prev[i] && e[i - 1] == prev[i - 1];
        } else {
          assert i == |prev| + 1 && e[i - 1] == Call(role, k - 1);
        }
      }
    }
  }

  /** Every call below the last allowed attempt `n - 1` that something follows is followed by its backoff wait. */
  predicate WaitsAfterCalls(e: seq<Event>, n: nat, base: int)
  {
    forall i :: 0 <= i < |e| - 1 && e[i].Call? && e[i].attempt < n - 1 ==> e[i + 1] == Sleep(Backoff(base, e[i].attempt))
  }

  /** Every failed call but the last allowed attempt is directly followed by its backoff wait. */
  lemma {:induction false} FailEventsWaits(role: Role, base: int, n: nat, k: nat)
    requires k <= n
    ensures WaitsAfterCalls(FailEvents(role, base, n, k), n, base)
  {
    if k > 0 {
      FailEventsWaits(role, base, n, k - 1);
      FailEventsCallShape(role, base, n, k - 1);
      var prev := FailEvents(role, base, n, k - 1);
      var w: seq<Event> := if k - 1 < n - 1 then [Sleep(Backoff(base, k - 1))] else [];
      var e := FailEvents(role, base, n, k);
      assert e == prev + [Call(role, k - 1)] + w;
      forall i | 0 <= i < |e| - 1 && e[i].Call? && e[i].attempt < n - 1
        ensures e[i + 1] == Sleep(Backoff(base, e[i].attempt))
      {
        if i < |prev| - 1 {
          assert e[i] == prev[i] && e[i + 1] == prev[i + 1];
        } else if i != |prev| - 1 {
          assert e[i] == Call(role, k - 1);
        }
      }
    }
  }


  /** Two runs of events joined: no wait can open the second, so the waits stay after their calls. */
  lemma WaitsAppend(a: seq<Event>, b: seq<Event>, n: nat, base: int)
    requires WaitsFollowCalls(a, n, base) && WaitsFollowCalls(b, n, base) && WaitsAfterCalls(a, n, base) && WaitsAfterCalls(b, n, base)
    requires a != [] && a[|a| - 1].Call? ==> a[|a| - 1].attempt >= n - 1
    ensures WaitsFollowCalls(a + b, n, base) && WaitsAfterCalls(a + b, n, base)
  {
    var e := a + b;
    forall i | 0 <= i < |e| && e[i].Sleep?
      ensures i > 0 && e[i - 1].Call? && e[i - 1].attempt < n - 1 && e[i].seconds == Backoff(base, e[i - 1].attempt)
    {
      if i < |a| {
        assert e[i] == a[i] && e[i - 1] == a[i - 1];
      } else {
        assert e[i] == b[i - |a|];
        assert e[i - 1] == b[i - |a| - 1];
      }
    }
    forall i | 0 <= i < |e| - 1 && e[i].Call? && e[i].attempt < n - 1
      ensures e[i + 1] == Sleep(Backoff(base, e[i].attempt))
    {
      if i < |a| - 1 {
        assert e[i] == a[i] && e[i + 1] == a[i + 1];
      } else if i >= |a| {
        assert e[i] == b[i - |a|] && e[i + 1] == b[i + 1 - |a|];
      }
    }
  }

  /** No wait of the events is negative. */
  predicate WaitsNonNegative(e: seq<Event>)
  {
    forall i :: 0 <= i < |e| && e[i].Sleep? ==> e[i].seconds >= 0
  }

  /** One provider's events keep each wait right after its failed call; a phase that neither answers nor raises ends with its last allowed call. */
  lemma PhaseWaits(role: Role, present: bool, tries: Tries, n: nat, base: int)
    ensures var p := TryProvider(role, present, tries, n, base);
      WaitsFollowCalls(p.events, n, base) && WaitsAfterCalls(p.events, n, base)
      && (p.answer.None? && !p.sleepRaised && p.events != [] ==> p.events[|p.events| - 1] == Call(role, n - 1))
  {
    if present && !(tries(0).None? && FirstWaitRaises(n, base)) {
      match FirstAnswer(tries, n)
      case Some(k) =>
        FailEventsSleepShape(role, base, n, k);
        FailEventsWaits(role, base, n, k);
        FailEventsCallShape(role, base, n, k);
        WaitsAppend(FailEvents(role, base, n, k), [Call(role, k)], n, base);
      case None =>
        FailEventsSleepShape(role, base, n, n);
        FailEventsWaits(role, base, n, n);
        FailEventsCallShape(role, base, n, n);
    }
  }

  /**
   * Every wait a provider's events record was taken, so none is negative: with a negative base
   * the first failure before the last attempt raises instead of waiting.
   */
  lemma PhaseWaitsNonNegative(role: Role, present: bool, tries: Tries, n: nat, base: int)
    ensures WaitsNonNegative(TryProvider(role, present, tries, n, base).events)
  {
    PhaseWaits(role, present, tries, n, base);
    var e := TryProvider(role, present, tries, n, base).events;
    if base < 0 && n >= 2 && present && tries(0).Some? {
      FirstAnswerAt(tries, n, 0);
      assert e == [Call(role, 0)];
    }
    forall i | 0 <= i < |e| && e[i].Sleep?
      ensures e[i].seconds >= 0
    {
      assert e[i].seconds == Backoff(base, e[i - 1].attempt);
    }
  }

  /**
   * Over a whole `generate`, primary then fallback: every wait directly follows a failed call
   * below the last allowed attempt and lasts its backoff, every such call that is not the last
   * event is followed by its wait, and no recorded wait is negative (a negative one raises).
   */
  lemma RouteWaits(hasPrimary: bool, hasFallback: bool, primaryTry: Tries, fallbackTry: Tries, maxRetries: int, base: int)
    ensures var e := Route(hasPrimary, hasFallback, primaryTry, fallbackTry, maxRetries, base).events;
      WaitsFollowCalls(e, Attempts(maxRetries), base) && WaitsAfterCalls(e, Attempts(maxRetries), base) && WaitsNonNegative(e)
  {
    var n := Attempts(maxRetries);
    PhaseWaits(Primary, hasPrimary, primaryTry, n, base);
    PhaseWaits(Fallback, hasFallback, fallbackTry, n, base);
    PhaseWaitsNonNegative(Primary, hasPrimary, primaryTry, n, base);
    PhaseWaitsNonNegative(Fallback, hasFallback, fallbackTry, n, base);
    var p := TryProvider(Primary, hasPrimary, primaryTry, n, base);
    if p.answer.None? && !p.sleepRaised {
      var f := TryProvider(Fallback, hasFallback, fallbackTry, n, base);
      WaitsAppend(p.events, f.events, n, base);
      var e := p.events + f.events;
      forall i | 0 <= i < |e| && e[i].Sleep?
        ensures e[i].seconds >= 0
      {
        if i < |p.events| {
          assert e[i] == p.events[i];
        } else {
          assert e[i] == f.events[i - |p.events|];
        }
      }
    }
  }

  /**
   * A provider that answers first at attempt `k` stops there, unless an earlier failure's wait
   * is negative: then the first wait raises.
   */
  lemma PhaseAnswered(role: Role, tries: Tries, n: nat, base: int, k: nat)
    requires k < n && tries(k).Some?
    requires forall a :: 0 <= a < k ==> tries(a).None?
    ensures TryProvider(role, true, tries, n, base) ==
      if k > 0 && base < 0 then Phase(None, 0, 1, [Call(role, 0)], true)
      else Phase(tries(k), 1, k, FailEvents(role, base, n, k) + [Call(role, k)], false)
  {
    FirstAnswerAt(tries, n, k);
  }

  /**
   * A provider that answers none of its attempts uses them all, unless a retry is left and the
   * base is negative: then the wait after the first failure raises.
   */
  lemma PhaseExhausted(role: Role, tries: Tries, n: nat, base: int)
    requires forall a :: 0 <= a < n ==> tries(a).None?
    ensures TryProvider(role, true, tries, n, base) ==
      if n >= 2 && base < 0 then Phase(None, 0, 1, [Call(role, 0)], true)
      else Phase(None, 0, n, FailEvents(role, base, n, n), false)
  {
    NoFirstAnswer(tries, n);
  }

  /** The counters after one attempt of `role` that succeeded or failed. */
  function Counted(s: Stats, role: Role, success: bool): Stats
  {
    match (role, success)
    case (Primary, true) => s.(primarySuccess := s.primarySuccess + 1)
    case (Primary, false) => s.(primaryFail := s.primaryFail + 1)
    case (Fallback, true) => s.(fallbackSuccess := s.fallbackSuccess + 1)
    case (Fallback, false) => s.(fallbackFail := s.fallbackFail + 1)
  }

  /** The increments a phase of `role` makes. */
  function PhaseDelta(role: Role, p: Phase): Stats
  {
    if role == Primary then Stats(p.successes, p.failures, 0, 0) else Stats(0, 0, p.successes, p.failures)
  }

  /** The router: which providers it holds, its retry settings and its counters. */
  class LLMRouter {
    /** The provider names; None when the provider is absent. */
    const primary: Option<string>
    const fallback: Option<string>
    const maxRetries: int
    const retryDelayBase: int
    var stats: Stats

    constructor (primary: Option<string>, fallback: Option<string>, maxRetries: int, retryDelayBase: int)
      ensures this.primary == primary && this.fallback == fallback
      ensures this.maxRetries == maxRetries && this.retryDelayBase == retryDelayBase
      ensures stats == Stats(0, 0, 0, 0)
    {
      this.primary := primary;
      this.fallback := fallback;
      this.maxRetries := maxRetries;
      this.retryDelayBase := retryDelayBase;
      stats := Stats(0, 0, 0, 0);
    }

    /** One provider's retry loop (`for attempt in range(self.max_retries)`), counting as it goes. */
    method RunProvider(role: Role, present: bool, tries: Tries) returns (p: Phase)
      modifies this
      ensures p == TryProvider(role, present, tries, Attempts(maxRetries), retryDelayBase)
      ensures stats == AddStats(old(stats), PhaseDelta(role, p))
    {
      var n := Attempts(maxRetries);
      var events := [];
      if present {
        var attempt := 0;
        while attempt < n
          invariant 0 <= attempt <= n
          invariant forall a :: 0 <= a < attempt ==> tries(a).None?
          invariant stats == AddStats(old(stats), PhaseDelta(role, Phase(None, 0, attempt, [], false)))
          invariant events == FailEvents(role, retryDelayBase, n, attempt)
          invariant 0 < attempt && n >= 2 ==> retryDelayBase >= 0
        {
          var result := tries(attempt);
          events := events + [Call(role, attempt)];
          if result.Some? {
            stats := Counted(stats, role, true);
            PhaseAnswered(role, tries, n, retryDelayBase, attempt);
            return Phase(result, 1, attempt, events, false);
          }
          var wait := Backoff(retryDelayBase, attempt);
          stats := Counted(stats, role, false);
          if attempt < maxRetries - 1 {
            if wait < 0 {
              // `time.sleep` rejects a negative duration with ValueError, which leaves `generate`
              assert attempt == 0 && FirstWaitRaises(n, retryDelayBase);
              return Phase(None, 0, 1, events, true);
            }
            events := events + [Sleep(wait)];
          }
          attempt := attempt + 1;
        }
        PhaseExhausted(role, tries, n, retryDelayBase);
      }
      p := Phase(None, 0, if present then n else 0, events, false);
    }

    /**
     * `generate`: the primary's retries, then the fallback's. `sleepRaised` is the ValueError of a
     * negative wait; otherwise `r` is None where the source raises RuntimeError.
     */
    method Generate(primaryTry: Tries, fallbackTry: Tries) returns (r: Option<Json>, events: seq<Event>, sleepRaised: bool)
      modifies this
      ensures var o := Route(primary.Some?, fallback.Some?, primaryTry, fallbackTry, maxRetries, retryDelayBase);
        r == o.answer && events == o.events && sleepRaised == o.sleepRaised && stats == AddStats(old(stats), o.delta)
    {
      var p := RunProvider(Primary, primary.Some?, primaryTry);
      if p.answer.Some? || p.sleepRaised {
        return p.answer, p.events, p.sleepRaised;
      }
      var f := RunProvider(Fallback, fallback.Some?, fallbackTry);
      r, events, sleepRaised := f.answer, p.events + f.events, f.sleepRaised;
    }

    /** `get_stats`: a copy of the counters, which the caller cannot use to change them. */
    method GetStats() returns (s: Stats)
      ensures s == stats
    {
      s := stats;
    }
  }

  // ---------------------------------------------------------------------------
  // create_llm_router

  /** The keys of the router `config` dict; None when missing. */
  datatype RouterConfig = RouterConfig(
    primary: Option<string>, fallback: Option<string>, retryCount: Option<int>, retryDelayBase: Option<int>)

  /**
   * The client built for a provider type: only "gemini" and "openai" have clients, and
   * `constructs(t)` says whether its constructor succeeds (it raises ValueError without an
   * API key, ImportError without the SDK).
   */
  function Client(t: string, constructs: string -> bool): (c: Option<string>)
    ensures c.Some? <==> (t == "gemini" || t == "openai") && constructs(t)
    ensures c.Some? ==> c.value == t
  {
    if (t == "gemini" || t == "openai") && constructs(t) then Some(t) else None
  }

  /** The provider types: the config key, else the environment variable, else "gemini" / "openai". */
  function PrimaryType(config: RouterConfig, env: Option<string>): string
  {
    OrElse(config.primary, OrElse(env, "gemini"))
  }

  function FallbackType(config: RouterConfig, env: Option<string>): string
  {
    OrElse(config.fallback, OrElse(env, "openai"))
  }

  /** `create_llm_router`: the router whose providers are the clients that could be built. */
  method CreateLlmRouter(config: RouterConfig, envPrimary: Option<string>, envFallback: Option<string>, constructs: string -> bool)
    returns (router: LLMRouter)
    ensures fresh(router)
    ensures router.primary == Client(PrimaryType(config, envPrimary), constructs)
    ensures router.fallback == Client(FallbackType(config, envFallback), constructs)
    ensures router.maxRetries == OrElse(config.retryCount, 3)
    ensures router.retryDelayBase == OrElse(config.retryDelayBase, 1)
    ensures router.stats == Stats(0, 0, 0, 0)
  {
    var primaryType := PrimaryType(config, envPrimary);
    var fallbackType := FallbackType(config, envFallback);
    router := new LLMRouter(Client(primaryType, constructs), Client(fallbackType, constructs),
      OrElse(config.retryCount, 3), OrElse(config.retryDelayBase, 1));
  }

  /** With the defaults and both constructors succeeding, Gemini is the primary and OpenAI the fallback; with none, the router has no provider. */
  lemma DefaultProviders(constructs: string -> bool)
    ensures var c := RouterConfig(None, None, None, None);
      && (constructs("gemini") ==> Client(PrimaryType(c, None), constructs) == Some("gemini"))
      && (constructs("openai") ==> Client(FallbackType(c, None), constructs) == Some("openai"))
      && (!constructs("gemini") && !constructs("openai") ==>
            Client(PrimaryType(c, None), constructs).None? && Client(FallbackType(c, None), constructs).None?)
  {
  }

  // ---------------------------------------------------------------------------
  // Prompts

  /** `build_articles_block`'s block for the `i`-th article (numbered from 1). */
  function ArticleBlock(i: nat, a: Article, maxChars: nat): string
  {
    BlockNumber(i) + BlockMeta(a) + Take(OrElse(a.content, ""), maxChars) + "\n"
  }

  /** The numbered heading line of an article's block. */
  function BlockNumber(i: nat): string
  {
    "--- 기사 " + NatToString(i) + " ---\n"
  }

  /** The title and press lines of an article's block, and the content label. */
  function BlockMeta(a: Article): string
  {
    "[제목] " + OrElse(a.title, "") + "\n[출처] " + OrElse(a.press, "알 수 없음") + "\n[내용]\n"
  }

  function Blocks(cluster: seq<Article>, maxChars: nat): (r: seq<string>)
    ensures |r| == |cluster|
    ensures forall i :: 0 <= i < |cluster| ==> r[i] == ArticleBlock(i + 1, cluster[i], maxChars)
  {
    seq(|cluster|, i requires 0 <= i < |cluster| => ArticleBlock(i + 1, cluster[i], maxChars))
  }

  /** `build_articles_block(cluster, max_chars_per_article)`. */
  function BuildArticlesBlock(cluster: seq<Article>, maxChars: nat): string
  {
    Join(Blocks(cluster, maxChars), "\n")
  }

  /** An article's block opens with its number and carries at most `maxChars` characters of its content. */
  lemma ArticleBlockParts(n: nat, a: Article, maxChars: nat)
    ensures var b := ArticleBlock(n, a, maxChars);
      && BlockNumber(n) <= b
      && Contains(b, Take(OrElse(a.content, ""), maxChars))
  {
    var num := BlockNumber(n);
    var meta := BlockMeta(a);
    var body := Take(OrElse(a.content, ""), maxChars);
    assert ArticleBlock(n, a, maxChars) == num + (meta + (body + "\n"));
    assert body <= body + "\n";
    ContainsSuffix(num + meta, body + "\n", body);
    assert (num + meta) + (body + "\n") == num + (meta + (body + "\n"));
  }

  /** The block holds one part per article, numbered from 1, carrying at most `maxChars` characters of its content. */
  lemma ArticlesBlockParts(cluster: seq<Article>, maxChars: nat, i: nat)
    requires i < |cluster|
    ensures var b := Blocks(cluster, maxChars)[i];
      && Contains(BuildArticlesBlock(cluster, maxChars), b)
      && BlockNumber(i + 1) <= b
      && Contains(b, Take(OrElse(cluster[i].content, ""), maxChars))
      && |Take(OrElse(cluster[i].content, ""), maxChars)| <= maxChars
  {
    JoinContains(Blocks(cluster, maxChars), "\n", i);
    ArticleBlockParts(i + 1, cluster[i], maxChars);
  }

  /** The data the prompt templates are filled with (the templates themselves are files). */
  datatype Prompt =
    | Single(category: string, title: string, press: string, content: string)
    | Merge(articleCount: nat, category: string, articlesBlock: string)

  /** `reconstruct_cluster`'s user prompt: the single-article template for one article, the merge template otherwise. */
  function UserPrompt(cluster: seq<Article>, category: string): (p: Prompt)
    requires cluster != []
  {
    if |cluster| == 1 then
      var a := cluster[0];
      Single(category, OrElse(a.title, ""), OrElse(a.press, "알 수 없음"), Take(OrElse(a.content, ""), 2000))
    else Merge(|cluster|, category, BuildArticlesBlock(cluster, 1500))
  }

  /** A lone article is sent with at most 2000 characters of its content; a larger cluster as one numbered block of its articles. */
  lemma UserPromptShape(cluster: seq<Article>, category: string)
    requires cluster != []
    ensures var p := UserPrompt(cluster, category);
      && (p.Single? <==> |cluster| == 1)
      && (p.Single? ==> p.category == category && |p.content| <= 2000 && p.content <= OrElse(cluster[0].content, ""))
      && (p.Merge? ==> p.category == category && p.articleCount == |cluster| && p.articlesBlock == BuildArticlesBlock(cluster, 1500))
  {
  }

  // ---------------------------------------------------------------------------
  // Required fields and their defaults

  const RequiredFields: seq<Key> := [Title, Summary, BulletSummary, Content, Hashtags]

  const DefaultPersonaMap: map<string, string> := map[
    "Tech" := "민준", "AI" := "현우", "Dev" := "수진", "Product" := "도윤", "Security" := "지은"]

  /** `persona_map.get(category, "민준")`. */
  function PersonaFor(personaMap: map<string, string>, category: string): string
  {
    if category in personaMap then personaMap[category] else "민준"
  }

  /** `representative.get("matched_keywords", [])[:5] or [placeholder]`. */
  function HashtagsOf(a: Article, placeholder: string): (r: seq<string>)
    ensures 1 <= |r| <= 5
    ensures var l := OrElse(a.matchedKeywords, []);
      && (l == [] ==> r == [placeholder])
      && (l != [] ==> r <= l && |r| == if |l| <= 5 then |l| else 5)
  {
    var kws := Take(OrElse(a.matchedKeywords, []), 5);
    if kws == [] then [placeholder] else kws
  }

  /** The highest-scoring article (`max(cluster, key=trend_score)`, the first of equals). */
  function Representative(cluster: seq<Article>): (a: Article)
    requires cluster != []
    ensures a in cluster
    ensures forall b :: b in cluster ==> Clusterer.Score(b) <= Clusterer.Score(a)
  {
    cluster[Clusterer.RepIndex(cluster)]
  }

  /** `_get_default_value(field, cluster)`. */
  function Default(field: Key, cluster: seq<Article>): (v: Value)
    requires cluster != []
    ensures field == Title ==> v.Str? && |v.s| <= 30
    ensures field == Summary ==> v.Str? && |v.s| <= 200
    ensures field == Content ==> v.Str? && |v.s| <= 600
    ensures field == BulletSummary ==> v.Strs? && |v.items| == 3
    ensures field == Hashtags ==> v.Strs? && 1 <= |v.items| <= 5
  {
    var rep := Representative(cluster);
    if field == Title then Str(Take(OrElse(rep.title, "제목 없음"), 30))
    else if field == Summary then Str(Take(OrElse(rep.content, ""), 200))
    else if field == BulletSummary then Strs(["요약 정보 1", "요약 정보 2", "요약 정보 3"])
    else if field == Content then Str(Take(OrElse(rep.content, ""), 600))
    else if field == Hashtags then Strs(HashtagsOf(rep, "뉴스"))
    else Str("")
  }

  /** The result of the backfill loop: the missing required fields get their defaults, nothing else changes. */
  function Backfilled(result: Record, cluster: seq<Article>): (r: Record)
    requires cluster != []
    ensures r.Keys == result.Keys + set f | f in RequiredFields
    ensures forall k :: k in result ==> r[k] == result[k]
    ensures forall f :: f in RequiredFields && f !in result ==> r[f] == Default(f, cluster)
  {
    map k | k in result.Keys + (set f | f in RequiredFields) :: if k in result then result[k] else Default(k, cluster)
  }

  /** The backfill loop of `reconstruct_cluster` over the required fields. */
  method Backfill(result: Record, cluster: seq<Article>) returns (r: Record)
    requires cluster != []
    ensures r == Backfilled(result, cluster)
  {
    r := result;
    var i := 0;
    while i < |RequiredFields|
      invariant 0 <= i <= |RequiredFields|
      invariant forall k :: k in r <==> k in result || k in RequiredFields[..i]
      invariant forall k :: k in result ==> r[k] == result[k]
      invariant forall f :: f in RequiredFields[..i] && f !in result ==> r[f] == Default(f, cluster)
    {
      var field := RequiredFields[i];
      if field !in r {
        r := r[field := Default(field, cluster)];
      }
      i := i + 1;
    }
    assert RequiredFields[..i] == RequiredFields;
  }

  /** A router answer completed by `reconstruct_cluster`: backfilled, then given a persona if it has none. */
  function Completed(answer: Record, cluster: seq<Article>, category: string, personaMap: map<string, string>): Record
    requires cluster != []
  {
    var r := Backfilled(answer, cluster);
    if Persona in r then r else r[Persona := Str(PersonaFor(personaMap, category))]
  }

  // ---------------------------------------------------------------------------
  // _fallback_reconstruct

  /** The parts of `content` kept as sentences: those that are not blank once stripped. */
  predicate StripsToText(s: string)
  {
    Strip(s) != []
  }

  /** `[s.strip() for s in content.replace('.\n', '. ').split('.') if s.strip()]`. */
  function Sentences(content: string): seq<string>
  {
    Collect(SplitOn(ReplaceAll(content, ".\n", ". "), '.'), StripsToText, Strip)
  }

  lemma StripKeeps(s: string, c: char)
    requires c !in s
    ensures c !in Strip(s)
  {
    var l := LStrip(s);
    LStripShape(s);
    RStripShape(l);
    assert l == s[|s| - |l|..];
    assert RStrip(l) <= l;
  }

  /** Parts that are non-empty, free of `c`, and have no surrounding whitespace. */
  predicate CleanParts(ss: seq<string>, c: char)
  {
    forall i :: 0 <= i < |ss| ==> ss[i] != [] && c !in ss[i] && !IsSpace(ss[i][0]) && !IsSpace(ss[i][|ss[i]| - 1])
  }

  /** Stripping parts free of `c` and dropping the blank ones gives non-empty, stripped parts free of `c`. */
  lemma {:induction false} StrippedParts(parts: seq<string>, c: char)
    requires forall k :: 0 <= k < |parts| ==> c !in parts[k]
    ensures CleanParts(Collect(parts, StripsToText, Strip), c)
  {
    if parts != [] {
      var n := |parts| - 1;
      assert forall k :: 0 <= k < n ==> parts[..n][k] == parts[k];
      StrippedParts(parts[..n], c);
      StripKeeps(parts[n], c);
      StripShape(parts[n]);
      var t := Strip(parts[n]);
      assert Collect(parts, StripsToText, Strip) == Collect(parts[..n], StripsToText, Strip) + (if t != [] then [t] else []);
      CleanSnoc(Collect(parts[..n], StripsToText, Strip), t, c);
    }
  }

  /** Appending a clean part (or nothing) keeps the parts clean. */
  lemma CleanSnoc(q: seq<string>, t: string, c: char)
    requires CleanParts(q, c)
    requires c !in t && (t == [] || (!IsSpace(t[0]) && !IsSpace(t[|t| - 1])))
    ensures CleanParts(q + (if t != [] then [t] else []), c)
  {
    var r := q + (if t != [] then [t] else []);
    forall i | 0 <= i < |r|
      ensures r[i] != [] && c !in r[i] && !IsSpace(r[i][0]) && !IsSpace(r[i][|r[i]| - 1])
    {
      if i < |q| {
        assert r[i] == q[i];
      } else {
        assert r[i] == t;
      }
    }
  }

  /** The kept parts of `text.split('.')` are non-empty, free of '.', and have no surrounding whitespace. */
  lemma SplitPartsShape(text: string)
    ensures CleanParts(Collect(SplitOn(text, '.'), StripsToText, Strip), '.')
  {
    var parts := SplitOn(text, '.');
    assert forall k :: 0 <= k < |parts| ==> '.' !in parts[k];
    StrippedParts(parts, '.');
  }

  /** Every sentence is non-empty, free of '.', and has no surrounding whitespace. */
  lemma SentencesShape(content: string)
    ensures CleanParts(Sentences(content), '.')
  {
    var text := ReplaceAll(content, ".\n", ". ");
    assert Sentences(content) == Collect(SplitOn(text, '.'), StripsToText, Strip);
    SplitPartsShape(text);
  }

  /** Python's `s[i][:40] if len(s) > i else placeholder`. */
  function Bullet(sentences: seq<string>, i: nat, placeholder: string): (b: string)
    ensures |sentences| > i ==> b == Take(sentences[i], 40) && |b| <= 40
    ensures |sentences| <= i ==> b == placeholder
  {
    if |sentences| > i then Take(sentences[i], 40) else placeholder
  }

  /** The fallback `bullet_summary`: always three entries, the first sentences cut to 40 characters, placeholders after them. */
  function FallbackBullets(ss: seq<string>): (r: seq<string>)
    ensures |r| == 3
  {
    [Bullet(ss, 0, "요약 생성 불가"), Bullet(ss, 1, "추가 정보 없음"), Bullet(ss, 2, "상세 내용은 원문 참조")]
  }

  lemma FallbackBulletsShape(ss: seq<string>)
    ensures var r := FallbackBullets(ss);
      && (forall i :: 0 <= i < 3 && i < |ss| ==> r[i] == Take(ss[i], 40) && |r[i]| <= 40)
      && (|ss| < 1 ==> r[0] == "요약 생성 불가")
      && (|ss| < 2 ==> r[1] == "추가 정보 없음")
      && (|ss| < 3 ==> r[2] == "상세 내용은 원문 참조")
  {
  }

  /** The fallback `summary`: the first two sentences joined and closed by '.', or the first 200 characters. */
  function FallbackSummary(content: string, ss: seq<string>): string
  {
    if |ss| >= 2 then Join(ss[..2], ". ") + "." else Take(content, 200)
  }

  /** The summary is the first two sentences as `"s0. s1."`, or at most the first 200 characters of the content. */
  lemma FallbackSummaryShape(content: string, ss: seq<string>)
    ensures |ss| >= 2 ==> FallbackSummary(content, ss) == ss[0] + ". " + ss[1] + "."
    ensures |ss| < 2 ==> FallbackSummary(content, ss) == Take(content, 200) && |FallbackSummary(content, ss)| <= 200
  {
    if |ss| >= 2 {
      assert ss[..2][1..] == [ss[1]];
    }
  }

  /** The fallback `content`: the first six sentences closed by '.', or the first 600 characters. */
  function FallbackContent(content: string, ss: seq<string>): string
  {
    if |ss| >= 6 then Join(ss[..6], ". ") + "." else Take(content, 600)
  }

  /** The content is the first six sentences joined and closed by '.', holding each of them, or at most the first 600 characters. */
  lemma FallbackContentShape(content: string, ss: seq<string>)
    ensures |ss| >= 6 ==> forall i :: 0 <= i < 6 ==> Contains(FallbackContent(content, ss), ss[i])
    ensures |ss| < 6 ==> FallbackContent(content, ss) == Take(content, 600) && |FallbackContent(content, ss)| <= 600
  {
    if |ss| >= 6 {
      var j := Join(ss[..6], ". ");
      forall i | 0 <= i < 6
        ensures Contains(FallbackContent(content, ss), ss[i])
      {
        JoinContains(ss[..6], ". ", i);
        ContainsPrefix(j, ".", ss[i]);
      }
    }
  }

  /** The dict `_fallback_reconstruct` returns, from its field values. */
  function FallbackRecord(title: string, summary: string, bullets: seq<string>, content: string, hashtags: seq<string>, persona: string): (r: Record)
    ensures forall f :: f in RequiredFields ==> f in r
    ensures r[Title] == Str(title) && r[Summary] == Str(summary) && r[BulletSummary] == Strs(bullets)
    ensures r[Content] == Str(content) && r[Hashtags] == Strs(hashtags)
    ensures Persona in r && IsFallback in r
    ensures r[Persona] == Str(persona) && r[IsFallback] == Flag(true)
  {
    map[
      Title := Str(title),
      Summary := Str(summary),
      BulletSummary := Strs(bullets),
      Content := Str(content),
      Hashtags := Strs(hashtags),
      Persona := Str(persona),
      IsFallback := Flag(true)]
  }

  /** `_fallback_reconstruct(cluster, category)`: a reconstruction built from the representative's content alone. */
  function FallbackArticle(cluster: seq<Article>, category: string, personaMap: map<string, string>): (r: Record)
    requires cluster != []
    ensures forall f :: f in RequiredFields ==> f in r
    ensures Persona in r && IsFallback in r
    ensures r[IsFallback] == Flag(true)
    ensures r[Persona] == Str(PersonaFor(personaMap, category))
    ensures r[Hashtags].Strs? && 1 <= |r[Hashtags].items| <= 5
    ensures r[BulletSummary].Strs? && |r[BulletSummary].items| == 3
  {
    var rep := Representative(cluster);
    var content := OrElse(rep.content, "");
    var ss := Sentences(content);
    FallbackRecord(Take(OrElse(rep.title, ""), 30), FallbackSummary(content, ss), FallbackBullets(ss),
      FallbackContent(content, ss), HashtagsOf(rep, "IT"), PersonaFor(personaMap, category))
  }

  // ---------------------------------------------------------------------------
  // AIRewriter

  /** The keys of the rewriter `config` dict; None when missing. */
  datatype RewriterConfig = RewriterConfig(requestInterval: Option<real>, personaMap: Option<map<string, string>>)

  /** What `reconstruct_cluster` returns for a non-empty cluster, given the router's answer. */
  function Reconstructed(cluster: seq<Article>, category: string, personaMap: map<string, string>, answer: Option<Record>): Record
    requires cluster != []
  {
    match answer
    case Some(a) => Completed(a, cluster, category, personaMap)
    case None => FallbackArticle(cluster, category, personaMap)
  }

  /** Every reconstruction holds the five required fields and a persona; a router answer keeps the keys it had, the fallback is flagged. */
  lemma ReconstructedFields(cluster: seq<Article>, category: string, personaMap: map<string, string>, answer: Option<Record>)
    requires cluster != []
    ensures var r := Reconstructed(cluster, category, personaMap, answer);
      && (forall f :: f in RequiredFields ==> f in r)
      && Persona in r
      && (answer.Some? ==> forall k :: k in answer.value ==> k in r && r[k] == answer.value[k])
      && (answer.Some? && Persona !in answer.value ==> r[Persona] == Str(PersonaFor(personaMap, category)))
      && (answer.None? ==> r == FallbackArticle(cluster, category, personaMap) && r[IsFallback] == Flag(true))
  {

  }

  /** The names `reconstruct_cluster` tests with `in`: the required fields, then the persona. */
  const CheckedKeys: seq<Key> := RequiredFields + [Persona]

  /** `name in answer` for a list (an element equal to it) or a string (a substring equal to it). */
  predicate Mentions(answer: Json, name: string)
    requires answer.Array? || answer.Text?
  {
    match answer
    case Array(strings) => name in strings
    case Text(t) => Contains(t, name)
  }

  /** What `reconstruct_cluster` does with a non-empty cluster, given what the router did. */
  datatype Reply =
    | Built(rec: Record)
      // it returns a dict: the completed object answer, or the fallback article when the router raised
    | PassedOn(answer: Json)
      // it returns a list or string answer unchanged, which happens when that answer mentions every checked name
    | TypeError
      // `in` on a scalar, or item assignment on a list or string missing a checked name, raises TypeError,
      // which `except RuntimeError` does not catch
    | ValueError
      // the router's `time.sleep` was given a negative wait; `except RuntimeError` does not catch it either

  function ClusterReply(cluster: seq<Article>, category: string, personaMap: map<string, string>, answer: Option<Json>, sleepRaised: bool): Reply
    requires cluster != []
  {
    if sleepRaised then ValueError
    else
    match answer
    case None => Built(Reconstructed(cluster, category, personaMap, None))
    case Some(Object(m)) => Built(Reconstructed(cluster, category, personaMap, Some(m)))
    case Some(Scalar) => TypeError
    case Some(a) => if forall k :: k in CheckedKeys ==> Mentions(a, KeyName(k)) then PassedOn(a) else TypeError
  }

  /**
   * `reconstruct_cluster` returns a dict exactly when the router raised RuntimeError or answered an
   * object; the router's ValueError passes through. Any other answer comes back unchanged or raises
   * TypeError, and an empty list or string always raises.
   */
  lemma ClusterReplyCases(cluster: seq<Article>, category: string, personaMap: map<string, string>, answer: Option<Json>, sleepRaised: bool)
    requires cluster != []
    ensures var r := ClusterReply(cluster, category, personaMap, answer, sleepRaised);
      && (r.Built? <==> !sleepRaised && (answer.None? || answer.value.Object?))
      && (r == ValueError <==> sleepRaised)
      && (r.PassedOn? ==> answer == Some(r.answer) && (r.answer.Array? || r.answer.Text?))
      && (!sleepRaised && (answer == Some(Scalar) || answer == Some(Array([])) || answer == Some(Text([]))) ==> r == TypeError)
  {
    if !sleepRaised && (answer == Some(Array([])) || answer == Some(Text([]))) {
      assert Title in CheckedKeys && KeyName(Title) == "title";
      assert !Mentions(answer.value, "title");
    }
  }

  /** The two checking loops of `reconstruct_cluster` on a list or string answer: does it mention every checked name? */
  method MentionsAll(a: Json) returns (mentioned: bool)
    requires a.Array? || a.Text?
    ensures mentioned <==> forall k :: k in CheckedKeys ==> Mentions(a, KeyName(k))
  {
    var i := 0;
    while i < |CheckedKeys|
      invariant 0 <= i <= |CheckedKeys|
      invariant forall j :: 0 <= j < i ==> Mentions(a, KeyName(CheckedKeys[j]))
    {
      if !Mentions(a, KeyName(CheckedKeys[i])) {
        return false;
      }
      i := i + 1;
    }
    return true;
  }

  // ---------------------------------------------------------------------------
  // reconstruct_all

  /** One unit of work of the driver: a category, one of its clusters, and the cluster's position in the run. */
  datatype Job = Job(category: string, cluster: seq<Article>, position: nat)

  /** `clustered_data.items()` in dict order, as the list of jobs the nested loops visit. */
  function Jobs(data: seq<(string, seq<seq<Article>>)>): (r: seq<Job>)
  {
    if data == [] then []
    else
      var (category, clusters) := data[|data| - 1];
      var before := TotalClusters(data[..|data| - 1]);
      Jobs(data[..|data| - 1]) + seq(|clusters|, j requires 0 <= j < |clusters| => Job(category, clusters[j], before + j))
  }

  /** `sum(len(clusters) for clusters in clustered_data.values())`. */
  function TotalClusters(data: seq<(string, seq<seq<Article>>)>): nat
  {
    if data == [] then 0 else TotalClusters(data[..|data| - 1]) + |data[|data| - 1].1|
  }

  lemma {:induction false} JobsLength(data: seq<(string, seq<seq<Article>>)>)
    ensures |Jobs(data)| == TotalClusters(data)
  {
    if data != [] {
      JobsLength(data[..|data| - 1]);
    }
  }

  /** Cluster `j` of category `i` is the job after all the clusters of the earlier categories. */
  lemma {:induction false} JobAt(data: seq<(string, seq<seq<Article>>)>, i: nat, j: nat)
    requires i < |data| && j < |data[i].1|
    ensures TotalClusters(data[..i]) + j < |Jobs(data)|
    ensures Jobs(data)[TotalClusters(data[..i]) + j] == Job(data[i].0, data[i].1[j], TotalClusters(data[..i]) + j)
  {
    var p := data[..|data| - 1];
    var last := data[|data| - 1];
    var tail := seq(|last.1|, k requires 0 <= k < |last.1| => Job(last.0, last.1[k], TotalClusters(p) + k));
    JobsLength(p);
    JobsLength(data);
    assert Jobs(data) == Jobs(p) + tail;
    if i < |data| - 1 {
      JobAt(p, i, j);
      assert data[..i] == p[..i];
      assert data[i] == p[i];
    } else {
      assert data[..i] == p;
      assert Jobs(data)[|Jobs(p)| + j] == tail[j];
    }
  }

  lemma JobsStep(data: seq<(string, seq<seq<Article>>)>, i: nat)
    requires i < |data|
    ensures Jobs(data[..i + 1]) == Jobs(data[..i]) + seq(|data[i].1|, j requires 0 <= j < |data[i].1| => Job(data[i].0, data[i].1[j], TotalClusters(data[..i]) + j))
    ensures TotalClusters(data[..i + 1]) == TotalClusters(data[..i]) + |data[i].1|
  {
    assert data[..i + 1][..i] == data[..i];
  }

  /** The clusters of a prefix of the categories are at most all of them. */
  lemma {:induction false} TotalClustersPrefix(data: seq<(string, seq<seq<Article>>)>, i: nat)
    requires i <= |data|
    ensures TotalClusters(data[..i]) <= TotalClusters(data)
    decreases |data| - i
  {
    if i < |data| {
      TotalClustersPrefix(data, i + 1);
      JobsStep(data, i);
    } else {
      assert data[..i] == data;
    }
  }

  /** What the driver does that can be observed besides calling the router: the progress of each cluster and the rate-limit waits. */
  datatype Step = Rebuild(processed: nat) | Pause(seconds: real)

  /** The steps of the first `k` of `total` clusters: a pause follows every cluster but the last. */
  function PaceTrace(k: nat, interval: real, total: nat): seq<Step>
  {
    if k == 0 then [] else PaceTrace(k - 1, interval, total) + [Rebuild(k)] + (if k < total then [Pause(interval)] else [])
  }

  /** The driver alternates clusters and pauses, starting with the first cluster and ending with the last. */
  lemma {:induction false} PaceTraceShape(k: nat, interval: real, total: nat)
    requires k <= total
    ensures var t := PaceTrace(k, interval, total);
      && |t| == (if k == total && k > 0 then 2 * k - 1 else 2 * k)
      && (forall i :: 0 <= i < |t| && i % 2 == 0 ==> t[i] == Rebuild(i / 2 + 1))
      && (forall i :: 0 <= i < |t| && i % 2 == 1 ==> t[i] == Pause(interval))
      && (k == total && k > 0 ==> t[|t| - 1] == Rebuild(total))
  {
    if k > 0 {
      PaceTraceShape(k - 1, interval, total);
      var p := PaceTrace(k - 1, interval, total);
      var t := PaceTrace(k, interval, total);
      assert |p| == 2 * (k - 1);
      forall i | 0 <= i < |t| && i % 2 == 0 ensures t[i] == Rebuild(i / 2 + 1) {
        if i < |p| {
          assert t[i] == p[i];
        } else {
          assert i == 2 * (k - 1);
        }
      }
      forall i | 0 <= i < |t| && i % 2 == 1 ensures t[i] == Pause(interval) {
        if i < |p| {
          assert t[i] == p[i];
        } else {
          assert i == 2 * k - 1;
        }
      }
    }
  }

  /**
   * Whether the rate-limit wait after cluster `k` (counting from 0) of `total` raises ValueError:
   * there is such a wait unless the cluster was the last, and `time.sleep` rejects a negative interval.
   */
  predicate PauseRaises(k: nat, interval: real, total: nat)
  {
    k + 1 < total && interval < 0.0
  }

  /**
   * The progress step of cluster `processed`, then the rate-limit wait unless it was the last;
   * `raised` when that wait is negative, which `time.sleep` refuses, so no pause is taken.
   */
  method Pace(steps: seq<Step>, processed: nat, interval: real, total: nat) returns (steps': seq<Step>, raised: bool)
    requires processed >= 1 && steps == PaceTrace(processed - 1, interval, total)
    ensures raised == PauseRaises(processed - 1, interval, total)
    ensures steps' == if raised then PaceTrace(processed - 1, interval, total) + [Rebuild(processed)] else PaceTrace(processed, interval, total)
  {
    steps' := steps + [Rebuild(processed)];
    raised := false;
    if processed < total {
      if interval < 0.0 {
        raised := true;
        return;
      }
      steps' := steps' + [Pause(interval)];
    }
  }

  /** The keys `reconstruct_all` adds to a result. */
  function Annotated(job: Job, r: Record): (a: Record)
    ensures a.Keys == r.Keys + {Category, SourceCount, SourceLinks, SourceArticles}
    ensures a[Category] == Str(job.category) && a[SourceCount] == Count(|job.cluster|)
    ensures a[SourceLinks].Strs? && |a[SourceLinks].items| == |job.cluster|
    ensures forall i :: 0 <= i < |job.cluster| ==> a[SourceLinks].items[i] == OrElse(job.cluster[i].link, "")
    ensures a[SourceArticles] == Sources(job.cluster)
    ensures forall k :: k in r && k !in {Category, SourceCount, SourceLinks, SourceArticles} ==> a[k] == r[k]
  {
    r[Category := Str(job.category)]
     [SourceCount := Count(|job.cluster|)]
     [SourceLinks := Strs(seq(|job.cluster|, i requires 0 <= i < |job.cluster| => OrElse(job.cluster[i].link, "")))]
     [SourceArticles := Sources(job.cluster)]
  }

  predicate HasArticles(job: Job)
  {
    job.cluster != []
  }

  /** The sum of the counter increments `d` assigns to the given jobs. */
  function SumStats(jobs: seq<Job>, d: Job -> Stats): Stats
  {
    if jobs == [] then Stats(0, 0, 0, 0) else AddStats(SumStats(jobs[..|jobs| - 1], d), d(jobs[|jobs| - 1]))
  }

  lemma SumStatsStep(jobs: seq<Job>, k: nat, d: Job -> Stats)
    requires k < |jobs|
    ensures SumStats(jobs[..k + 1], d) == AddStats(SumStats(jobs[..k], d), d(jobs[k]))
  {
    assert jobs[..k + 1][..k] == jobs[..k];
  }

  /** A provider's answers to the attempts of one call, given the call's prompt. */
  type CallOracle = Prompt -> Tries

  /**
   * A provider over a whole run: its answers to the attempts of the call made for the run's
   * `n`-th cluster with a given prompt, so equal prompts need not get equal answers.
   */
  type Provider = (nat, Prompt) -> Tries

  /** The answers a provider gives to the call for the run's `n`-th cluster. */
  function AtCall(provider: Provider, n: nat): CallOracle
  {
    prompt => provider(n, prompt)
  }

  class AIRewriter {
    const llm: LLMRouter
    const requestInterval: real
    const personaMap: map<string, string>

    constructor (llm: LLMRouter, config: RewriterConfig)
      ensures this.llm == llm
      ensures requestInterval == OrElse(config.requestInterval, 0.5)
      ensures personaMap == OrElse(config.personaMap, DefaultPersonaMap)
    {
      this.llm := llm;
      requestInterval := OrElse(config.requestInterval, 0.5);
      personaMap := OrElse(config.personaMap, DefaultPersonaMap);
    }

    /** The outcome of routing the cluster's prompt. */
    function RouteFor(cluster: seq<Article>, category: string, primaryTry: CallOracle, fallbackTry: CallOracle): Outcome
      requires cluster != []
    {
      var prompt := UserPrompt(cluster, category);
      Route(llm.primary.Some?, llm.fallback.Some?, primaryTry(prompt), fallbackTry(prompt), llm.maxRetries, llm.retryDelayBase)
    }

    /**
     * `reconstruct_cluster(cluster, category)`: None for an empty cluster, else the reply to the
     * router's answer: the completed object or the fallback article, a list or string passed on,
     * TypeError, or the router's ValueError passed through.
     */
    method ReconstructCluster(cluster: seq<Article>, category: string, primaryTry: CallOracle, fallbackTry: CallOracle)
      returns (r: Option<Reply>, events: seq<Event>)
      modifies llm
      ensures cluster == [] ==> r.None? && events == [] && llm.stats == old(llm.stats)
      ensures cluster != [] ==>
        var o := RouteFor(cluster, category, primaryTry, fallbackTry);
        && r == Some(ClusterReply(cluster, category, personaMap, o.answer, o.sleepRaised))
        && events == o.events && llm.stats == AddStats(old(llm.stats), o.delta)
    {
      if cluster == [] {
        return None, [];
      }
      var prompt := UserPrompt(cluster, category);
      var result, sleepRaised;
      result, events, sleepRaised := llm.Generate(primaryTry(prompt), fallbackTry(prompt));
      if sleepRaised {
        return Some(ValueError), events;
      }
      match result {
        case None =>
          r := Some(Built(FallbackArticle(cluster, category, personaMap)));
        case Some(Object(m)) =>
          var completed := Backfill(m, cluster);
          if Persona !in completed {
            completed := completed[Persona := Str(PersonaFor(personaMap, category))];
          }
          r := Some(Built(completed));
        case Some(Scalar) =>
          r := Some(TypeError);
        case Some(a) =>
          var mentioned := MentionsAll(a);
          r := Some(if mentioned then PassedOn(a) else TypeError);
      }
    }

    /** What routing a job's non-empty cluster gives. */
    function OutcomeOf(job: Job, primaryTry: Provider, fallbackTry: Provider): Outcome
      requires job.cluster != []
    {
      RouteFor(job.cluster, job.category, AtCall(primaryTry, job.position), AtCall(fallbackTry, job.position))
    }

    /** The reply `reconstruct_cluster` gives a job's non-empty cluster. */
    function ReplyOf(job: Job, primaryTry: Provider, fallbackTry: Provider): Reply
      requires job.cluster != []
    {
      var o := OutcomeOf(job, primaryTry, fallbackTry);
      ClusterReply(job.cluster, job.category, personaMap, o.answer, o.sleepRaised)
    }

    /** A job whose cluster has articles and whose routing raised ValueError or answered no JSON object. */
    predicate Aborts(job: Job, primaryTry: Provider, fallbackTry: Provider)
    {
      && job.cluster != []
      && var o := OutcomeOf(job, primaryTry, fallbackTry);
        o.sleepRaised || (o.answer.Some? && !o.answer.value.Object?)
    }

    /**
     * A cluster with articles ends the run exactly when its reply is no dict: ValueError or
     * TypeError was raised already, or `reconstruct_all` assigns `result["category"]` on the list
     * or string passed on.
     */
    lemma AbortsIffNoDict(job: Job, primaryTry: Provider, fallbackTry: Provider)
      requires job.cluster != []
      ensures Aborts(job, primaryTry, fallbackTry) <==> !ReplyOf(job, primaryTry, fallbackTry).Built?
    {
      var o := OutcomeOf(job, primaryTry, fallbackTry);
      ClusterReplyCases(job.cluster, job.category, personaMap, o.answer, o.sleepRaised);
    }

    /** The annotated result of a job whose reply is a dict (an empty cluster yields no result, an aborting one no run). */
    function ResultOf(job: Job, primaryTry: Provider, fallbackTry: Provider): Record
    {
      if job.cluster == [] then map[]
      else
        match ReplyOf(job, primaryTry, fallbackTry)
        case Built(rec) => Annotated(job, rec)
        case _ => map[]
    }

    /** The counter increments of a job (none for an empty cluster, which never reaches the router). */
    function DeltaOf(job: Job, primaryTry: Provider, fallbackTry: Provider): Stats
    {
      if job.cluster == [] then Stats(0, 0, 0, 0) else RouteFor(job.cluster, job.category, AtCall(primaryTry, job.position), AtCall(fallbackTry, job.position)).delta
    }

    function ResultFn(primaryTry: Provider, fallbackTry: Provider): (f: Job -> Record)
      ensures forall job :: f(job) == ResultOf(job, primaryTry, fallbackTry)
    {
      job => ResultOf(job, primaryTry, fallbackTry)
    }

    ghost function AbortFn(primaryTry: Provider, fallbackTry: Provider): (f: Job -> bool)
      ensures forall job :: f(job) == Aborts(job, primaryTry, fallbackTry)
    {
      job => Aborts(job, primaryTry, fallbackTry)
    }

    function DeltaFn(primaryTry: Provider, fallbackTry: Provider): (f: Job -> Stats)
      ensures forall job :: f(job) == DeltaOf(job, primaryTry, fallbackTry)
    {
      job => DeltaOf(job, primaryTry, fallbackTry)
    }

    /** `rf`, `df` and `ab` give the result, the counter increments and whether the run ends, for every job. */
    ghost predicate Tracks(rf: Job -> Record, df: Job -> Stats, ab: Job -> bool, primaryTry: Provider, fallbackTry: Provider)
    {
      && (forall job {:trigger ResultOf(job, primaryTry, fallbackTry)} :: rf(job) == ResultOf(job, primaryTry, fallbackTry))
      && (forall job {:trigger DeltaOf(job, primaryTry, fallbackTry)} :: df(job) == DeltaOf(job, primaryTry, fallbackTry))
      && (forall job {:trigger Aborts(job, primaryTry, fallbackTry)} :: ab(job) == Aborts(job, primaryTry, fallbackTry))
    }

    lemma FnsTrack(primaryTry: Provider, fallbackTry: Provider)
      ensures Tracks(ResultFn(primaryTry, fallbackTry), DeltaFn(primaryTry, fallbackTry), AbortFn(primaryTry, fallbackTry), primaryTry, fallbackTry)
    {
    }

    /** The `results` list after the given jobs. */
    function ResultsFor(jobs: seq<Job>, primaryTry: Provider, fallbackTry: Provider): seq<Record>
    {
      Collect(jobs, HasArticles, ResultFn(primaryTry, fallbackTry))
    }

    /** There is one result per non-empty cluster, in job order, each the annotated reconstruction of its cluster. */
    lemma ResultsInOrder(jobs: seq<Job>, primaryTry: Provider, fallbackTry: Provider)
      ensures var ne := Filter(jobs, HasArticles);
        var rs := ResultsFor(jobs, primaryTry, fallbackTry);
        |rs| == |ne| && forall k :: 0 <= k < |rs| ==> rs[k] == ResultOf(ne[k], primaryTry, fallbackTry)
    {
      CollectIsMapFilter(jobs, HasArticles, ResultFn(primaryTry, fallbackTry));
    }

    /** Each result of a job that does not end the run carries the category, `source_count`, one source link per article, and the reconstruction's fields. */
    lemma ResultFields(job: Job, primaryTry: Provider, fallbackTry: Provider)
      requires job.cluster != []
      ensures !Aborts(job, primaryTry, fallbackTry) ==> var r := ResultOf(job, primaryTry, fallbackTry);
        && r[Category] == Str(job.category) && r[SourceCount] == Count(|job.cluster|)
        && r[SourceLinks].Strs? && |r[SourceLinks].items| == |job.cluster|
        && r[SourceArticles] == Sources(job.cluster)
        && (forall f :: f in RequiredFields ==> f in r)
        && Persona in r
    {
      var o := RouteFor(job.cluster, job.category, AtCall(primaryTry, job.position), AtCall(fallbackTry, job.position));
      if !Aborts(job, primaryTry, fallbackTry) {
        AbortsIffNoDict(job, primaryTry, fallbackTry);
        ClusterReplyCases(job.cluster, job.category, personaMap, o.answer, o.sleepRaised);
        ReconstructedFields(job.cluster, job.category, personaMap, if o.answer.None? then None else Some(o.answer.value.fields));
      }
    }

    /** One pass of the inner loop: reconstruct and annotate one cluster. */
    method ProcessJob(job: Job, primaryTry: Provider, fallbackTry: Provider, ghost rf: Job -> Record, ghost df: Job -> Stats, ghost ab: Job -> bool)
      returns (r: Option<Record>, aborted: bool)
      requires Tracks(rf, df, ab, primaryTry, fallbackTry)
      modifies llm
      ensures aborted == Aborts(job, primaryTry, fallbackTry)
      ensures !aborted ==> r == (if job.cluster == [] then None else Some(rf(job)))
      ensures llm.stats == AddStats(old(llm.stats), df(job))
    {
      assert rf(job) == ResultOf(job, primaryTry, fallbackTry) && df(job) == DeltaOf(job, primaryTry, fallbackTry);
      if job.cluster != [] {
        AbortsIffNoDict(job, primaryTry, fallbackTry);
      }
      var result, events := ReconstructCluster(job.cluster, job.category, AtCall(primaryTry, job.position), AtCall(fallbackTry, job.position));
      r, aborted := None, false;
      match result {
        case None =>
        case Some(Built(rec)) =>
          var a := rec;
          a := a[Category := Str(job.category)];
          a := a[SourceCount := Count(|job.cluster|)];
          a := a[SourceLinks := Strs(seq(|job.cluster|, i requires 0 <= i < |job.cluster| => OrElse(job.cluster[i].link, "")))];
          a := a[SourceArticles := Sources(job.cluster)];
          r := Some(a);
        case Some(_) =>
          // ValueError or TypeError raised inside, or a non-empty list or string is truthy and takes no item assignment
          aborted := true;
      }
    }

    /**
     * The state of `reconstruct_all` after the first `n` jobs, none of which ended the run
     * (neither the job nor the pause after it raised; all pauses raise or none does, so the
     * first stands for them all): the results collected, the router's counters and the steps taken.
     */
    ghost predicate Walked(jobs: seq<Job>, n: nat, done: seq<Record>, stats: Stats, s0: Stats, steps: seq<Step>,
                           rf: Job -> Record, df: Job -> Stats, ab: Job -> bool)
    {
      && n <= |jobs|
      && (forall k :: 0 <= k < n ==> !ab(jobs[k]))
      && (n > 0 ==> !PauseRaises(0, requestInterval, |jobs|))
      && done == Collect(jobs[..n], HasArticles, rf)
      && stats == AddStats(s0, SumStats(jobs[..n], df))
      && steps == PaceTrace(n, requestInterval, |jobs|)
    }

    /** Visiting job `n` without ending the run extends the state by its result, increments and pacing. */
    lemma WalkedStep(jobs: seq<Job>, n: nat, done: seq<Record>, stats: Stats, s0: Stats, steps: seq<Step>,
                     rf: Job -> Record, df: Job -> Stats, ab: Job -> bool,
                     done': seq<Record>, stats': Stats, steps': seq<Step>)
      requires n < |jobs| && Walked(jobs, n, done, stats, s0, steps, rf, df, ab)
      requires !ab(jobs[n]) && !PauseRaises(n, requestInterval, |jobs|)
      requires done' == done + (if HasArticles(jobs[n]) then [rf(jobs[n])] else [])
      requires stats' == AddStats(stats, df(jobs[n]))
      requires steps' == PaceTrace(n + 1, requestInterval, |jobs|)
      ensures Walked(jobs, n + 1, done', stats', s0, steps', rf, df, ab)
    {
      CollectStep(jobs, n, HasArticles, rf);
      SumStatsStep(jobs, n, df);
    }

    /** Ending the run at job `n` (the job or the pause after it raised) counts its increments and rebuilds it without a pause. */
    lemma WalkedAbort(jobs: seq<Job>, n: nat, done: seq<Record>, stats: Stats, s0: Stats, steps: seq<Step>,
                      rf: Job -> Record, df: Job -> Stats, ab: Job -> bool, stats': Stats)
      requires n < |jobs| && Walked(jobs, n, done, stats, s0, steps, rf, df, ab)
      requires stats' == AddStats(stats, df(jobs[n]))
      ensures stats' == AddStats(s0, SumStats(jobs[..n + 1], df))
      ensures steps == PaceTrace(n, requestInterval, |jobs|)
    {
      SumStatsStep(jobs, n, df);
    }

    /** After the last job the state covers the whole job list. */
    lemma WalkedDone(jobs: seq<Job>, done: seq<Record>, stats: Stats, s0: Stats, steps: seq<Step>,
                     rf: Job -> Record, df: Job -> Stats, ab: Job -> bool)
      requires Walked(jobs, |jobs|, done, stats, s0, steps, rf, df, ab)
      ensures done == Collect(jobs, HasArticles, rf) && stats == AddStats(s0, SumStats(jobs, df))
    {
      assert jobs[..|jobs|] == jobs;
    }

    /**
     * How `reconstruct_all` ends over the jobs: with every result when no job or pause ends the
     * run, otherwise at the first job `at` that does or whose pause does, having counted and
     * rebuilt up to it.
     */
    ghost predicate Ended(jobs: seq<Job>, results: Option<seq<Record>>, stats: Stats, s0: Stats, steps: seq<Step>, at: nat,
                          rf: Job -> Record, df: Job -> Stats, ab: Job -> bool)
    {
      match results
      case Some(done) =>
        && (forall k :: 0 <= k < |jobs| ==> !ab(jobs[k]))
        && (|jobs| > 0 ==> !PauseRaises(0, requestInterval, |jobs|))
        && done == Collect(jobs, HasArticles, rf)
        && stats == AddStats(s0, SumStats(jobs, df))
        && steps == PaceTrace(|jobs|, requestInterval, |jobs|)
      case None =>
        && at < |jobs| && (ab(jobs[at]) || PauseRaises(at, requestInterval, |jobs|))
        && (forall k :: 0 <= k < at ==> !ab(jobs[k]))
        && (at > 0 ==> !PauseRaises(0, requestInterval, |jobs|))
        && stats == AddStats(s0, SumStats(jobs[..at + 1], df))
        && steps == PaceTrace(at, requestInterval, |jobs|) + [Rebuild(at + 1)]
    }

    /** One pass of the inner loop, stated against the jobs visited so far: process the job, count it, pace. */
    method Visit(ghost jobs: seq<Job>, processed: nat, job: Job, results: seq<Record>, steps: seq<Step>, total: nat,
                 primaryTry: Provider, fallbackTry: Provider, ghost rf: Job -> Record, ghost df: Job -> Stats, ghost ab: Job -> bool, ghost s0: Stats)
      returns (processed': nat, results': seq<Record>, steps': seq<Step>, aborted: bool)
      requires processed < |jobs| == total && jobs[processed] == job
      requires Tracks(rf, df, ab, primaryTry, fallbackTry)
      requires Walked(jobs, processed, results, llm.stats, s0, steps, rf, df, ab)
      modifies llm
      ensures processed' == processed + 1
      ensures aborted == (ab(job) || PauseRaises(processed, requestInterval, total))
      ensures !aborted ==> Walked(jobs, processed', results', llm.stats, s0, steps', rf, df, ab)
      ensures aborted ==>
        && llm.stats == AddStats(s0, SumStats(jobs[..processed'], df))
        && steps' == PaceTrace(processed, requestInterval, total) + [Rebuild(processed')]
    {
      ghost var stats := llm.stats;
      var result;
      result, aborted := ProcessJob(job, primaryTry, fallbackTry, rf, df, ab);
      processed' := processed + 1;
      results' := results;
      if aborted {
        WalkedAbort(jobs, processed, results, stats, s0, steps, rf, df, ab, llm.stats);
        steps' := steps + [Rebuild(processed')];
        return;
      }
      if result.Some? {
        results' := results' + [result.value];
      }
      steps', aborted := Pace(steps, processed', requestInterval, total);
      if aborted {
        WalkedAbort(jobs, processed, results, stats, s0, steps, rf, df, ab, llm.stats);
        return;
      }
      WalkedStep(jobs, processed, results, stats, s0, steps, rf, df, ab, results', llm.stats, steps');
    }

    /** No job of the list, and no pause after one, ends the run. */
    predicate RunsThrough(jobs: seq<Job>, primaryTry: Provider, fallbackTry: Provider)
    {
      forall k :: 0 <= k < |jobs| ==> !Aborts(jobs[k], primaryTry, fallbackTry) && !PauseRaises(k, requestInterval, |jobs|)
    }

    /** The end of the run, read back through the functions that give each job's result, increments and abort. */
    lemma EndedMeans(jobs: seq<Job>, results: Option<seq<Record>>, stats: Stats, s0: Stats, steps: seq<Step>, at: nat,
                     primaryTry: Provider, fallbackTry: Provider)
      requires Ended(jobs, results, stats, s0, steps, at, ResultFn(primaryTry, fallbackTry), DeltaFn(primaryTry, fallbackTry),
                     AbortFn(primaryTry, fallbackTry))
      ensures results.Some? <==> RunsThrough(jobs, primaryTry, fallbackTry)
      ensures results.Some? ==>
        && results.value == ResultsFor(jobs, primaryTry, fallbackTry)
        && stats == AddStats(s0, SumStats(jobs, DeltaFn(primaryTry, fallbackTry)))
        && steps == PaceTrace(|jobs|, requestInterval, |jobs|)
      ensures results.None? ==>
        && at < |jobs| && (Aborts(jobs[at], primaryTry, fallbackTry) || PauseRaises(at, requestInterval, |jobs|))
        && (forall k :: 0 <= k < at ==> !Aborts(jobs[k], primaryTry, fallbackTry) && !PauseRaises(k, requestInterval, |jobs|))
        && stats == AddStats(s0, SumStats(jobs[..at + 1], DeltaFn(primaryTry, fallbackTry)))
        && steps == PaceTrace(at, requestInterval, |jobs|) + [Rebuild(at + 1)]
    {
      var ab := AbortFn(primaryTry, fallbackTry);
      if results.None? && !PauseRaises(at, requestInterval, |jobs|) {
        assert ab(jobs[at]);
      }
    }

    /**
     * `reconstruct_all(clustered_data)`: every cluster in category order, pausing between clusters.
     * `results` is None where an exception escapes, at the first cluster `at` whose routing raised
     * ValueError or answered no JSON object, or whose pause was negative. With a negative interval
     * and two clusters or more, that is the first cluster.
     */
    method ReconstructAll(data: seq<(string, seq<seq<Article>>)>, primaryTry: Provider, fallbackTry: Provider)
      returns (results: Option<seq<Record>>, steps: seq<Step>, ghost at: nat)
      modifies llm
      ensures results.Some? <==> RunsThrough(Jobs(data), primaryTry, fallbackTry)
      ensures results.Some? ==>
        && results.value == ResultsFor(Jobs(data), primaryTry, fallbackTry)
        && llm.stats == AddStats(old(llm.stats), SumStats(Jobs(data), DeltaFn(primaryTry, fallbackTry)))
        && steps == PaceTrace(|Jobs(data)|, requestInterval, |Jobs(data)|)
      ensures results.None? ==>
        && at < |Jobs(data)| && (Aborts(Jobs(data)[at], primaryTry, fallbackTry) || PauseRaises(at, requestInterval, |Jobs(data)|))
        && (forall k :: 0 <= k < at ==> !Aborts(Jobs(data)[k], primaryTry, fallbackTry) && !PauseRaises(k, requestInterval, |Jobs(data)|))
        && llm.stats == AddStats(old(llm.stats), SumStats(Jobs(data)[..at + 1], DeltaFn(primaryTry, fallbackTry)))
        && steps == PaceTrace(at, requestInterval, |Jobs(data)|) + [Rebuild(at + 1)]
      ensures requestInterval < 0.0 && |Jobs(data)| >= 2 ==> results.None? && at == 0
    {
      FnsTrack(primaryTry, fallbackTry);
      results, steps, at := RunJobs(Jobs(data), primaryTry, fallbackTry, ResultFn(primaryTry, fallbackTry), DeltaFn(primaryTry, fallbackTry),
                                    AbortFn(primaryTry, fallbackTry));
      EndedMeans(Jobs(data), results, llm.stats, old(llm.stats), steps, at, primaryTry, fallbackTry);
    }

    /** The nested loops of `reconstruct_all` over the flattened jobs; `rf`, `df` and `ab` give each job's result, increments and abort. */
    method RunJobs(jobs: seq<Job>, primaryTry: Provider, fallbackTry: Provider,
                   ghost rf: Job -> Record, ghost df: Job -> Stats, ghost ab: Job -> bool)
      returns (results: Option<seq<Record>>, steps: seq<Step>, ghost at: nat)
      requires Tracks(rf, df, ab, primaryTry, fallbackTry)
      modifies llm
      ensures Ended(jobs, results, llm.stats, old(llm.stats), steps, at, rf, df, ab)
    {
      ghost var s0 := llm.stats;
      var total := |jobs|;
      var done := [];
      steps := [];
      at := 0;
      var processed := 0;
      assert jobs[..0] == [];
      while processed < total
        invariant total == |jobs|
        invariant Walked(jobs, processed, done, llm.stats, s0, steps, rf, df, ab)
      {
        var aborted;
        at := processed;
        processed, done, steps, aborted := Visit(jobs, processed, jobs[processed], done, steps, total,
                                                 primaryTry, fallbackTry, rf, df, ab, s0);
        if aborted {
          return None, steps, at;
        }
      }
      WalkedDone(jobs, done, llm.stats, s0, steps, rf, df, ab);
      results := Some(done);
    }
  }
}
