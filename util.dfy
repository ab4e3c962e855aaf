// Shared vocabulary for the model: optional values, the string operations the
// Python and JavaScript sources lean on (slicing, substring tests, split, join,
// strip, lower-casing, decimal rendering), a stable descending sort and the
// order-preserving subsequence relation.

module Util {

  datatype Option<T> = None | Some(value: T)

  /** `d.get(key, default)`, for a key read as an Option. */
  function OrElse<T>(o: Option<T>, default: T): T
  {
    if o.Some? then o.value else default
  }

  // ---------------------------------------------------------------------------
  // Slicing and membership

  /** Python's `s[:n]` for a non-negative `n`. */
  function Take<T>(s: seq<T>, n: nat): (r: seq<T>)
    ensures |r| == (if |s| <= n then |s| else n)
    ensures r <= s
  {
    if |s| <= n then s else s[..n]
  }

  /** `s.startswith(p)`, one character at a time. */
  predicate StartsWith<T(==)>(s: seq<T>, p: seq<T>)
    ensures StartsWith(s, p) ==> |p| <= |s|
    decreases |p|
  {
    p == [] || (s != [] && s[0] == p[0] && StartsWith(s[1..], p[1..]))
  }

  /** Python's `sub in s` for strings: `sub` occurs at some offset of `s`. */
  predicate Contains<T(==)>(s: seq<T>, sub: seq<T>)
    decreases |s|
  {
    sub <= s || (s != [] && Contains(s[1..], sub))
  }

  /** A substring is never longer than the string it occurs in, and one of the same length is that string. */
  lemma {:induction false} ContainsLength<T>(s: seq<T>, sub: seq<T>)
    requires Contains(s, sub)
    ensures |sub| <= |s|
    ensures |sub| == |s| ==> sub == s
    decreases |s|
  {
    if sub <= s {
    } else {
      ContainsLength(s[1..], sub);
    }
  }

  /** An element occurs in `s` exactly when the one-element string occurs in it. */
  lemma {:induction false} ContainsSingleton<T>(s: seq<T>, x: T)
    ensures Contains(s, [x]) <==> x in s
    decreases |s|
  {
    if s != [] {
      ContainsSingleton(s[1..], x);
      assert s == [s[0]] + s[1..];
    }
  }

  /** Number of occurrences of `x` in `s`. */
  function Count<T(==)>(s: seq<T>, x: T): (n: nat)
    ensures n <= |s|
    ensures n > 0 <==> x in s
  {
    if s == [] then 0 else (if s[|s| - 1] == x then 1 else 0) + Count(s[..|s| - 1], x)
  }

  lemma CountAppend<T>(s: seq<T>, t: seq<T>, x: T)
    ensures Count(s + t, x) == Count(s, x) + Count(t, x)
    decreases |t|
  {
    if t == [] {
      assert s + t == s;
    } else {
      assert (s + t)[..|s + t| - 1] == s + t[..|t| - 1];
      CountAppend(s, t[..|t| - 1], x);
    }
  }

  predicate NoDup<T(==)>(s: seq<T>)
  {
    forall i, j :: 0 <= i < j < |s| ==> s[i] != s[j]
  }

  /** `s` with later repetitions removed: the order of first occurrences. */
  function Dedup<T(==)>(s: seq<T>): (r: seq<T>)
    ensures NoDup(r)
    ensures |r| <= |s|
  {
    if s == [] then []
    else
      var p := Dedup(s[..|s| - 1]);
      if s[|s| - 1] in p then p else p + [s[|s| - 1]]
  }

  /** Deduplication keeps exactly the elements of `s`. */
  lemma {:induction false} DedupMembers<T>(s: seq<T>)
    ensures forall x :: x in Dedup(s) <==> x in s
  {
    if s != [] {
      var p := s[..|s| - 1];
      DedupMembers(p);
      assert s == p + [s[|s| - 1]];
    }
  }

  /** DedupMembers by position, the form generic callers can instantiate. */
  lemma DedupIndices<T>(s: seq<T>)
    ensures forall i :: 0 <= i < |Dedup(s)| ==> Dedup(s)[i] in s
    ensures forall i :: 0 <= i < |s| ==> s[i] in Dedup(s)
  {
    DedupMembers(s);
  }

  /** The distinct passing elements of a list with one more element. */
  lemma DedupFilterLast<T>(s: seq<T>, p: T -> bool)
    requires s != []
    ensures var q, x := s[..|s| - 1], s[|s| - 1];
      Dedup(Filter(s, p)) == if p(x) && x !in Dedup(Filter(q, p)) then Dedup(Filter(q, p)) + [x] else Dedup(Filter(q, p))
  {
    var q, x := s[..|s| - 1], s[|s| - 1];
    var f := Filter(q, p);
    assert s == q + [x];
    if p(x) {
      assert Filter(s, p) == f + [x];
      DedupSnoc(f, x);
    } else {
      assert Filter(s, p) == f;
    }
  }

  /** One more element: kept when it is new. */
  lemma DedupSnoc<T>(s: seq<T>, x: T)
    ensures Dedup(s + [x]) == if x in Dedup(s) then Dedup(s) else Dedup(s) + [x]
  {
    assert (s + [x])[..|s|] == s;
  }

  // ---------------------------------------------------------------------------
  // Strings

  /**
   * Python's `str.isspace()`, the whitespace of `strip()` and `split()`: the ASCII controls
   * 9-13 and 28-31, the space, NEL, NO-BREAK SPACE and the Unicode space separators.
   */
  predicate IsSpace(c: char)
  {
    '\U{0009}' <= c <= '\U{000D}' || '\U{001C}' <= c <= '\U{0020}' || c == '\U{0085}' || c == '\U{00A0}'
    || c == '\U{1680}' || '\U{2000}' <= c <= '\U{200A}' || c == '\U{2028}' || c == '\U{2029}'
    || c == '\U{202F}' || c == '\U{205F}' || c == '\U{3000}'
  }

  predicate IsDigit(c: char)
  {
    '0' <= c <= '9'
  }

  /** Python's `str.lower()` on ASCII letters. */
  function LowerChar(c: char): (d: char)
    ensures !('A' <= d <= 'Z')
    ensures !('A' <= c <= 'Z') ==> d == c
  {
    if 'A' <= c <= 'Z' then (c as int + 32) as char else c
  }

  function Lower(s: string): (r: string)
    ensures |r| == |s|
    ensures forall i :: 0 <= i < |s| ==> r[i] == LowerChar(s[i])
  {
    if s == [] then [] else [LowerChar(s[0])] + Lower(s[1..])
  }

  /** Python's `str.lstrip()` / `str.rstrip()` / `str.strip()` without arguments: they remove IsSpace characters. */
  function LStrip(s: string): (r: string)
    ensures |r| <= |s|
  {
    if s != [] && IsSpace(s[0]) then LStrip(s[1..]) else s
  }

  function RStrip(s: string): (r: string)
    ensures |r| <= |s|
  {
    if s != [] && IsSpace(s[|s| - 1]) then RStrip(s[..|s| - 1]) else s
  }

  function Strip(s: string): string
  {
    RStrip(LStrip(s))
  }

  /** `lstrip` removes a leading run of whitespace: the result is a suffix not starting with a space. */
  lemma {:induction false} LStripShape(s: string)
    ensures |LStrip(s)| <= |s| && LStrip(s) == s[|s| - |LStrip(s)|..]
    ensures LStrip(s) == [] || !IsSpace(LStrip(s)[0])
    decreases |s|
  {
    if s != [] && IsSpace(s[0]) {
      LStripShape(s[1..]);
    }
  }

  /** `rstrip` removes a trailing run of whitespace: the result is a prefix not ending with a space. */
  lemma {:induction false} RStripShape(s: string)
    ensures RStrip(s) <= s
    ensures RStrip(s) == [] || !IsSpace(RStrip(s)[|RStrip(s)| - 1])
    decreases |s|
  {
    if s != [] && IsSpace(s[|s| - 1]) {
      RStripShape(s[..|s| - 1]);
    }
  }

  /** `strip` neither starts nor ends with whitespace and is no longer than its input. */
  lemma StripShape(s: string)
    ensures |Strip(s)| <= |s|
    ensures Strip(s) == [] || (!IsSpace(Strip(s)[0]) && !IsSpace(Strip(s)[|Strip(s)| - 1]))
  {
    LStripShape(s);
    RStripShape(LStrip(s));
    if Strip(s) != [] {
      assert Strip(s)[0] == LStrip(s)[0];
    }
  }

  /** Python's `s.replace(pat, rep)`: every non-overlapping occurrence, scanning left to right. */
  function ReplaceAll(s: string, pat: string, rep: string): (r: string)
    requires pat != []
    decreases |s|
  {
    if s == [] then []
    else if pat <= s then rep + ReplaceAll(s[|pat|..], pat, rep)
    else [s[0]] + ReplaceAll(s[1..], pat, rep)
  }

  /** Python's `s.split(c)` for a one-character separator. */
  function SplitOn(s: string, c: char): (r: seq<string>)
    ensures |r| >= 1
    ensures forall k :: 0 <= k < |r| ==> c !in r[k]
    ensures c !in s ==> r == [s]
  {
    if s == [] then [[]]
    else if s[0] == c then [[]] + SplitOn(s[1..], c)
    else
      var rest := SplitOn(s[1..], c);
      assert s == [s[0]] + s[1..];
      [[s[0]] + rest[0]] + rest[1..]
  }

  /** The first field of `s.split(c)` is the longest prefix of `s` free of `c`. */
  lemma {:induction false} SplitOnHead(s: string, c: char)
    ensures SplitOn(s, c)[0] <= s
    ensures |SplitOn(s, c)[0]| < |s| ==> s[|SplitOn(s, c)[0]|] == c
  {
    if s != [] && s[0] != c {
      SplitOnHead(s[1..], c);
    }
  }

  /** Length of the leading run of non-space characters. */
  function TokenLen(s: string): (k: nat)
    ensures k <= |s|
    ensures forall i :: 0 <= i < k ==> !IsSpace(s[i])
    ensures k < |s| ==> IsSpace(s[k])
  {
    if s == [] || IsSpace(s[0]) then 0 else 1 + TokenLen(s[1..])
  }

  /** Python's `s.split()` without arguments: maximal runs of non-space characters. */
  function Words(s: string): (r: seq<string>)
    ensures forall k :: 0 <= k < |r| ==> r[k] != [] && forall i :: 0 <= i < |r[k]| ==> !IsSpace(r[k][i])
    decreases |s|
  {
    if s == [] then []
    else if IsSpace(s[0]) then Words(s[1..])
    else
      var k := TokenLen(s);
      [s[..k]] + Words(s[k..])
  }

  /** `sep.join(parts)`. */
  function Join(parts: seq<string>, sep: string): (r: string)
    ensures parts == [] ==> r == []
    ensures |parts| == 1 ==> r == parts[0]
  {
    if parts == [] then []
    else if |parts| == 1 then parts[0]
    else parts[0] + sep + Join(parts[1..], sep)
  }

  /** Every part of a join occurs in it. */
  lemma {:induction false} JoinContains(parts: seq<string>, sep: string, i: nat)
    requires i < |parts|
    ensures Contains(Join(parts, sep), parts[i])
    decreases |parts|
  {
    if |parts| > 1 {
      var rest := Join(parts[1..], sep);
      if i == 0 {
        assert parts[0] <= parts[0] + sep + rest;
      } else {
        JoinContains(parts[1..], sep, i - 1);
        ContainsSuffix(parts[0] + sep, rest, parts[i]);
      }
    }
  }

  /** An occurrence in `s` is an occurrence in `p + s`. */
  lemma {:induction false} ContainsSuffix(p: string, s: string, sub: string)
    requires Contains(s, sub)
    ensures Contains(p + s, sub)
    decreases |p|
  {
    if p != [] {
      ContainsSuffix(p[1..], s, sub);
      assert (p + s)[1..] == p[1..] + s;
      assert Contains((p + s)[1..], sub);
    } else {
      assert p + s == s;
    }
  }

  /** An occurrence in `s` is an occurrence in `s + t`. */
  lemma {:induction false} ContainsPrefix(s: string, t: string, sub: string)
    requires Contains(s, sub)
    ensures Contains(s + t, sub)
    decreases |s|
  {
    if sub <= s {
      assert sub <= s + t;
    } else {
      ContainsPrefix(s[1..], t, sub);
      assert (s + t)[1..] == s[1..] + t;
    }
  }

  function DigitChar(d: nat): (c: char)
    requires d < 10
    ensures IsDigit(c)
  {
    ('0' as int + d) as char
  }

  /** Decimal rendering of a natural number, as `String(n)` or `str(n)` print it. */
  function NatToString(n: nat): (r: string)
    ensures r != []
    ensures forall i :: 0 <= i < |r| ==> IsDigit(r[i])
    ensures n < 10 <==> |r| == 1
    decreases n
  {
    if n < 10 then [DigitChar(n)] else NatToString(n / 10) + [DigitChar(n % 10)]
  }

  /** Rendering of an integer, with a leading minus sign when negative. */
  function IntToString(n: int): (r: string)
    ensures r != []
  {
    if n < 0 then "-" + NatToString(-n) else NatToString(n)
  }

  /** `String(n).padStart(2, '0')` (Python `f"{n:02d}"`). */
  function Pad2(n: nat): (r: string)
    ensures |r| >= 2
    ensures n < 100 ==> |r| == 2
  {
    if n < 10 then "0" + NatToString(n) else NatToString(n)
  }

  /** The number a string of decimal digits denotes (a non-digit counts as 0). */
  function DigitsValue(s: string): (v: nat)
  {
    if s == [] then 0
    else DigitsValue(s[..|s| - 1]) * 10 + (if IsDigit(s[|s| - 1]) then s[|s| - 1] as int - '0' as int else 0)
  }

  lemma {:induction false} NatToStringValue(n: nat)
    ensures DigitsValue(NatToString(n)) == n
    decreases n
  {
    if n >= 10 {
      NatToStringValue(n / 10);
      var s := NatToString(n / 10) + [DigitChar(n % 10)];
      assert s[..|s| - 1] == NatToString(n / 10);
    }
  }

  /** Pad2 reads back as the number it renders. */
  lemma {:induction false} Pad2Value(n: nat)
    requires n < 100
    ensures DigitsValue(Pad2(n)) == n
  {
    NatToStringValue(n);
    if n < 10 {
      var s := "0" + NatToString(n);
      assert s[..1] == "0";
      assert s == [s[0], s[1]];
    }
  }

  // ---------------------------------------------------------------------------
  // Lexicographic string order (JavaScript / Python comparison of code points)

  predicate StrLess(a: string, b: string)
    decreases |a|
  {
    if a == [] then b != []
    else if b == [] then false
    else if a[0] != b[0] then a[0] < b[0]
    else StrLess(a[1..], b[1..])
  }

  lemma {:induction false} StrLessAsym(a: string, b: string)
    ensures StrLess(a, b) ==> !StrLess(b, a)
    decreases |a|
  {
    if a != [] && b != [] && a[0] == b[0] {
      StrLessAsym(a[1..], b[1..]);
    }
  }

  /** Distinct strings are always ordered one way or the other. */
  lemma {:induction false} StrLessTotal(a: string, b: string)
    ensures a != b ==> StrLess(a, b) || StrLess(b, a)
    decreases |a|
  {
    if a != [] && b != [] && a[0] == b[0] {
      StrLessTotal(a[1..], b[1..]);
      assert a == [a[0]] + a[1..] && b == [b[0]] + b[1..];
    }
  }

  lemma {:induction false} StrLessIrreflexive(a: string)
    ensures !StrLess(a, a)
    decreases |a|
  {
    if a != [] {
      StrLessIrreflexive(a[1..]);
    }
  }

  lemma {:induction false} StrLessTrans(a: string, b: string, c: string)
    requires StrLess(a, b) && StrLess(b, c)
    ensures StrLess(a, c)
    decreases |a|
  {
    if a != [] && a[0] == b[0] && b[0] == c[0] {
      StrLessTrans(a[1..], b[1..], c[1..]);
    }
  }

  // ---------------------------------------------------------------------------
  // Stable descending sort (Python `sorted(..., reverse=True)`, JavaScript `sort((a, b) => kb - ka)`)

  ghost predicate Asymmetric<K(!new)>(less: (K, K) -> bool)
  {
    forall a, b :: less(a, b) ==> !less(b, a)
  }

  predicate SortedDesc<T, K>(s: seq<T>, key: T -> K, less: (K, K) -> bool)
  {
    forall i :: 0 <= i < |s| - 1 ==> !less(key(s[i]), key(s[i + 1]))
  }

  /** Inserts `x` before the first element whose key is not greater than x's. */
  function InsertDesc<T, K>(x: T, s: seq<T>, key: T -> K, less: (K, K) -> bool): (r: seq<T>)
    ensures multiset(r) == multiset(s) + multiset{x}
    ensures |r| == |s| + 1
  {
    if s == [] then [x]
    else if !less(key(x), key(s[0])) then [x] + s
    else
      assert s == [s[0]] + s[1..];
      [s[0]] + InsertDesc(x, s[1..], key, less)
  }

  function SortDesc<T, K>(s: seq<T>, key: T -> K, less: (K, K) -> bool): (r: seq<T>)
    ensures multiset(r) == multiset(s)
    ensures |r| == |s|
  {
    if s == [] then []
    else
      assert s == [s[0]] + s[1..];
      InsertDesc(s[0], SortDesc(s[1..], key, less), key, less)
  }

  /** The sort keeps exactly the elements of its input. */
  lemma SortDescMembers<T, K>(s: seq<T>, key: T -> K, less: (K, K) -> bool)
    ensures forall x :: x in SortDesc(s, key, less) <==> x in s
  {
    var r := SortDesc(s, key, less);
    forall x ensures x in r <==> x in s {
      assert x in r <==> x in multiset(r);
      assert x in s <==> x in multiset(s);
    }
  }

  /** An element of the input has a position in the sorted output. */
  lemma SortDescIndex<T, K>(s: seq<T>, key: T -> K, less: (K, K) -> bool, x: T) returns (i: nat)
    requires x in s
    ensures i < |SortDesc(s, key, less)| && SortDesc(s, key, less)[i] == x
  {
    SortDescMembers(s, key, less);
    var r := SortDesc(s, key, less);
    i :| i < |r| && r[i] == x;
  }

  lemma {:induction false} InsertDescSorted<T, K(!new)>(x: T, s: seq<T>, key: T -> K, less: (K, K) -> bool)
    requires Asymmetric(less)
    requires SortedDesc(s, key, less)
    ensures SortedDesc(InsertDesc(x, s, key, less), key, less)
    ensures s != [] ==> InsertDesc(x, s, key, less)[0] == x || InsertDesc(x, s, key, less)[0] == s[0]
  {
    if s != [] && less(key(x), key(s[0])) {
      InsertDescSorted(x, s[1..], key, less);
      var t := InsertDesc(x, s[1..], key, less);
      assert !less(key(s[0]), key(x));
    }
  }

  /** The sort returns its input reordered into descending key order. */
  lemma {:induction false} SortDescSorted<T, K(!new)>(s: seq<T>, key: T -> K, less: (K, K) -> bool)
    requires Asymmetric(less)
    ensures SortedDesc(SortDesc(s, key, less), key, less)
    ensures multiset(SortDesc(s, key, less)) == multiset(s)
  {
    if s != [] {
      SortDescSorted(s[1..], key, less);
      InsertDescSorted(s[0], SortDesc(s[1..], key, less), key, less);
    }
  }

  predicate RealLess(a: real, b: real) { a < b }

  predicate IntLess(a: int, b: int) { a < b }

  lemma RealLessAsym()
    ensures Asymmetric(RealLess)
  {
  }

  lemma IntLessAsym()
    ensures Asymmetric(IntLess)
  {
  }

  lemma {:induction false} StrLessIsAsym()
    ensures Asymmetric(StrLess)
  {
    forall a: string, b: string | StrLess(a, b) ensures !StrLess(b, a) {
      StrLessAsym(a, b);
    }
  }

  // ---------------------------------------------------------------------------
  // Order-preserving subsequence

  /** `a` can be obtained from `b` by deleting elements. */
  predicate IsSubseq<T(==)>(a: seq<T>, b: seq<T>)
    decreases |b|
  {
    if a == [] then true
    else if b == [] then false
    else (a[0] == b[0] && IsSubseq(a[1..], b[1..])) || IsSubseq(a, b[1..])
  }

  lemma {:induction false} SubseqDropLast<T>(a: seq<T>, b: seq<T>, x: T)
    requires IsSubseq(a, b)
    ensures IsSubseq(a, b + [x])
    decreases |b|
  {
    if a != [] && b != [] {
      assert (b + [x])[1..] == b[1..] + [x];
      if a[0] == b[0] && IsSubseq(a[1..], b[1..]) {
        SubseqDropLast(a[1..], b[1..], x);
      } else {
        SubseqDropLast(a, b[1..], x);
      }
    }
  }

  lemma {:induction false} SubseqEmpty<T>(b: seq<T>)
    ensures IsSubseq([], b)
  {
  }

  lemma {:induction false} SubseqKeepLast<T>(a: seq<T>, b: seq<T>, x: T)
    requires IsSubseq(a, b)
    ensures IsSubseq(a + [x], b + [x])
    decreases |b|
  {
    if a == [] {
      if b == [] {
        assert IsSubseq([x][1..], ([] + [x])[1..]);
      } else {
        assert (b + [x])[1..] == b[1..] + [x];
        SubseqKeepLast(a, b[1..], x);
      }
    } else {
      assert b != [];
      assert (a + [x])[0] == a[0] && (a + [x])[1..] == a[1..] + [x];
      assert (b + [x])[0] == b[0] && (b + [x])[1..] == b[1..] + [x];
      if a[0] == b[0] && IsSubseq(a[1..], b[1..]) {
        SubseqKeepLast(a[1..], b[1..], x);
      } else {
        SubseqKeepLast(a, b[1..], x);
      }
    }
  }

  /** Keeping the first element keeps a subsequence. */
  lemma SubseqCons<T>(a: seq<T>, b: seq<T>)
    requires b != [] && IsSubseq(a, b[1..])
    ensures IsSubseq([b[0]] + a, b)
  {
    assert ([b[0]] + a)[1..] == a;
  }

  /** Deleting a prefix of the longer sequence keeps a subsequence. */
  lemma {:induction false} SubseqDropPrefix<T>(a: seq<T>, d: seq<T>, b: seq<T>)
    requires IsSubseq(a, b)
    ensures IsSubseq(a, d + b)
    decreases |d|
  {
    if d == [] {
      assert d + b == b;
    } else {
      SubseqDropPrefix(a, d[1..], b);
      assert (d + b)[1..] == d[1..] + b;
      if a != [] {
        var e := d + b;
        assert e != [] && e[1..] == d[1..] + b;
        assert IsSubseq(a, e[1..]);
      }
    }
  }

  lemma {:induction false} SubseqRefl<T>(a: seq<T>)
    ensures IsSubseq(a, a)
  {
    if a != [] {
      SubseqRefl(a[1..]);
    }
  }

  lemma {:induction false} SubseqMembers<T>(a: seq<T>, b: seq<T>)
    requires IsSubseq(a, b)
    ensures forall x :: x in a ==> x in b
    decreases |b|
  {
    if a != [] {
      if a[0] == b[0] && IsSubseq(a[1..], b[1..]) {
        SubseqMembers(a[1..], b[1..]);
        forall x | x in a ensures x in b {
          if x != a[0] { assert x in a[1..]; }
        }
      } else {
        SubseqMembers(a, b[1..]);
      }
    }
  }

  lemma {:induction false} SubseqTrans<T>(a: seq<T>, b: seq<T>, c: seq<T>)
    requires IsSubseq(a, b) && IsSubseq(b, c)
    ensures IsSubseq(a, c)
    decreases |c|
  {
    if a != [] {
      assert b != [] && c != [];
      if b[0] == c[0] && IsSubseq(b[1..], c[1..]) {
        if a[0] == b[0] && IsSubseq(a[1..], b[1..]) {
          SubseqTrans(a[1..], b[1..], c[1..]);
        } else {
          SubseqTrans(a, b[1..], c[1..]);
        }
      } else {
        SubseqTrans(a, b, c[1..]);
      }
    }
  }

  // ---------------------------------------------------------------------------
  // Prefix-indexed folds: `Filtered(s, keep)` keeps the elements that a greedy
  // loop accepts, where acceptance may look at what was accepted before.

  function Greedy<T>(s: seq<T>, keep: (seq<T>, T) -> bool): (r: seq<T>)
    ensures |r| <= |s|
  {
    if s == [] then []
    else
      var acc := Greedy(s[..|s| - 1], keep);
      if keep(acc, s[|s| - 1]) then acc + [s[|s| - 1]] else acc
  }

  lemma {:induction false} GreedySubseq<T>(s: seq<T>, keep: (seq<T>, T) -> bool)
    ensures IsSubseq(Greedy(s, keep), s)
  {
    if s == [] {
    } else {
      var p := s[..|s| - 1];
      GreedySubseq(p, keep);
      assert s == p + [s[|s| - 1]];
      if keep(Greedy(p, keep), s[|s| - 1]) {
        SubseqKeepLast(Greedy(p, keep), p, s[|s| - 1]);
      } else {
        SubseqDropLast(Greedy(p, keep), p, s[|s| - 1]);
      }
    }
  }

  /** Each accepted element was accepted against the elements accepted before it. */
  lemma {:induction false} GreedyAccepted<T>(s: seq<T>, keep: (seq<T>, T) -> bool, k: nat)
    requires k < |Greedy(s, keep)|
    ensures keep(Greedy(s, keep)[..k], Greedy(s, keep)[k])
  {
    var p := s[..|s| - 1];
    var acc := Greedy(p, keep);
    if k < |acc| {
      GreedyAccepted(p, keep, k);
      if keep(acc, s[|s| - 1]) {
        assert (acc + [s[|s| - 1]])[..k] == acc[..k];
      }
    } else {
      assert acc + [s[|s| - 1]] == Greedy(s, keep);
      assert Greedy(s, keep)[..k] == acc;
    }
  }

  lemma {:induction false} GreedyStep<T>(s: seq<T>, i: nat, keep: (seq<T>, T) -> bool)
    requires i < |s|
    ensures Greedy(s[..i + 1], keep) ==
      (if keep(Greedy(s[..i], keep), s[i]) then Greedy(s[..i], keep) + [s[i]] else Greedy(s[..i], keep))
  {
    assert s[..i + 1][..i] == s[..i];
  }

  // ---------------------------------------------------------------------------
  // Searching

  /** Index of the first occurrence of `c` in `s` (JavaScript `indexOf`, Python `find`). */
  function IndexOf(s: string, c: char): (r: Option<nat>)
    ensures r.Some? ==> r.value < |s| && s[r.value] == c && c !in s[..r.value]
    ensures r.None? ==> c !in s
  {
    if s == [] then None
    else if s[0] == c then Some(0)
    else
      match IndexOf(s[1..], c)
      case None => None
      case Some(j) => assert s[..j + 1] == [s[0]] + s[1..][..j]; Some(j + 1)
  }

  /** Python's `s.split(sep)[0]`: the text before the first occurrence of `sep`. */
  function BeforeFirst(s: string, sep: string): (r: string)
    requires sep != []
    ensures r <= s
    decreases |s|
  {
    if s == [] || sep <= s then [] else [s[0]] + BeforeFirst(s[1..], sep)
  }

  // ---------------------------------------------------------------------------
  // Pairwise relations survive deleting elements

  ghost predicate Pairwise<T>(s: seq<T>, p: (T, T) -> bool)
  {
    forall i, j :: 0 <= i < j < |s| ==> p(s[i], s[j])
  }

  lemma {:induction false} PairwiseSubseq<T>(a: seq<T>, b: seq<T>, p: (T, T) -> bool)
    requires IsSubseq(a, b) && Pairwise(b, p)
    ensures Pairwise(a, p)
    decreases |b|
  {
    if a != [] {
      if a[0] == b[0] && IsSubseq(a[1..], b[1..]) {
        PairwiseSubseq(a[1..], b[1..], p);
        SubseqMembers(a[1..], b[1..]);
        forall i, j | 0 <= i < j < |a| ensures p(a[i], a[j]) {
          if i > 0 {
            assert a[i] == a[1..][i - 1] && a[j] == a[1..][j - 1];
          } else {
            assert a[j] in a[1..];
            assert a[j] in b[1..];
            var k :| 0 <= k < |b[1..]| && b[1..][k] == a[j];
            assert p(b[0], b[k + 1]);
          }
        }
      } else {
        PairwiseSubseq(a, b[1..], p);
      }
    }
  }

  // ---------------------------------------------------------------------------
  // Order-preserving filter (a loop that appends the items passing a test)

  function Filter<T>(s: seq<T>, p: T -> bool): (r: seq<T>)
    ensures |r| <= |s|
    ensures forall i :: 0 <= i < |r| ==> p(r[i])
  {
    if s == [] then [] else Filter(s[..|s| - 1], p) + (if p(s[|s| - 1]) then [s[|s| - 1]] else [])
  }

  /** The filter keeps exactly the passing elements, in their original order. */
  lemma {:induction false} FilterExact<T>(s: seq<T>, p: T -> bool)
    ensures IsSubseq(Filter(s, p), s)
    ensures forall i :: 0 <= i < |s| && p(s[i]) ==> s[i] in Filter(s, p)
    ensures forall x :: x in Filter(s, p) ==> x in s && p(x)
  {
    if s != [] {
      var q := s[..|s| - 1];
      var x := s[|s| - 1];
      FilterExact(q, p);
      assert s == q + [x];
      if p(x) {
        SubseqKeepLast(Filter(q, p), q, x);
        assert Filter(s, p) == Filter(q, p) + [x];
      } else {
        SubseqDropLast(Filter(q, p), q, x);
        assert Filter(s, p) == Filter(q, p);
      }
      assert IsSubseq(Filter(s, p), s);
      SubseqMembers(Filter(s, p), s);
      forall i | 0 <= i < |s| && p(s[i]) ensures s[i] in Filter(s, p) {
        if i < |s| - 1 { assert s[i] == q[i]; }
      }
    }
  }

  lemma FilterStep<T>(s: seq<T>, i: nat, p: T -> bool)
    requires i < |s|
    ensures Filter(s[..i + 1], p) == Filter(s[..i], p) + (if p(s[i]) then [s[i]] else [])
  {
    assert s[..i + 1][..i] == s[..i];
  }

  /** `[f(x) for x in s]`. */
  function Map<T, U>(s: seq<T>, f: T -> U): (r: seq<U>)
    ensures |r| == |s|
    ensures forall i :: 0 <= i < |s| ==> r[i] == f(s[i])
  {
    if s == [] then [] else Map(s[..|s| - 1], f) + [f(s[|s| - 1])]
  }

  lemma MapSnoc<T, U>(s: seq<T>, x: T, f: T -> U)
    ensures Map(s + [x], f) == Map(s, f) + [f(x)]
  {
    assert (s + [x])[..|s|] == s;
  }

  /** `[f(x) for x in s if p(x)]`. */
  function Collect<T, U>(s: seq<T>, p: T -> bool, f: T -> U): (r: seq<U>)
    ensures |r| <= |s|
  {
    if s == [] then [] else Collect(s[..|s| - 1], p, f) + (if p(s[|s| - 1]) then [f(s[|s| - 1])] else [])
  }

  lemma CollectStep<T, U>(s: seq<T>, i: nat, p: T -> bool, f: T -> U)
    requires i < |s|
    ensures Collect(s[..i + 1], p, f) == Collect(s[..i], p, f) + (if p(s[i]) then [f(s[i])] else [])
  {
    assert s[..i + 1][..i] == s[..i];
  }

  /** The comprehension maps `f` over the elements that pass the filter. */
  lemma {:induction false} CollectIsMapFilter<T, U>(s: seq<T>, p: T -> bool, f: T -> U)
    ensures Collect(s, p, f) == Map(Filter(s, p), f)
  {
    if s != [] {
      var n := |s| - 1;
      CollectIsMapFilter(s[..n], p, f);
      if p(s[n]) {
        MapSnoc(Filter(s[..n], p), s[n], f);
      }
    }
  }

  /** The elements whose class is `c`. */
  function ClassIs<T, C(==)>(cls: T -> C, c: C): T -> bool
  {
    (x: T) => cls(x) == c
  }

  /**
   * Filtering by each of four distinct classes that cover every element
   * splits the list: together the four filters have exactly its length.
   */
  lemma {:induction false} FilterPartition4<T, C>(s: seq<T>, cls: T -> C, a: C, b: C, c: C, d: C)
    requires a != b && a != c && a != d && b != c && b != d && c != d
    requires forall i :: 0 <= i < |s| ==> cls(s[i]) == a || cls(s[i]) == b || cls(s[i]) == c || cls(s[i]) == d
    ensures |Filter(s, ClassIs(cls, a))| + |Filter(s, ClassIs(cls, b))|
      + |Filter(s, ClassIs(cls, c))| + |Filter(s, ClassIs(cls, d))| == |s|
  {
    if s != [] {
      var q := s[..|s| - 1];
      assert forall i :: 0 <= i < |q| ==> q[i] == s[i];
      FilterPartition4(q, cls, a, b, c, d);
    }
  }

  /** The four filters of FilterPartition4 hold, between them, each element of the list exactly once. */
  lemma {:induction false} FilterPartition4Multiset<T, C>(s: seq<T>, cls: T -> C, a: C, b: C, c: C, d: C)
    requires a != b && a != c && a != d && b != c && b != d && c != d
    requires forall i :: 0 <= i < |s| ==> cls(s[i]) == a || cls(s[i]) == b || cls(s[i]) == c || cls(s[i]) == d
    ensures multiset(Filter(s, ClassIs(cls, a))) + multiset(Filter(s, ClassIs(cls, b)))
      + multiset(Filter(s, ClassIs(cls, c))) + multiset(Filter(s, ClassIs(cls, d))) == multiset(s)
  {
    if s != [] {
      var q, x := s[..|s| - 1], s[|s| - 1];
      assert forall i :: 0 <= i < |q| ==> q[i] == s[i];
      FilterPartition4Multiset(q, cls, a, b, c, d);
      assert s == q + [x];
      Partition4Step(x, multiset(Filter(q, ClassIs(cls, a))), multiset(Filter(q, ClassIs(cls, b))),
        multiset(Filter(q, ClassIs(cls, c))), multiset(Filter(q, ClassIs(cls, d))),
        multiset(Filter(s, ClassIs(cls, a))), multiset(Filter(s, ClassIs(cls, b))),
        multiset(Filter(s, ClassIs(cls, c))), multiset(Filter(s, ClassIs(cls, d))),
        multiset(q), multiset(s), cls(x) == a, cls(x) == b, cls(x) == c, cls(x) == d);
    }
  }

  /** The multiset bookkeeping of FilterPartition4Multiset: the new element joins exactly one of four parts. */
  lemma Partition4Step<T>(x: T, ma: multiset<T>, mb: multiset<T>, mc: multiset<T>, md: multiset<T>,
                          ma': multiset<T>, mb': multiset<T>, mc': multiset<T>, md': multiset<T>,
                          m: multiset<T>, m': multiset<T>, pa: bool, pb: bool, pc: bool, pd: bool)
    requires ma + mb + mc + md == m && m' == m + multiset{x}
    requires ma' == ma + (if pa then multiset{x} else multiset{}) && mb' == mb + (if pb then multiset{x} else multiset{})
    requires mc' == mc + (if pc then multiset{x} else multiset{}) && md' == md + (if pd then multiset{x} else multiset{})
    requires (pa || pb || pc || pd) && !(pa && pb) && !(pa && pc) && !(pa && pd) && !(pb && pc) && !(pb && pd) && !(pc && pd)
    ensures ma' + mb' + mc' + md' == m'
  {
  }

  /** `sum(g(x) for x in s if p(x))`. */
  function SumWhere<T>(s: seq<T>, p: T -> bool, g: T -> real): real
  {
    if s == [] then 0.0 else SumWhere(s[..|s| - 1], p, g) + (if p(s[|s| - 1]) then g(s[|s| - 1]) else 0.0)
  }

  lemma SumWhereStep<T>(s: seq<T>, i: nat, p: T -> bool, g: T -> real)
    requires i < |s|
    ensures SumWhere(s[..i + 1], p, g) == SumWhere(s[..i], p, g) + (if p(s[i]) then g(s[i]) else 0.0)
  {
    assert s[..i + 1][..i] == s[..i];
  }

  function SumMap<T>(s: seq<T>, g: T -> real): real
  {
    if s == [] then 0.0 else SumMap(s[..|s| - 1], g) + g(s[|s| - 1])
  }

  /** A conditional sum is the sum over the filtered list. */
  lemma {:induction false} SumWhereFilter<T>(s: seq<T>, p: T -> bool, g: T -> real)
    ensures SumWhere(s, p, g) == SumMap(Filter(s, p), g)
  {
    if s != [] {
      var q := s[..|s| - 1];
      var x := s[|s| - 1];
      SumWhereFilter(q, p, g);
      var f := Filter(q, p);
      if p(x) {
        assert (f + [x])[..|f|] == f;
      } else {
        assert f + [] == f;
      }
    }
  }

  /** With non-negative terms a conditional sum is non-negative. */
  lemma {:induction false} SumWhereNonNegative<T>(s: seq<T>, p: T -> bool, g: T -> real)
    requires forall i :: 0 <= i < |s| ==> g(s[i]) >= 0.0
    ensures SumWhere(s, p, g) >= 0.0
  {
    if s != [] {
      assert forall i :: 0 <= i < |s| - 1 ==> s[..|s| - 1][i] == s[i];
      SumWhereNonNegative(s[..|s| - 1], p, g);
    }
  }

  /** A list sorted descending by a real key is ordered between any two positions. */
  lemma {:induction false} SortedRealGlobal<T>(s: seq<T>, key: T -> real, i: int, j: int)
    requires SortedDesc(s, key, RealLess)
    requires 0 <= i <= j < |s|
    ensures key(s[i]) >= key(s[j])
    decreases j - i
  {
    if i < j {
      SortedRealGlobal(s, key, i + 1, j);
    }
  }

  /** In a list sorted descending by a string key, no later key exceeds an earlier one. */
  lemma {:induction false} SortedStrGlobal<T>(s: seq<T>, key: T -> string, i: int, j: int)
    requires SortedDesc(s, key, StrLess)
    requires 0 <= i <= j < |s|
    ensures !StrLess(key(s[i]), key(s[j]))
    decreases j - i
  {
    if i == j {
      StrLessIrreflexive(key(s[i]));
    } else {
      SortedStrGlobal(s, key, i + 1, j);
      var a, b, c := key(s[i]), key(s[i + 1]), key(s[j]);
      StrLessTotal(a, b);
      if StrLess(a, c) && StrLess(b, a) {
        StrLessTrans(b, a, c);
      }
    }
  }

  /** Of a list sorted descending by a string key, no element after the first `n` has a greater key than one of them. */
  lemma TopOfSortedStr<T>(sorted: seq<T>, key: T -> string, n: nat)
    requires SortedDesc(sorted, key, StrLess)
    ensures forall x, y :: x in sorted && x !in Take(sorted, n) && y in Take(sorted, n) ==> !StrLess(key(y), key(x))
  {
    var top := Take(sorted, n);
    forall x, y | x in sorted && x !in top && y in top
      ensures !StrLess(key(y), key(x))
    {
      var j :| 0 <= j < |sorted| && sorted[j] == x;
      var i :| 0 <= i < |top| && top[i] == y;
      assert j >= |top|;
      SortedStrGlobal(sorted, key, i, j);
    }
  }

  /**
   * The first `n` of a list sorted newest first by a string key: at most `n` of the
   * list's elements, still sorted, and no element left out has a greater key than one kept.
   */
  lemma TopByStr<T>(s: seq<T>, key: T -> string, n: nat)
    ensures var top := Take(SortDesc(s, key, StrLess), n);
      |top| == (if |s| <= n then |s| else n) && multiset(top) <= multiset(s) && SortedDesc(top, key, StrLess)
      && forall x, y :: x in s && x !in top && y in top ==> !StrLess(key(y), key(x))
  {
    var sorted := SortDesc(s, key, StrLess);
    var top := Take(sorted, n);
    StrLessIsAsym();
    SortDescSorted(s, key, StrLess);
    assert sorted == top + sorted[|top|..];
    assert multiset(sorted) == multiset(top) + multiset(sorted[|top|..]);
    forall i | 0 <= i < |top| - 1 ensures !StrLess(key(top[i]), key(top[i + 1])) {
      assert top[i] == sorted[i] && top[i + 1] == sorted[i + 1];
    }
    TopOfSortedStr(sorted, key, n);
    forall x, y | x in s && x !in top && y in top ensures !StrLess(key(y), key(x)) {
      assert x in multiset(s);
      assert x in sorted;
    }
  }

  lemma {:induction false} SortedIntGlobal<T>(s: seq<T>, key: T -> int, i: int, j: int)
    requires SortedDesc(s, key, IntLess)
    requires 0 <= i <= j < |s|
    ensures key(s[i]) >= key(s[j])
    decreases j - i
  {
    if i < j {
      SortedIntGlobal(s, key, i + 1, j);
    }
  }

  /**
   * The first `n` of a list sorted by descending integer count (`most_common(n)`): as many
   * as the list allows, distinct when the list is, and no element left out counts more than one kept.
   */
  lemma TopByInt<T>(s: seq<T>, key: T -> int, n: nat)
    ensures var top := Take(SortDesc(s, key, IntLess), n);
      |top| == (if |s| <= n then |s| else n) && (forall x :: x in top ==> x in s)
      && forall x, y :: x in s && x !in top && y in top ==> key(x) <= key(y)
  {
    var sorted := SortDesc(s, key, IntLess);
    var top := Take(sorted, n);
    IntLessAsym();
    SortDescSorted(s, key, IntLess);
    SortDescMembers(s, key, IntLess);
    forall x, y | x in s && x !in top && y in top ensures key(x) <= key(y) {
      var j :| 0 <= j < |sorted| && sorted[j] == x;
      var i :| 0 <= i < |top| && top[i] == y;
      assert j >= |top|;
      SortedIntGlobal(sorted, key, i, j);
    }
  }

  /**
   * The first `n` of a list sorted by descending real key: as many as the list allows, taken
   * from it, heaviest first, and no element left out weighs more than one kept.
   */
  lemma TopByReal<T>(s: seq<T>, key: T -> real, n: nat)
    ensures var top := Take(SortDesc(s, key, RealLess), n);
      |top| == (if |s| <= n then |s| else n) && (forall x :: x in top ==> x in s)
      && (forall i, j :: 0 <= i < j < |top| ==> key(top[i]) >= key(top[j]))
      && forall x, y :: x in s && x !in top && y in top ==> key(x) <= key(y)
  {
    var sorted := SortDesc(s, key, RealLess);
    var top := Take(sorted, n);
    RealLessAsym();
    SortDescSorted(s, key, RealLess);
    SortDescMembers(s, key, RealLess);
    forall i, j | 0 <= i < j < |top| ensures key(top[i]) >= key(top[j]) {
      SortedRealGlobal(sorted, key, i, j);
    }
    forall x, y | x in s && x !in top && y in top ensures key(x) <= key(y) {
      var j :| 0 <= j < |sorted| && sorted[j] == x;
      var i :| 0 <= i < |top| && top[i] == y;
      assert j >= |top|;
      SortedRealGlobal(sorted, key, i, j);
    }
  }

  /** Filtering keeps a descending order by a real key. */
  lemma {:induction false} FilterSortedReal<T>(s: seq<T>, p: T -> bool, key: T -> real)
    requires SortedDesc(s, key, RealLess)
    ensures SortedDesc(Filter(s, p), key, RealLess)
  {
    if s != [] {
      var q := s[..|s| - 1];
      var x := s[|s| - 1];
      SortedPrefixReal(s, key);
      FilterSortedReal(q, p, key);
      var f := Filter(q, p);
      if p(x) {
        if f != [] {
          FilterExact(q, p);
          var last := f[|f| - 1];
          assert last in q;
          var j :| 0 <= j < |q| && q[j] == last;
          SortedRealGlobal(s, key, j, |s| - 1);
          assert s[j] == last;
        }
        SortedSnocReal(f, x, key);
        assert Filter(s, p) == f + [x];
      } else {
        assert Filter(s, p) == f + [];
      }
    }
  }

  lemma SortedPrefixReal<T>(s: seq<T>, key: T -> real)
    requires s != [] && SortedDesc(s, key, RealLess)
    ensures SortedDesc(s[..|s| - 1], key, RealLess)
  {
    var q := s[..|s| - 1];
    forall i | 0 <= i < |q| - 1 ensures !RealLess(key(q[i]), key(q[i + 1])) {
      assert q[i] == s[i] && q[i + 1] == s[i + 1];
    }
  }

  lemma SortedSnocReal<T>(f: seq<T>, x: T, key: T -> real)
    requires SortedDesc(f, key, RealLess)
    requires f != [] ==> key(f[|f| - 1]) >= key(x)
    ensures SortedDesc(f + [x], key, RealLess)
  {
    var g := f + [x];
    forall i | 0 <= i < |g| - 1 ensures !RealLess(key(g[i]), key(g[i + 1])) {
      if i < |f| - 1 {
        assert g[i] == f[i] && g[i + 1] == f[i + 1];
      }
    }
  }

  /** Concatenation of a list of lists. */
  function Flatten<T>(ss: seq<seq<T>>): seq<T>
  {
    if ss == [] then [] else Flatten(ss[..|ss| - 1]) + ss[|ss| - 1]
  }

  lemma GreedySnoc<T>(s: seq<T>, x: T, keep: (seq<T>, T) -> bool)
    ensures Greedy(s + [x], keep) == (if keep(Greedy(s, keep), x) then Greedy(s, keep) + [x] else Greedy(s, keep))
  {
    assert (s + [x])[..|s|] == s;
  }

  // ---------------------------------------------------------------------------
  // Per-key caps

  /** How many elements of `acc` have key `d`. */
  function KeyCount<T, K(==)>(acc: seq<T>, key: T -> K, d: K): nat
  {
    if acc == [] then 0 else KeyCount(acc[..|acc| - 1], key, d) + (if key(acc[|acc| - 1]) == d then 1 else 0)
  }

  lemma {:induction false} KeyCountAppend<T, K>(a: seq<T>, b: seq<T>, key: T -> K, d: K)
    ensures KeyCount(a + b, key, d) == KeyCount(a, key, d) + KeyCount(b, key, d)
    decreases |b|
  {
    if b == [] {
      assert a + b == a;
    } else {
      var q := b[..|b| - 1];
      KeyCountAppend(a, q, key, d);
      assert (a + b)[..|a + b| - 1] == a + q;
      assert (a + b)[|a + b| - 1] == b[|b| - 1];
    }
  }

  /** No element with key `d` means a count of zero. */
  lemma {:induction false} KeyCountNone<T, K>(a: seq<T>, key: T -> K, d: K)
    requires forall k :: 0 <= k < |a| ==> key(a[k]) != d
    ensures KeyCount(a, key, d) == 0
  {
    if a != [] {
      KeyCountNone(a[..|a| - 1], key, d);
    }
  }

  /** An element with key `d` means a count of at least one. */
  lemma {:induction false} KeyCountSome<T, K>(a: seq<T>, key: T -> K, d: K, k: nat)
    requires k < |a| && key(a[k]) == d
    ensures KeyCount(a, key, d) >= 1
  {
    if k < |a| - 1 {
      KeyCountSome(a[..|a| - 1], key, d, k);
    }
  }

  /** `counts.get(d, 0)` */
  function CountIn<K>(counts: map<K, nat>, d: K): nat
  {
    if d in counts then counts[d] else 0
  }

  /** The counter dict after counting the keys of `acc`. */
  function KeyCounts<T, K(==)>(acc: seq<T>, key: T -> K): map<K, nat>
  {
    if acc == [] then map[]
    else
      var m := KeyCounts(acc[..|acc| - 1], key);
      var d := key(acc[|acc| - 1]);
      m[d := CountIn(m, d) + 1]
  }

  /** A greedy step keeps `x` while fewer than `cap` kept elements share its key. */
  function CapKeep<T, K(==)>(key: T -> K, cap: nat): (seq<T>, T) -> bool
  {
    (acc: seq<T>, x: T) => KeyCount(acc, key, key(x)) < cap
  }

  lemma {:induction false} KeyCountsExact<T, K>(acc: seq<T>, key: T -> K, d: K)
    ensures CountIn(KeyCounts(acc, key), d) == KeyCount(acc, key, d)
  {
    if acc != [] {
      KeyCountsExact(acc[..|acc| - 1], key, d);
    }
  }

  /** Counting one more element bumps its key's entry of the counter dict. */
  lemma KeyCountsSnoc<T, K>(acc: seq<T>, x: T, key: T -> K)
    ensures KeyCounts(acc + [x], key) == KeyCounts(acc, key)[key(x) := CountIn(KeyCounts(acc, key), key(x)) + 1]
  {
    var acc' := acc + [x];
    assert acc'[..|acc'| - 1] == acc && acc'[|acc'| - 1] == x;
  }

  /** One step of the capping loop, with the counter dict kept equal to KeyCounts of the kept elements. */
  lemma CapLoopStep<T, K>(s: seq<T>, i: nat, key: T -> K, cap: nat, acc: seq<T>)
    requires i < |s| && acc == Greedy(s[..i], CapKeep(key, cap))
    ensures var c := CountIn(KeyCounts(acc, key), key(s[i]));
      Greedy(s[..i + 1], CapKeep(key, cap)) == (if c < cap then acc + [s[i]] else acc)
      && KeyCounts(acc + [s[i]], key) == KeyCounts(acc, key)[key(s[i]) := c + 1]
  {
    var x := s[i];
    GreedyStep(s, i, CapKeep(key, cap));
    KeyCountsExact(acc, key, key(x));
    assert CapKeep(key, cap)(acc, x) == (KeyCount(acc, key, key(x)) < cap);
    KeyCountsSnoc(acc, x, key);
  }

  /** No key occurs more than `cap` times among the kept elements. */
  lemma {:induction false} CapBound<T, K>(s: seq<T>, key: T -> K, cap: nat, d: K)
    ensures KeyCount(Greedy(s, CapKeep(key, cap)), key, d) <= cap
  {
    if s != [] {
      var acc := Greedy(s[..|s| - 1], CapKeep(key, cap));
      CapBound(s[..|s| - 1], key, cap, d);
      if CapKeep(key, cap)(acc, s[|s| - 1]) {
        assert (acc + [s[|s| - 1]])[..|acc|] == acc;
      }
    }
  }

  // ---------------------------------------------------------------------------
  // Sums

  function SumReal(s: seq<real>): real
  {
    if s == [] then 0.0 else SumReal(s[..|s| - 1]) + s[|s| - 1]
  }

  lemma SumRealAppend(s: seq<real>, x: real)
    ensures SumReal(s + [x]) == SumReal(s) + x
  {
    assert (s + [x])[..|s|] == s;
  }

  function SeqOf<T>(n: nat, x: T): (r: seq<T>)
    ensures |r| == n
    ensures forall i :: 0 <= i < n ==> r[i] == x
  {
    if n == 0 then [] else SeqOf(n - 1, x) + [x]
  }
  // ---------------------------------------------------------------------------
  // Lists of lists

  lemma FlattenSnoc<T>(ss: seq<seq<T>>, x: seq<T>)
    ensures Flatten(ss + [x]) == Flatten(ss) + x
  {
    assert (ss + [x])[..|ss|] == ss;
  }

  lemma {:induction false} FlattenAppend<T>(a: seq<seq<T>>, b: seq<seq<T>>)
    ensures Flatten(a + b) == Flatten(a) + Flatten(b)
  {
    if b == [] {
      assert a + b == a;
    } else {
      var q, y := b[..|b| - 1], b[|b| - 1];
      assert b == q + [y];
      assert a + b == (a + q) + [y];
      calc {
        Flatten(a + b);
        { FlattenSnoc(a + q, y); }
        Flatten(a + q) + y;
        { FlattenAppend(a, q); }
        Flatten(a) + Flatten(q) + y;
        { FlattenSnoc(q, y); }
        Flatten(a) + Flatten(b);
      }
    }
  }

  lemma FlattenCons<T>(x: seq<T>, ss: seq<seq<T>>)
    ensures Flatten([x] + ss) == x + Flatten(ss)
  {
    FlattenAppend([x], ss);
    assert Flatten([x]) == Flatten([]) + x;
  }

  /** Inserting a list into a list of lists adds its elements to the concatenation. */
  lemma {:induction false} FlattenInsertDesc<T, K>(x: seq<T>, s: seq<seq<T>>, key: seq<T> -> K, less: (K, K) -> bool)
    ensures multiset(Flatten(InsertDesc(x, s, key, less))) == multiset(x) + multiset(Flatten(s))
  {
    if s == [] {
      FlattenCons(x, s);
    } else if !less(key(x), key(s[0])) {
      FlattenCons(x, s);
    } else {
      FlattenInsertDesc(x, s[1..], key, less);
      FlattenCons(s[0], InsertDesc(x, s[1..], key, less));
      assert s == [s[0]] + s[1..];
      FlattenCons(s[0], s[1..]);
    }
  }

  /** Sorting a list of lists keeps the elements of its concatenation. */
  lemma {:induction false} FlattenSortDesc<T, K>(s: seq<seq<T>>, key: seq<T> -> K, less: (K, K) -> bool)
    ensures multiset(Flatten(SortDesc(s, key, less))) == multiset(Flatten(s))
  {
    if s != [] {
      FlattenSortDesc(s[1..], key, less);
      FlattenInsertDesc(s[0], SortDesc(s[1..], key, less), key, less);
      assert s == [s[0]] + s[1..];
      FlattenCons(s[0], s[1..]);
    }
  }

  /** The sum of the lengths of the lists. */
  function SizeSum<T>(ss: seq<seq<T>>): nat
  {
    if ss == [] then 0 else SizeSum(ss[..|ss| - 1]) + |ss[|ss| - 1]|
  }

  lemma {:induction false} SizeSumFlatten<T>(ss: seq<seq<T>>)
    ensures SizeSum(ss) == |Flatten(ss)|
  {
    if ss != [] {
      SizeSumFlatten(ss[..|ss| - 1]);
    }
  }

  /** `[[x] for x in s]`. */
  function Singletons<T>(s: seq<T>): (r: seq<seq<T>>)
    ensures |r| == |s|
    ensures forall i :: 0 <= i < |s| ==> r[i] == [s[i]]
  {
    if s == [] then [] else Singletons(s[..|s| - 1]) + [[s[|s| - 1]]]
  }

  lemma {:induction false} FlattenSingletons<T>(s: seq<T>)
    ensures Flatten(Singletons(s)) == s
  {
    if s != [] {
      var q := s[..|s| - 1];
      FlattenSingletons(q);
      assert Singletons(s)[..|s| - 1] == Singletons(q);
      assert s == q + [s[|s| - 1]];
    }
  }

  // ---------------------------------------------------------------------------
  // Grouping by label (`groups.setdefault(label, []).append(x)` over a list)

  /** The elements of `s` whose label is `k`, in order. */
  function Labelled<T, K(==)>(s: seq<T>, labels: seq<K>, k: K): (r: seq<T>)
    requires |labels| == |s|
    ensures |r| <= |s|
  {
    if s == [] then []
    else Labelled(s[..|s| - 1], labels[..|s| - 1], k) + (if labels[|s| - 1] == k then [s[|s| - 1]] else [])
  }

  /** One group per key of `ks`, in the order of `ks`. */
  function GroupsFor<T, K(==)>(s: seq<T>, labels: seq<K>, ks: seq<K>): (r: seq<seq<T>>)
    requires |labels| == |s|
    ensures |r| == |ks|
  {
    if ks == [] then [] else GroupsFor(s, labels, ks[..|ks| - 1]) + [Labelled(s, labels, ks[|ks| - 1])]
  }

  /** Group `i` is the group of key `ks[i]`. */
  lemma {:induction false} GroupsForAt<T, K>(s: seq<T>, labels: seq<K>, ks: seq<K>)
    requires |labels| == |s|
    ensures forall i :: 0 <= i < |ks| ==> GroupsFor(s, labels, ks)[i] == Labelled(s, labels, ks[i])
  {
    if ks != [] {
      GroupsForAt(s, labels, ks[..|ks| - 1]);
    }
  }

  /** The groups, ordered by the first occurrence of their label (the dict's insertion order). */
  function GroupByLabel<T, K(==)>(s: seq<T>, labels: seq<K>): seq<seq<T>>
    requires |labels| == |s|
  {
    GroupsFor(s, labels, Dedup(labels))
  }

  lemma LabelledStep<T, K>(s: seq<T>, labels: seq<K>, i: nat, k: K)
    requires |labels| == |s| && i < |s|
    ensures Labelled(s[..i + 1], labels[..i + 1], k) ==
      Labelled(s[..i], labels[..i], k) + (if labels[i] == k then [s[i]] else [])
  {
    assert s[..i + 1][..i] == s[..i];
    assert labels[..i + 1][..i] == labels[..i];
  }

  /** A label that occurs has a non-empty group. */
  lemma {:induction false} LabelledNonEmpty<T, K>(s: seq<T>, labels: seq<K>, k: K)
    requires |labels| == |s| && k in labels
    ensures Labelled(s, labels, k) != []
  {
    var n := |s|;
    if labels[n - 1] != k {
      assert k in labels[..n - 1] by {
        var j :| 0 <= j < n && labels[j] == k;
        assert labels[..n - 1][j] == k;
      }
      LabelledNonEmpty(s[..n - 1], labels[..n - 1], k);
    }
  }

  /** A label that does not occur has an empty group. */
  lemma {:induction false} LabelledAbsent<T, K>(s: seq<T>, labels: seq<K>, k: K)
    requires |labels| == |s| && k !in labels
    ensures Labelled(s, labels, k) == []
  {
    if s != [] {
      var n := |s|;
      var p := labels[..n - 1];
      assert k !in p by {
        forall j | 0 <= j < |p| ensures p[j] != k { assert p[j] == labels[j]; }
      }
      LabelledAbsent(s[..n - 1], labels[..n - 1], k);
    }
  }

  lemma {:induction false} GroupsForNoElements<T, K>(s: seq<T>, labels: seq<K>, ks: seq<K>)
    requires s == [] && labels == []
    ensures Flatten(GroupsFor(s, labels, ks)) == []
  {
    if ks != [] {
      GroupsForNoElements(s, labels, ks[..|ks| - 1]);
    }
  }

  lemma NoDupPrefix<T>(s: seq<T>)
    requires NoDup(s) && s != []
    ensures NoDup(s[..|s| - 1]) && s[|s| - 1] !in s[..|s| - 1]
  {
    var p := s[..|s| - 1];
    forall i, j | 0 <= i < j < |p| ensures p[i] != p[j] { assert p[i] == s[i] && p[j] == s[j]; }
    forall i | 0 <= i < |p| ensures p[i] != s[|s| - 1] { assert p[i] == s[i]; }
  }

  lemma LabelledSnoc<T, K>(s: seq<T>, labels: seq<K>, x: T, l: K, k: K)
    requires |labels| == |s|
    ensures Labelled(s + [x], labels + [l], k) == Labelled(s, labels, k) + (if l == k then [x] else [])
  {
    assert (s + [x])[..|s|] == s;
    assert (labels + [l])[..|s|] == labels;
  }

  lemma FlattenGroupsForSnoc<T, K>(s: seq<T>, labels: seq<K>, ks: seq<K>)
    requires |labels| == |s| && ks != []
    ensures Flatten(GroupsFor(s, labels, ks)) ==
      Flatten(GroupsFor(s, labels, ks[..|ks| - 1])) + Labelled(s, labels, ks[|ks| - 1])
  {
    FlattenSnoc(GroupsFor(s, labels, ks[..|ks| - 1]), Labelled(s, labels, ks[|ks| - 1]));
  }

  /** The multiset bookkeeping of GroupsForSnoc, over plain sequences and flags. */
  lemma MultisetSnocPair<T>(inP: bool, isK: bool, inKs: bool, x: T, f: seq<T>, f2: seq<T>, a: seq<T>, a2: seq<T>, b: seq<T>)
    requires inKs == (inP || isK) && (isK ==> !inP)
    requires f == a + b && f2 == a2 + (b + (if isK then [x] else []))
    requires multiset(a2) == multiset(a) + (if inP then multiset{x} else multiset{})
    ensures multiset(f2) == multiset(f) + (if inKs then multiset{x} else multiset{})
  {
  }

  /** One more labelled element joins exactly the group of its label. */
  lemma {:induction false} GroupsForSnoc<T, K>(s: seq<T>, labels: seq<K>, x: T, l: K, ks: seq<K>)
    requires |labels| == |s| && NoDup(ks)
    ensures multiset(Flatten(GroupsFor(s + [x], labels + [l], ks))) ==
      multiset(Flatten(GroupsFor(s, labels, ks))) + (if l in ks then multiset{x} else multiset{})
  {
    if ks != [] {
      var p := ks[..|ks| - 1];
      var k := ks[|ks| - 1];
      NoDupPrefix(ks);
      GroupsForSnoc(s, labels, x, l, p);
      InSnoc(ks, l);
      GroupsForSnocShape(s, labels, x, l, ks);
      MultisetSnocPair(l in p, l == k, l in ks, x, Flatten(GroupsFor(s, labels, ks)), Flatten(GroupsFor(s + [x], labels + [l], ks)),
        Flatten(GroupsFor(s, labels, p)), Flatten(GroupsFor(s + [x], labels + [l], p)), Labelled(s, labels, k));
    }
  }

  /** The flattened groups with one more element, split at the last key. */
  lemma GroupsForSnocShape<T, K>(s: seq<T>, labels: seq<K>, x: T, l: K, ks: seq<K>)
    requires |labels| == |s| && ks != []
    ensures var p, k := ks[..|ks| - 1], ks[|ks| - 1];
      && Flatten(GroupsFor(s, labels, ks)) == Flatten(GroupsFor(s, labels, p)) + Labelled(s, labels, k)
      && Flatten(GroupsFor(s + [x], labels + [l], ks))
        == Flatten(GroupsFor(s + [x], labels + [l], p)) + (Labelled(s, labels, k) + (if l == k then [x] else []))
  {
    FlattenGroupsForSnoc(s + [x], labels + [l], ks);
    FlattenGroupsForSnoc(s, labels, ks);
    LabelledSnoc(s, labels, x, l, ks[|ks| - 1]);
  }

  lemma InSnoc<T>(s: seq<T>, x: T)
    requires s != []
    ensures x in s <==> x in s[..|s| - 1] || x == s[|s| - 1]
  {
    assert s == s[..|s| - 1] + [s[|s| - 1]];
  }

  /** Groups over distinct keys that cover every label hold every element exactly once. */
  lemma {:induction false} GroupsForCover<T, K>(s: seq<T>, labels: seq<K>, ks: seq<K>)
    requires |labels| == |s| && NoDup(ks)
    requires forall i :: 0 <= i < |labels| ==> labels[i] in ks
    ensures multiset(Flatten(GroupsFor(s, labels, ks))) == multiset(s)
  {
    if s == [] {
      GroupsForNoElements(s, labels, ks);
    } else {
      var n := |s|;
      var q, lq := s[..n - 1], labels[..n - 1];
      assert s == q + [s[n - 1]];
      assert labels == lq + [labels[n - 1]];
      assert forall i :: 0 <= i < |lq| ==> lq[i] in ks by {
        forall i | 0 <= i < |lq| ensures lq[i] in ks { assert lq[i] == labels[i]; }
      }
      GroupsForCover(q, lq, ks);
      GroupsForSnoc(q, lq, s[n - 1], labels[n - 1], ks);
    }
  }

  /** Grouping by label partitions the list into non-empty groups. */
  lemma GroupByLabelPartition<T, K>(s: seq<T>, labels: seq<K>)
    requires |labels| == |s|
    ensures multiset(Flatten(GroupByLabel(s, labels))) == multiset(s)
    ensures [] !in GroupByLabel(s, labels)
  {
    var ks := Dedup(labels);
    DedupIndices(labels);
    GroupsForCover(s, labels, ks);
    GroupsNonEmpty(s, labels, ks);
  }

  lemma GroupsNonEmpty<T, K>(s: seq<T>, labels: seq<K>, ks: seq<K>)
    requires |labels| == |s|
    requires forall i :: 0 <= i < |ks| ==> ks[i] in labels
    ensures [] !in GroupsFor(s, labels, ks)
  {
    GroupsForAt(s, labels, ks);
    var g := GroupsFor(s, labels, ks);
    forall i | 0 <= i < |ks| ensures g[i] != [] {
      LabelledNonEmpty(s, labels, ks[i]);
    }
  }
  // ---------------------------------------------------------------------------
  // Integer division as Python and JavaScript write it

  /** Python's `a // b`: the quotient rounded towards minus infinity. */
  function FloorDiv(a: int, b: int): (q: int)
    requires b != 0
    ensures b > 0 ==> b * q <= a < b * q + b
    ensures b < 0 ==> b * q + b < a <= b * q
  {
    if b > 0 then a / b else (-a) / (-b)
  }

  /** Python's `int(x)` on a float: truncation towards zero. */
  function Truncate(r: real): (n: int)
    ensures r >= 0.0 ==> n as real <= r < n as real + 1.0
    ensures r < 0.0 ==> n as real - 1.0 < r <= n as real
  {
    if r >= 0.0 then r.Floor else -((-r).Floor)
  }
}
