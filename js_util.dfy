// JavaScript built-ins the Express backend and the React front ends rely on:
// `\s` and `String.prototype.trim`, UTF-16 `length`, `parseInt` without a
// radix, `Math.ceil(a / b)` and the `Math.min(Math.max(parseInt(x) || d, 1), 100)`
// page-size clamp the list routes share.

module JsUtil {
  import opened Util

  /** JavaScript's WhiteSpace and LineTerminator characters: what `\s` matches and `trim` removes. */
  predicate JsIsSpace(c: char)
  {
    c in JsSpaceChars
  }

  const JsSpaceChars: set<char> := {
    '\U{0009}', '\U{000A}', '\U{000B}', '\U{000C}', '\U{000D}', ' ', '\U{00A0}', '\U{1680}',
    '\U{2000}', '\U{2001}', '\U{2002}', '\U{2003}', '\U{2004}', '\U{2005}', '\U{2006}', '\U{2007}',
    '\U{2008}', '\U{2009}', '\U{200A}', '\U{2028}', '\U{2029}', '\U{202F}', '\U{205F}', '\U{3000}', '\U{FEFF}'
  }

  predicate AllSpace(s: string)
  {
    forall k :: 0 <= k < |s| ==> JsIsSpace(s[k])
  }

  /** The number of leading whitespace characters. */
  function LeadingSpaces(s: string): (n: nat)
    ensures n <= |s| && forall k :: 0 <= k < n ==> JsIsSpace(s[k])
    ensures n < |s| ==> !JsIsSpace(s[n])
    decreases |s|
  {
    if s != [] && JsIsSpace(s[0]) then
      var n := LeadingSpaces(s[1..]);
      assert forall k :: 1 <= k < n + 1 ==> s[k] == s[1..][k - 1];
      n + 1
    else 0
  }

  /** Where the whitespace that ends `s[i..e]` begins. */
  function TrailEnd(s: string, i: nat, e: nat): (r: nat)
    requires i <= e <= |s|
    ensures i <= r <= e && forall k :: r <= k < e ==> JsIsSpace(s[k])
    ensures r > i ==> !JsIsSpace(s[r - 1])
    decreases e
  {
    if e > i && JsIsSpace(s[e - 1]) then TrailEnd(s, i, e - 1) else e
  }

  /** `trimStart`. */
  function TrimStart(s: string): string
  {
    s[LeadingSpaces(s)..]
  }

  /** `trim`: the text between the leading and the trailing whitespace. */
  function Trim(s: string): string
  {
    s[LeadingSpaces(s)..TrailEnd(s, LeadingSpaces(s), |s|)]
  }

  /** `trim` cuts a run of whitespace off each end and keeps the middle: no whitespace is left at either end. */
  lemma TrimShape(s: string)
    ensures var i := LeadingSpaces(s);
      Trim(s) == s[i..i + |Trim(s)|] && forall k :: 0 <= k < |s| && !(i <= k < i + |Trim(s)|) ==> JsIsSpace(s[k])
    ensures Trim(s) != [] ==> !JsIsSpace(Trim(s)[0]) && !JsIsSpace(Trim(s)[|Trim(s)| - 1])
  {
    var i := LeadingSpaces(s);
    var j := TrailEnd(s, i, |s|);
    if j > i {
      assert Trim(s)[j - i - 1] == s[j - 1];
      assert Trim(s)[0] == s[i];
    }
  }

  /** `trim` yields "" exactly when the text is all whitespace. */
  lemma TrimEmpty(s: string)
    ensures Trim(s) == [] <==> forall k :: 0 <= k < |s| ==> JsIsSpace(s[k])
  {
    TrimShape(s);
  }

  /** `s.length`: UTF-16 code units, two for a character outside the Basic Multilingual Plane. */
  function Utf16Length(s: string): (n: nat)
    ensures n >= |s|
    ensures (forall k :: 0 <= k < |s| ==> (s[k] as int) < 0x10000) ==> n == |s|
  {
    if s == [] then 0 else Utf16Length(s[..|s| - 1]) + (if (s[|s| - 1] as int) < 0x10000 then 1 else 2)
  }

  // ---------------------------------------------------------------------------
  // parseInt(s) without a radix

  /** The longest prefix of ASCII decimal digits. */
  function DigitPrefix(s: string): (d: string)
    ensures d <= s && forall k :: 0 <= k < |d| ==> IsDigit(d[k])
    ensures |d| < |s| ==> !IsDigit(s[|d|])
  {
    if s != [] && IsDigit(s[0]) then [s[0]] + DigitPrefix(s[1..]) else []
  }

  predicate IsHexDigit(c: char)
  {
    IsDigit(c) || 'a' <= c <= 'f' || 'A' <= c <= 'F'
  }

  function HexDigitValue(c: char): (v: nat)
    ensures v < 16
  {
    if IsDigit(c) then c as int - '0' as int
    else if 'a' <= c <= 'f' then c as int - 'a' as int + 10
    else if 'A' <= c <= 'F' then c as int - 'A' as int + 10
    else 0
  }

  /** The longest prefix of hexadecimal digits. */
  function HexPrefix(s: string): (d: string)
    ensures d <= s && forall k :: 0 <= k < |d| ==> IsHexDigit(d[k])
    ensures |d| < |s| ==> !IsHexDigit(s[|d|])
  {
    if s != [] && IsHexDigit(s[0]) then [s[0]] + HexPrefix(s[1..]) else []
  }

  function HexValue(s: string): nat
  {
    if s == [] then 0 else HexValue(s[..|s| - 1]) * 16 + HexDigitValue(s[|s| - 1])
  }

  /** After the leading whitespace: whether a minus sign was read, and the text after the sign. */
  function SignSplit(t: string): (bool, string)
  {
    if t != [] && t[0] == '-' then (true, t[1..])
    else if t != [] && t[0] == '+' then (false, t[1..])
    else (false, t)
  }

  predicate HasHexPrefix(u: string)
  {
    |u| >= 2 && u[0] == '0' && (u[1] == 'x' || u[1] == 'X')
  }

  /**
   * `parseInt(s)`: leading whitespace is skipped, a sign is read, a `0x`/`0X` prefix
   * switches to base 16, and the longest run of digits that follows is the value;
   * `None` stands for NaN, when there is no digit. `-0` reads as 0.
   */
  function ParseInt(s: string): (r: Option<int>)
  {
    var (neg, u) := SignSplit(TrimStart(s));
    var digits := if HasHexPrefix(u) then HexPrefix(u[2..]) else DigitPrefix(u);
    var v := if HasHexPrefix(u) then HexValue(digits) else DigitsValue(digits);
    if digits == [] then None else Some(if neg then -v else v)
  }

  /** The digits `String(n)` prints read back as `n`. */
  lemma ParseIntNat(n: nat)
    ensures ParseInt(NatToString(n)) == Some(n)
  {
    var s := NatToString(n);
    NatToStringValue(n);
    assert IsDigit(s[0]);
    assert !HasHexPrefix(s) by {
      if |s| >= 2 {
        assert IsDigit(s[1]);
      }
    }
    ParseIntDecimal(s);
    DigitPrefixAll(s);
  }

  lemma {:induction false} DigitPrefixAll(s: string)
    requires forall k :: 0 <= k < |s| ==> IsDigit(s[k])
    ensures DigitPrefix(s) == s
  {
    if s != [] {
      DigitPrefixAll(s[1..]);
    }
  }

  /** Text whose first non-space character (after a sign) is not a digit is NaN. */
  lemma ParseIntNaN(s: string)
    requires var u := SignSplit(TrimStart(s)).1; u == [] || !IsDigit(u[0])
    ensures ParseInt(s).None?
  {
  }

  /** A plain decimal numeral reads as the number its digit prefix denotes; trailing text is ignored. */
  lemma ParseIntDecimal(s: string)
    requires s != [] && IsDigit(s[0]) && !HasHexPrefix(s)
    ensures ParseInt(s) == Some(DigitsValue(DigitPrefix(s)))
  {
    assert !JsIsSpace(s[0]);
    assert TrimStart(s) == s;
    assert SignSplit(s) == (false, s);
    assert DigitPrefix(s) != [];
  }

  // ---------------------------------------------------------------------------
  // Express replies

  /** An Express JSON reply: the HTTP status, its `success` flag and its `error` or `message` text. */
  datatype Reply = Reply(status: int, success: bool, text: string)

  // ---------------------------------------------------------------------------
  // Paging arithmetic

  /** `Math.ceil(a / b)` for a non-negative count and a positive page size. */
  function CeilDiv(a: nat, b: nat): (r: nat)
    requires b > 0
    ensures r * b >= a && (r == 0 || (r - 1) * b < a)
    ensures r == 0 <==> a == 0
  {
    if a % b == 0 then a / b else a / b + 1
  }

  /** `Math.min(Math.max(parseInt(raw) || fallback, 1), 100)`. */
  function PageLimit(raw: string, fallback: int): (l: int)
    ensures 1 <= l <= 100
  {
    var v := match ParseInt(raw) case Some(n) => if n == 0 then fallback else n case None => fallback;
    if v < 1 then 1 else if v > 100 then 100 else v
  }

  /** What the clamp does: NaN and 0 fall back, negatives become 1, numbers above 100 become 100, and 1..100 pass. */
  lemma PageLimitCases(raw: string, fallback: int)
    requires 1 <= fallback <= 100
    ensures ParseInt(raw).None? || ParseInt(raw) == Some(0) ==> PageLimit(raw, fallback) == fallback
    ensures ParseInt(raw).Some? && ParseInt(raw).value < 0 ==> PageLimit(raw, 1) == 1 && PageLimit(raw, fallback) == 1
    ensures ParseInt(raw).Some? && ParseInt(raw).value > 100 ==> PageLimit(raw, fallback) == 100
    ensures ParseInt(raw).Some? && 1 <= ParseInt(raw).value <= 100 ==> PageLimit(raw, fallback) == ParseInt(raw).value
  {
  }

  /** `LIMIT limit OFFSET offset` over rows in query order. */
  function Window<T>(m: seq<T>, offset: nat, limit: nat): (w: seq<T>)
    ensures |w| == (if offset >= |m| then 0 else if offset + limit <= |m| then limit else |m| - offset)
    ensures forall i :: 0 <= i < |w| ==> w[i] == m[offset + i]
  {
    if offset >= |m| then [] else m[offset..if offset + limit <= |m| then offset + limit else |m|]
  }

  /** `(page - 1) * limit` is a valid offset for a page of at least 1 ... */
  lemma PositiveProduct(a: int, b: int)
    requires a >= 0 && b >= 0
    ensures a * b >= 0
  {
  }

  /** ... and negative, an error in `OFFSET`, for a page below 1. */
  lemma NegativeProduct(a: int, b: int)
    requires a < 0 && b > 0
    ensures a * b < 0
  {
  }

  /** `(page - 1) * limit`, the `OFFSET` of a page: a valid one exactly for a page of at least 1. */
  function PageOffset(page: int, limit: int): (o: int)
    requires limit >= 1
    ensures o >= 0 <==> page >= 1
  {
    if page >= 1 then PositiveProduct(page - 1, limit); (page - 1) * limit
    else NegativeProduct(page - 1, limit); (page - 1) * limit
  }
}
