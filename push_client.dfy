/**
 * The web client's `urlBase64ToUint8Array`: the server's VAPID public key arrives in the
 * URL-safe base64 alphabet without padding (section 5 of RFC 4648); the client pads it, maps
 * it to the standard alphabet (section 4), decodes it with the browser's `atob` and copies
 * the character codes into a byte array.
 */
module PushClient {
  import opened Util
  import opened JsUtil

  // ---------------------------------------------------------------------------
  // Alphabets

  /** The standard alphabet of section 4 of RFC 4648. */
  function StdChar(v: nat): (c: char)
    requires v < 64
    ensures (c as int) < 128 && c != '='
  {
    if v < 26 then ('A' as int + v) as char
    else if v < 52 then ('a' as int + (v - 26)) as char
    else if v < 62 then ('0' as int + (v - 52)) as char
    else if v == 62 then '+'
    else '/'
  }

  /** The URL and filename safe alphabet of section 5 of RFC 4648. */
  function UrlChar(v: nat): (c: char)
    requires v < 64
    ensures (c as int) < 128 && UrlToStd(c) == StdChar(v)
  {
    if v == 62 then '-' else if v == 63 then '_' else StdChar(v)
  }

  /** The value of a character of the standard alphabet. */
  function StdValue(c: char): (r: Option<nat>)
    ensures r.Some? ==> r.value < 64 && StdChar(r.value) == c
  {
    if 'A' <= c <= 'Z' then Some(c as int - 'A' as int)
    else if 'a' <= c <= 'z' then Some(c as int - 'a' as int + 26)
    else if '0' <= c <= '9' then Some(c as int - '0' as int + 52)
    else if c == '+' then Some(62)
    else if c == '/' then Some(63)
    else None
  }

  lemma StdValueOfChar(v: nat)
    requires v < 64
    ensures StdValue(StdChar(v)) == Some(v)
  {
  }

  predicate Sextets(v: seq<nat>)
  {
    forall i :: 0 <= i < |v| ==> v[i] < 64
  }

  predicate IsBytes(b: seq<int>)
  {
    forall i :: 0 <= i < |b| ==> 0 <= b[i] < 256
  }

  function StdChars(v: seq<nat>): (r: string)
    requires Sextets(v)
    ensures |r| == |v| && forall i :: 0 <= i < |v| ==> r[i] == StdChar(v[i])
  {
    if v == [] then [] else StdChars(v[..|v| - 1]) + [StdChar(v[|v| - 1])]
  }

  function UrlChars(v: seq<nat>): (r: string)
    requires Sextets(v)
    ensures |r| == |v| && forall i :: 0 <= i < |v| ==> r[i] == UrlChar(v[i])
  {
    if v == [] then [] else UrlChars(v[..|v| - 1]) + [UrlChar(v[|v| - 1])]
  }

  // ---------------------------------------------------------------------------
  // The client's rewriting

  /** `(4 - (length % 4)) % 4`: the fewest '=' that make the length a multiple of four. */
  function PaddingLength(len: nat): (p: nat)
    ensures p < 4 && (len + p) % 4 == 0
  {
    (4 - len % 4) % 4
  }

  function Equals(n: nat): (r: string)
    ensures |r| == n && forall i :: 0 <= i < n ==> r[i] == '='
  {
    if n == 0 then [] else Equals(n - 1) + "="
  }

  /** `.replace(/-/g, '+').replace(/_/g, '/')` on one character. */
  function UrlToStd(c: char): char
  {
    if c == '-' then '+' else if c == '_' then '/' else c
  }

  /** Both global replaces: the result has no '-' and no '_', and nothing else changes. */
  function ToStandard(s: string): (r: string)
    ensures |r| == |s|
    ensures forall i :: 0 <= i < |s| ==> r[i] == UrlToStd(s[i])
    ensures forall i :: 0 <= i < |r| ==> r[i] != '-' && r[i] != '_'
  {
    if s == [] then [] else ToStandard(s[..|s| - 1]) + [UrlToStd(s[|s| - 1])]
  }

  /** The text handed to `atob`; `length` counts UTF-16 code units. */
  function Padded(s: string): (r: string)
    ensures r == s + Equals(PaddingLength(Utf16Length(s)))
  {
    s + Equals(PaddingLength(Utf16Length(s)))
  }

  // ---------------------------------------------------------------------------
  // atob, as the forgiving-base64 decode of the HTML standard

  predicate AsciiWhitespace(c: char)
  {
    c == '\t' || c == '\n' || c == '\U{000C}' || c == '\r' || c == ' '
  }

  function RemoveWhitespace(s: string): (r: string)
    ensures forall i :: 0 <= i < |r| ==> !AsciiWhitespace(r[i])
    ensures (forall i :: 0 <= i < |s| ==> !AsciiWhitespace(s[i])) ==> r == s
  {
    if s == [] then [] else RemoveWhitespace(s[..|s| - 1]) + (if AsciiWhitespace(s[|s| - 1]) then [] else [s[|s| - 1]])
  }

  /** With a length that is a multiple of four, one or two final '=' are dropped. */
  function StripPadding(d: string): string
  {
    if |d| % 4 == 0 && |d| >= 2 && d[|d| - 2..] == "==" then d[..|d| - 2]
    else if |d| % 4 == 0 && |d| >= 1 && d[|d| - 1] == '=' then d[..|d| - 1]
    else d
  }

  predicate AllStd(d: string)
  {
    forall i :: 0 <= i < |d| ==> StdValue(d[i]).Some?
  }

  function Values(d: string): (v: seq<nat>)
    requires AllStd(d)
    ensures |v| == |d| && Sextets(v)
    ensures forall i :: 0 <= i < |d| ==> v[i] == StdValue(d[i]).value
  {
    if d == [] then [] else Values(d[..|d| - 1]) + [StdValue(d[|d| - 1]).value]
  }

  /** Four sextets make three bytes. */
  function Ungroup(a: nat, b: nat, c: nat, d: nat): (r: seq<int>)
    requires a < 64 && b < 64 && c < 64 && d < 64
    ensures |r| == 3 && IsBytes(r)
  {
    [a * 4 + b / 16, (b % 16) * 16 + c / 4, (c % 4) * 64 + d]
  }

  /** Groups of four sextets; a final two or three make one or two bytes, and the leftover bits are dropped. */
  function DecodeValues(v: seq<nat>): (b: seq<int>)
    requires Sextets(v)
    ensures IsBytes(b)
  {
    if |v| >= 4 then Ungroup(v[0], v[1], v[2], v[3]) + DecodeValues(v[4..])
    else if |v| == 3 then Ungroup(v[0], v[1], v[2], 0)[..2]
    else if |v| == 2 then Ungroup(v[0], v[1], 0, 0)[..1]
    else []
  }

  /** `atob`: `None` where it throws. The character codes of the result are the bytes. */
  function Atob(s: string): (r: Option<seq<int>>)
    ensures r.Some? ==> IsBytes(r.value)
  {
    var d := StripPadding(RemoveWhitespace(s));
    if |d| % 4 == 1 || !AllStd(d) then None else Some(DecodeValues(Values(d)))
  }

  /** What the client decodes from the server's key. */
  function Decoded(s: string): Option<seq<int>>
  {
    Atob(ToStandard(Padded(s)))
  }

  /**
   * `urlBase64ToUint8Array`: `None` where `atob` throws; otherwise a new array as long as
   * the decoded text, whose element `i` is the code of character `i`.
   */
  method UrlBase64ToUint8Array(s: string) returns (out: Option<array<int>>)
    ensures out.None? <==> Decoded(s).None?
    ensures out.Some? ==> fresh(out.value) && out.value[..] == Decoded(s).value
  {
    var raw := Atob(ToStandard(Padded(s)));
    if raw.None? {
      return None;
    }
    var data := raw.value;
    var output := new int[|data|];
    for i := 0 to |data|
      invariant output[..i] == data[..i]
    {
      output[i] := data[i];
    }
    assert output[..] == data[..|data|] == data;
    out := Some(output);
  }

  // ---------------------------------------------------------------------------
  // The round trip

  /** Three bytes make four sextets. */
  function Group(x: int, y: int, z: int): (r: seq<nat>)
    requires 0 <= x < 256 && 0 <= y < 256 && 0 <= z < 256
    ensures |r| == 4 && Sextets(r)
  {
    [x / 4, (x % 4) * 16 + y / 16, (y % 16) * 4 + z / 64, z % 64]
  }

  /** Base64 of bytes in sextets: groups of three bytes; a final one or two make two or three, padded with zero bits. */
  function EncodeValues(b: seq<int>): (v: seq<nat>)
    requires IsBytes(b)
    ensures Sextets(v)
  {
    if |b| >= 3 then Group(b[0], b[1], b[2]) + EncodeValues(b[3..])
    else if |b| == 2 then Group(b[0], b[1], 0)[..3]
    else if |b| == 1 then Group(b[0], 0, 0)[..2]
    else []
  }

  /** The server's form of a key: base64url without padding. */
  function UrlEncode(b: seq<int>): string
    requires IsBytes(b)
  {
    UrlChars(EncodeValues(b))
  }

  lemma Div4(a: int, c: int)
    requires 0 <= c < 4
    ensures (a * 4 + c) / 4 == a && (a * 4 + c) % 4 == c
  {
  }

  lemma Div16(a: int, c: int)
    requires 0 <= c < 16
    ensures (a * 16 + c) / 16 == a && (a * 16 + c) % 16 == c
  {
  }

  /** One group of three bytes survives encoding and decoding; zero bytes give zero sextets. */
  lemma GroupRoundTrip(x: int, y: int, z: int)
    requires 0 <= x < 256 && 0 <= y < 256 && 0 <= z < 256
    ensures var g := Group(x, y, z); Ungroup(g[0], g[1], g[2], g[3]) == [x, y, z]
    ensures z == 0 ==> Group(x, y, z)[3] == 0
    ensures y == 0 && z == 0 ==> Group(x, y, z)[2] == 0
  {
    Div16(x % 4, y / 16);
    Div4(y % 16, z / 64);
  }

  /** Base64 text never leaves a single sextet over. */
  lemma {:induction false} EncodeLength(b: seq<int>)
    requires IsBytes(b)
    ensures |EncodeValues(b)| % 4 != 1
  {
    if |b| >= 3 {
      EncodeLength(b[3..]);
      assert |EncodeValues(b)| == 4 + |EncodeValues(b[3..])|;
    }
  }

  lemma {:induction false} DecodeEncode(b: seq<int>)
    requires IsBytes(b)
    ensures DecodeValues(EncodeValues(b)) == b
  {
    if |b| >= 3 {
      var g := Group(b[0], b[1], b[2]);
      var v := EncodeValues(b);
      assert v[..4] == g && v[4..] == EncodeValues(b[3..]);
      GroupRoundTrip(b[0], b[1], b[2]);
      DecodeEncode(b[3..]);
      assert b == [b[0], b[1], b[2]] + b[3..];
    } else if |b| == 2 {
      GroupRoundTrip(b[0], b[1], 0);
      assert b == [b[0], b[1]];
    } else if |b| == 1 {
      GroupRoundTrip(b[0], 0, 0);
      assert b == [b[0]];
    }
  }

  lemma ToStandardUrl(v: seq<nat>)
    requires Sextets(v)
    ensures ToStandard(UrlChars(v)) == StdChars(v)
  {
    var u := UrlChars(v);
    forall i | 0 <= i < |v|
      ensures ToStandard(u)[i] == StdChars(v)[i]
    {
    }
  }

  lemma ValuesOfStd(v: seq<nat>)
    requires Sextets(v)
    ensures AllStd(StdChars(v)) && Values(StdChars(v)) == v
  {
    var d := StdChars(v);
    forall i | 0 <= i < |v|
      ensures StdValue(d[i]) == Some(v[i])
    {
      StdValueOfChar(v[i]);
    }
  }

  lemma ToStandardAppend(x: string, y: string)
    ensures ToStandard(x + y) == ToStandard(x) + ToStandard(y)
  {
    var t := ToStandard(x + y);
    forall i | 0 <= i < |t|
      ensures t[i] == (ToStandard(x) + ToStandard(y))[i]
    {
      if i < |x| {
        assert (x + y)[i] == x[i];
      } else {
        assert (x + y)[i] == y[i - |x|];
      }
    }
  }

  lemma UrlCharsAscii(v: seq<nat>)
    requires Sextets(v)
    ensures Utf16Length(UrlChars(v)) == |v|
  {
    var u := UrlChars(v);
    forall k | 0 <= k < |u|
      ensures (u[k] as int) < 0x10000
    {
      assert u[k] == UrlChar(v[k]);
    }
  }

  /** The padded key, mapped to the standard alphabet, is the standard encoding with its padding. */
  lemma PaddedStandard(v: seq<nat>)
    requires Sextets(v)
    ensures ToStandard(Padded(UrlChars(v))) == StdChars(v) + Equals(PaddingLength(|v|))
  {
    var u := UrlChars(v);
    UrlCharsAscii(v);
    var e := Equals(PaddingLength(|v|));
    assert Padded(u) == u + e;
    ToStandardAppend(u, e);
    ToStandardUrl(v);
    ToStandardEquals(PaddingLength(|v|));
  }

  lemma ToStandardEquals(n: nat)
    ensures ToStandard(Equals(n)) == Equals(n)
  {
    var e := Equals(n);
    forall i | 0 <= i < n
      ensures ToStandard(e)[i] == e[i]
    {
    }
  }

  /** `atob` gives back the sextets of a padded standard encoding. */
  lemma AtobPadded(v: seq<nat>, p: nat)
    requires Sextets(v) && |v| % 4 != 1 && p < 3 && (|v| + p) % 4 == 0
    ensures Atob(StdChars(v) + Equals(p)) == Some(DecodeValues(v))
  {
    NoWhitespace(v, p);
    StripStdPadding(v, p);
    ValuesOfStd(v);
    AtobOf(StdChars(v) + Equals(p), StdChars(v));
  }

  /** `atob` of text that loses nothing but its padding. */
  lemma AtobOf(s: string, d: string)
    requires StripPadding(RemoveWhitespace(s)) == d && |d| % 4 != 1 && AllStd(d)
    ensures Atob(s) == Some(DecodeValues(Values(d)))
  {
  }

  /** Base64 text never leaves one character over, so it never needs three '='. */
  lemma PaddingBelowThree(len: nat)
    requires len % 4 != 1
    ensures PaddingLength(len) < 3
  {
    var m := len % 4;
    assert PaddingLength(len) == (4 - m) % 4;
    if m == 0 {
      assert (4 - m) % 4 == 0;
    } else if m == 2 {
      assert (4 - m) % 4 == 2;
    } else {
      assert (4 - m) % 4 == 1;
    }
  }

  lemma NoWhitespace(v: seq<nat>, p: nat)
    requires Sextets(v)
    ensures RemoveWhitespace(StdChars(v) + Equals(p)) == StdChars(v) + Equals(p)
  {
    var s := StdChars(v) + Equals(p);
    forall i | 0 <= i < |s|
      ensures !AsciiWhitespace(s[i])
    {
      if i < |v| {
        assert s[i] == StdChar(v[i]);
      }
    }
  }

  /** No standard character is '=', so exactly the padding is dropped. */
  lemma StripStdPadding(v: seq<nat>, p: nat)
    requires Sextets(v) && p < 3 && (|v| + p) % 4 == 0
    ensures StripPadding(StdChars(v) + Equals(p)) == StdChars(v)
  {
    var d := StdChars(v);
    var s := d + Equals(p);
    if p == 0 {
      assert s == d;
      if |d| >= 1 {
        assert d[|d| - 1] == StdChar(v[|v| - 1]) != '=';
        assert s[|s| - 1] != '=';
      }
    } else if p == 1 {
      assert s[|s| - 2] == d[|d| - 1] == StdChar(v[|v| - 1]) != '=';
      assert s[..|s| - 1] == d;
    } else {
      assert s[|s| - 2..] == "==";
      assert s[..|s| - 2] == d;
    }
  }

  /** The key the server hands out, decoded by the client, is the key's bytes. */
  lemma RoundTrip(b: seq<int>)
    requires IsBytes(b)
    ensures Decoded(UrlEncode(b)) == Some(b)
  {
    var v := EncodeValues(b);
    EncodeLength(b);
    PaddedStandard(v);
    PaddingBelowThree(|v|);
    AtobPadded(v, PaddingLength(|v|));
    DecodeEncode(b);
  }
}
