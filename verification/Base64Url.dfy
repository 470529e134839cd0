/** base64url without padding (section 5 of RFC 4648): the encoder both issuers use, the strict
    decoder of the verifier, and the forgiving decoder of the browser demo. */
module Base64Url {
  import opened Tables
  import opened Text

  type Sextet = n: int | 0 <= n < 64

  // ---- alphabet --------------------------------------------------------------------------------

  function UrlChar(n: Sextet): char {
    if n < 26 then ('A' as int + n) as char
    else if n < 52 then ('a' as int + (n - 26)) as char
    else if n < 62 then ('0' as int + (n - 52)) as char
    else if n == 62 then '-' else '_'
  }

  /** The common part of both alphabets; the last two characters are given. */
  function ValueOf(c: char, c62: char, c63: char): Option<Sextet> {
    if 'A' <= c <= 'Z' then Some(c as int - 'A' as int)
    else if 'a' <= c <= 'z' then Some(c as int - 'a' as int + 26)
    else if '0' <= c <= '9' then Some(c as int - '0' as int + 52)
    else if c == c62 then Some(62)
    else if c == c63 then Some(63)
    else None
  }

  function ValuesOf(s: string, c62: char, c63: char): Option<seq<Sextet>> {
    if s == [] then Some([])
    else
      var v, rest := ValueOf(s[0], c62, c63), ValuesOf(s[1..], c62, c63);
      if v.Some? && rest.Some? then Some([v.value] + rest.value) else None
  }

  function UrlChars(v: seq<Sextet>): (s: string)
    ensures |s| == |v|
  {
    if v == [] then [] else [UrlChar(v[0])] + UrlChars(v[1..])
  }

  // ---- bytes and sextets -----------------------------------------------------------------------

  function ToSextets(b: seq<Byte>): seq<Sextet> {
    if b == [] then []
    else if |b| == 1 then [b[0] / 4, b[0] % 4 * 16]
    else if |b| == 2 then [b[0] / 4, b[0] % 4 * 16 + b[1] / 16, b[1] % 16 * 4]
    else [b[0] / 4, b[0] % 4 * 16 + b[1] / 16, b[1] % 16 * 4 + b[2] / 64, b[2] % 64] + ToSextets(b[3..])
  }

  function High(x: Sextet, y: Sextet): Byte { x * 4 + y / 16 }
  function Middle(y: Sextet, z: Sextet): Byte { y % 16 * 16 + z / 4 }
  function Low(z: Sextet, w: Sextet): Byte { z % 4 * 64 + w }

  /** `strict`: the bits a shortened last group leaves over must be zero. */
  function FromSextets(v: seq<Sextet>, strict: bool): Option<seq<Byte>> {
    if v == [] then Some([])
    else if |v| == 1 then None
    else if |v| == 2 then
      if strict && v[1] % 16 != 0 then None else Some([High(v[0], v[1])])
    else if |v| == 3 then
      if strict && v[2] % 4 != 0 then None else Some([High(v[0], v[1]), Middle(v[1], v[2])])
    else
      var rest := FromSextets(v[4..], strict);
      if rest.None? then None
      else Some([High(v[0], v[1]), Middle(v[1], v[2]), Low(v[2], v[3])] + rest.value)
  }

  // ---- the three codecs ------------------------------------------------------------------------

  function Encode(b: seq<Byte>): string { UrlChars(ToSextets(b)) }

  /** The verifier's decoder: the url alphabet only, no padding, canonical last group. */
  function StrictDecode(s: string): Option<seq<Byte>> {
    var v := ValuesOf(s, '-', '_');
    if v.None? then None else FromSextets(v.value, true)
  }

  predicate IsSpace(c: char) { c in {' ', '\t', '\n', '\r', '\U{000C}'} }

  function WithoutSpaces(s: string): string {
    if s == [] then [] else (if IsSpace(s[0]) then [] else [s[0]]) + WithoutSpaces(s[1..])
  }

  function WithoutPadding(s: string): string {
    if |s| % 4 == 0 && |s| > 0 && s[|s| - 1] == '=' then
      if s[|s| - 2] == '=' then s[..|s| - 2] else s[..|s| - 1]
    else s
  }

  /** The forgiving-base64 decode behind `atob`. */
  function Atob(s: string): Option<seq<Byte>> {
    var t := WithoutPadding(WithoutSpaces(s));
    if |t| % 4 == 1 then None
    else
      var v := ValuesOf(t, '+', '/');
      if v.None? then None else FromSextets(v.value, false)
  }

  function ToStandard(s: string): (r: string)
    ensures |r| == |s|
  {
    if s == [] then []
    else [if s[0] == '-' then '+' else if s[0] == '_' then '/' else s[0]] + ToStandard(s[1..])
  }

  function Padding(n: nat): string { "==="[(n + 3) % 4..] }

  function B64UrlToBytes(s: string): Option<seq<Byte>> { Atob(ToStandard(s) + Padding(|s|)) }

  /** The demo's decoder: `atob` yields a binary string that is copied byte by byte. */
  method CopyB64UrlToBytes(s: string) returns (out: Option<array<Byte>>)
    ensures out.Some? <==> B64UrlToBytes(s).Some?
    ensures out.Some? ==> fresh(out.value) && out.value[..] == B64UrlToBytes(s).value
  {
    var bin := Atob(ToStandard(s) + Padding(|s|));
    if bin.None? { return None; }
    var a := new Byte[|bin.value|];
    var i := 0;
    while i < |bin.value|
      invariant 0 <= i <= |bin.value| == a.Length
      invariant a[..i] == bin.value[..i]
    {
      a[i] := bin.value[i];
      i := i + 1;
    }
    out := Some(a);
    assert a[..] == bin.value;
  }

  // ---- round trips -----------------------------------------------------------------------------

  lemma {:induction false} ValuesOfUrlChars(v: seq<Sextet>)
    ensures ValuesOf(UrlChars(v), '-', '_') == Some(v)
    ensures ValuesOf(ToStandard(UrlChars(v)), '+', '/') == Some(v)
  {
    if v != [] {
      ValuesOfUrlChars(v[1..]);
      assert UrlChars(v)[1..] == UrlChars(v[1..]);
      assert ToStandard(UrlChars(v))[1..] == ToStandard(UrlChars(v[1..]));
      assert v == [v[0]] + v[1..];
    }
  }

  lemma Grouped(a: Byte, b: Byte, c: Byte)
    ensures High(a / 4, a % 4 * 16 + b / 16) == a
    ensures Middle(a % 4 * 16 + b / 16, b % 16 * 4 + c / 64) == b
    ensures Low(b % 16 * 4 + c / 64, c % 64) == c
  {
  }

  lemma OneByteGroup(a: Byte, strict: bool)
    ensures FromSextets([a / 4, a % 4 * 16], strict) == Some([a])
  {
    var v: seq<Sextet> := [a / 4, a % 4 * 16];
    assert v[1] % 16 == 0 && High(v[0], v[1]) == a;
  }

  lemma TwoByteGroup(a: Byte, b: Byte, strict: bool)
    ensures FromSextets([a / 4, a % 4 * 16 + b / 16, b % 16 * 4], strict) == Some([a, b])
  {
    var v: seq<Sextet> := [a / 4, a % 4 * 16 + b / 16, b % 16 * 4];
    Grouped(a, b, 0);
    assert v[2] % 4 == 0 && High(v[0], v[1]) == a && Middle(v[1], v[2]) == b;
  }

  lemma {:induction false} FromToSextets(b: seq<Byte>, strict: bool)
    ensures FromSextets(ToSextets(b), strict) == Some(b)
  {
    if |b| == 1 {
      OneByteGroup(b[0], strict);
      assert b == [b[0]];
    } else if |b| == 2 {
      TwoByteGroup(b[0], b[1], strict);
      assert b == [b[0], b[1]];
    } else if |b| > 2 {
      FromToSextets(b[3..], strict);
      Grouped(b[0], b[1], b[2]);
      var v := ToSextets(b);
      assert v[4..] == ToSextets(b[3..]);
      assert b == [b[0], b[1], b[2]] + b[3..];
    }
  }

  lemma Regrouped(x: Sextet, y: Sextet, z: Sextet, w: Sextet)
    ensures High(x, y) / 4 == x
    ensures High(x, y) % 4 == y / 16
    ensures Middle(y, z) / 16 == y % 16
    ensures Middle(y, z) % 16 == z / 4
    ensures Low(z, w) / 64 == z % 4
    ensures Low(z, w) % 64 == w
  {
  }

  lemma {:induction false} ToFromSextets(v: seq<Sextet>)
    requires FromSextets(v, true).Some?
    ensures ToSextets(FromSextets(v, true).value) == v
  {
    var b := FromSextets(v, true).value;
    if |v| <= 2 {
      if v != [] { Regrouped(v[0], v[1], 0, 0); }
      assert v == [] || v == [v[0], v[1]];
    } else if |v| == 3 {
      Regrouped(v[0], v[1], v[2], 0);
      assert v == [v[0], v[1], v[2]];
    } else {
      ToFromSextets(v[4..]);
      Regrouped(v[0], v[1], v[2], v[3]);
      assert b[3..] == FromSextets(v[4..], true).value;
      assert v == [v[0], v[1], v[2], v[3]] + v[4..];
    }
  }

  lemma {:induction false} UrlCharsOfValues(s: string)
    requires ValuesOf(s, '-', '_').Some?
    ensures UrlChars(ValuesOf(s, '-', '_').value) == s
  {
    if s != [] {
      UrlCharsOfValues(s[1..]);
      assert s == [s[0]] + s[1..];
    }
  }

  /** The strict decoder inverts the encoder and accepts nothing but its outputs, so a token has one
      spelling. */
  lemma StrictDecodeIff(s: string, b: seq<Byte>)
    ensures StrictDecode(s) == Some(b) <==> s == Encode(b)
  {
    if s == Encode(b) {
      ValuesOfUrlChars(ToSextets(b));
      FromToSextets(b, true);
    }
    if StrictDecode(s) == Some(b) {
      ToFromSextets(ValuesOf(s, '-', '_').value);
      UrlCharsOfValues(s);
    }
  }

  predicate Plain(s: string) { forall i :: 0 <= i < |s| ==> !IsSpace(s[i]) && s[i] != '=' }

  lemma {:induction false} SpacelessIsFixed(s: string)
    requires forall i :: 0 <= i < |s| ==> !IsSpace(s[i])
    ensures WithoutSpaces(s) == s
  {
    if s != [] {
      SpacelessIsFixed(s[1..]);
      assert s == [s[0]] + s[1..];
    }
  }

  lemma {:induction false} EncodedIsPlain(v: seq<Sextet>)
    ensures Plain(ToStandard(UrlChars(v)))
  {
    if v != [] {
      EncodedIsPlain(v[1..]);
      assert ToStandard(UrlChars(v))[1..] == ToStandard(UrlChars(v[1..]));
      var s := ToStandard(UrlChars(v));
      forall i | 0 <= i < |s| ensures !IsSpace(s[i]) && s[i] != '=' {
        if i > 0 { assert s[i] == s[1..][i - 1]; }
      }
    }
  }

  lemma PaddingIs(n: nat)
    ensures n % 4 == 0 ==> Padding(n) == ""
    ensures n % 4 == 1 ==> Padding(n) == "==="
    ensures n % 4 == 2 ==> Padding(n) == "=="
    ensures n % 4 == 3 ==> Padding(n) == "="
  {
    assert (n + 3) % 4 == (n % 4 + 3) % 4;
  }

  lemma TwoComeOff(s: string)
    requires |s| % 4 == 2
    ensures WithoutPadding(s + "==") == s
  {
    var t := s + "==";
    assert t[|t| - 1] == '=' && t[|t| - 2] == '=';
    assert t[..|t| - 2] == s;
  }

  lemma OneComesOff(s: string)
    requires |s| % 4 == 3 && s[|s| - 1] != '='
    ensures WithoutPadding(s + "=") == s
  {
    var t := s + "=";
    assert t[|t| - 1] == '=' && t[|t| - 2] == s[|s| - 1];
    assert t[..|t| - 1] == s;
  }

  lemma PaddingComesOff(s: string)
    requires Plain(s) && |s| % 4 != 1
    ensures WithoutPadding(s + Padding(|s|)) == s
  {
    PaddingIs(|s|);
    if |s| % 4 == 0 {
      assert s + Padding(|s|) == s;
      if s != [] { assert s[|s| - 1] != '='; }
    } else if |s| % 4 == 2 {
      TwoComeOff(s);
    } else {
      OneComesOff(s);
    }
  }

  lemma {:induction false} SextetCount(b: seq<Byte>)
    ensures |ToSextets(b)| % 4 != 1
  {
    if |b| > 2 { SextetCount(b[3..]); }
  }

  /** The browser's decoder also inverts the encoder. */
  lemma BrowserRoundTrip(b: seq<Byte>)
    ensures B64UrlToBytes(Encode(b)) == Some(b)
  {
    var v := ToSextets(b);
    var s := ToStandard(UrlChars(v));
    EncodedIsPlain(v);
    SextetCount(b);
    PaddingComesOff(s);
    var t := s + Padding(|s|);
    forall i | 0 <= i < |t| ensures !IsSpace(t[i]) {
      if i >= |s| { assert t[i] == Padding(|s|)[i - |s|]; }
    }
    SpacelessIsFixed(t);
    ValuesOfUrlChars(v);
    FromToSextets(b, false);
  }

  lemma ValuesOfPair(a: char, b: char, c62: char, c63: char)
    ensures var x, y := ValueOf(a, c62, c63), ValueOf(b, c62, c63);
            ValuesOf([a, b], c62, c63) == if x.Some? && y.Some? then Some([x.value, y.value]) else None
  {
    assert [a, b][1..] == [b] && [b][1..] == [];
    assert ValuesOf([], c62, c63) == Some([]);
    var y := ValueOf(b, c62, c63);
    if y.Some? {
      var none: seq<Sextet> := [];
      assert [y.value] + none == [y.value];
      assert ValuesOf([b], c62, c63) == Some([y.value]);
      var x := ValueOf(a, c62, c63);
      if x.Some? { assert [x.value] + [y.value] == [x.value, y.value]; }
    }
  }

  lemma BrowserOnPair(a: char, b: char)
    requires a !in {'-', '_', '='} && b !in {'-', '_', '='} && !IsSpace(a) && !IsSpace(b)
    ensures B64UrlToBytes([a, b]) ==
            match ValuesOf([a, b], '+', '/') case Some(v) => FromSextets(v, false) case None => None
  {
    var s := [a, b];
    assert s[1..] == [b] && [b][1..] == [];
    assert ToStandard([b]) == [b];
    assert ToStandard(s) == s;
    assert Padding(2) == "==";
    SpacelessIsFixed(s + Padding(2));
    PaddingComesOff(s);
  }

  predicate AlphaNumeric(c: char) { 'A' <= c <= 'Z' || 'a' <= c <= 'z' || '0' <= c <= '9' }

  /** Unlike the verifier's, it accepts further spellings: two characters always stand for a byte
      to the browser, and to the verifier only when the four left-over bits are zero. */
  lemma BrowserIsForgiving(a: char, b: char)
    requires AlphaNumeric(a) && AlphaNumeric(b)
    ensures var x, y := ValueOf(a, '-', '_').value, ValueOf(b, '-', '_').value;
            && B64UrlToBytes([a, b]) == Some([High(x, y)])
            && StrictDecode([a, b]) == (if y % 16 == 0 then Some([High(x, y)]) else None)
  {
    BrowserOnPair(a, b);
    ValuesOfPair(a, b, '+', '/');
    ValuesOfPair(a, b, '-', '_');
  }
}
