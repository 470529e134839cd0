/** Text as the tokens carry it: UTF-8 (RFC 3629), written by the encoder and read back by the
    browser's replacing decoder. */
module Text {

  type Byte = n: int | 0 <= n < 256

  const BOM: char := '\U{FEFF}'
  const REPLACEMENT: char := '\U{FFFD}'

  // ---- numbers ---------------------------------------------------------------------------------

  function Digit(d: nat): char
    requires d < 10
  {
    ('0' as int + d) as char
  }

  /** Decimal digits without leading zeros. */
  function Decimal(n: nat): (r: string)
    ensures r != [] && forall i :: 0 <= i < |r| ==> '0' <= r[i] <= '9'
  {
    if n < 10 then [Digit(n)] else Decimal(n / 10) + [Digit(n % 10)]
  }

  // ---- encoding --------------------------------------------------------------------------------

  function EncodeChar(c: char): (r: seq<Byte>)
    ensures 1 <= |r| <= 4
  {
    var n := c as int;
    if n < 0x80 then [n]
    else if n < 0x800 then [0xC0 + n / 64, 0x80 + n % 64]
    else if n < 0x10000 then [0xE0 + n / 4096, 0x80 + n / 64 % 64, 0x80 + n % 64]
    else [0xF0 + n / 262144, 0x80 + n / 4096 % 64, 0x80 + n / 64 % 64, 0x80 + n % 64]
  }

  function Encode(s: string): seq<Byte> {
    if s == [] then [] else EncodeChar(s[0]) + Encode(s[1..])
  }

  // ---- decoding: malformed input becomes U+FFFD, one per maximal subpart ------------------------

  predicate Continuation(b: Byte) { 0x80 <= b < 0xC0 }

  /** Bounds on the second byte that rule out overlong forms, surrogates and values above U+10FFFF. */
  predicate SecondOk(b0: Byte, b1: Byte) {
    if b0 == 0xE0 then 0xA0 <= b1 < 0xC0
    else if b0 == 0xED then 0x80 <= b1 < 0xA0
    else if b0 == 0xF0 then 0x90 <= b1 < 0xC0
    else if b0 == 0xF4 then 0x80 <= b1 < 0x90
    else Continuation(b1)
  }

  function Lead(b0: Byte): nat {
    if b0 < 0x80 then 1
    else if 0xC2 <= b0 < 0xE0 then 2
    else if 0xE0 <= b0 < 0xF0 then 3
    else if 0xF0 <= b0 < 0xF5 then 4
    else 0
  }

  function Join2(a: int, b: int): int { (a - 0xC0) * 64 + (b - 0x80) }
  function Join3(a: int, b: int, c: int): int { (a - 0xE0) * 4096 + (b - 0x80) * 64 + (c - 0x80) }
  function Join4(a: int, b: int, c: int, d: int): int {
    (a - 0xF0) * 262144 + (b - 0x80) * 4096 + (c - 0x80) * 64 + (d - 0x80)
  }

  /** The first character of a non-empty input and how many bytes it took. */
  function DecodeChar(b: seq<Byte>): (r: (char, nat))
    requires b != []
    ensures 1 <= r.1 <= |b|
  {
    var n := Lead(b[0]);
    if n == 1 then (b[0] as char, 1)
    else if n == 0 || |b| < 2 || !SecondOk(b[0], b[1]) then (REPLACEMENT, 1)
    else if n == 2 then (Join2(b[0], b[1]) as char, 2)
    else if |b| < 3 || !Continuation(b[2]) then (REPLACEMENT, 2)
    else if n == 3 then (Join3(b[0], b[1], b[2]) as char, 3)
    else if |b| < 4 || !Continuation(b[3]) then (REPLACEMENT, 3)
    else (Join4(b[0], b[1], b[2], b[3]) as char, 4)
  }

  function DecodeAll(b: seq<Byte>): string
    decreases |b|
  {
    if b == [] then [] else
      var (c, n) := DecodeChar(b);
      [c] + DecodeAll(b[n..])
  }

  function StripBom(s: string): string {
    if s != [] && s[0] == BOM then s[1..] else s
  }

  predicate StartsWithBom(s: string) { s != [] && s[0] == BOM }

  /** `new TextDecoder().decode(b)`: a leading byte-order mark is swallowed. */
  function TextDecode(b: seq<Byte>): string { StripBom(DecodeAll(b)) }

  // ---- round trip ------------------------------------------------------------------------------

  lemma EncodedLead(c: char)
    ensures var e := EncodeChar(c);
            && Lead(e[0]) == |e|
            && (|e| >= 2 ==> SecondOk(e[0], e[1]))
            && (|e| >= 3 ==> Continuation(e[2]))
            && (|e| >= 4 ==> Continuation(e[3]))
  {
  }

  lemma Rejoined(n: int)
    requires 0 <= n
    ensures Join2(0xC0 + n / 64, 0x80 + n % 64) == n
    ensures Join3(0xE0 + n / 4096, 0x80 + n / 64 % 64, 0x80 + n % 64) == n
    ensures Join4(0xF0 + n / 262144, 0x80 + n / 4096 % 64, 0x80 + n / 64 % 64, 0x80 + n % 64) == n
  {
    assert n / 4096 == n / 64 / 64 && n / 262144 == n / 64 / 64 / 64;
  }

  lemma DecodeEncodedChar(c: char, rest: seq<Byte>)
    ensures DecodeChar(EncodeChar(c) + rest) == (c, |EncodeChar(c)|)
  {
    EncodedLead(c);
    var e := EncodeChar(c);
    var b := e + rest;
    assert b[0] == e[0];
    if |e| >= 2 { assert b[1] == e[1]; }
    if |e| >= 3 { assert b[2] == e[2]; }
    if |e| >= 4 { assert b[3] == e[3]; }
    DecodeOfParts(b, |e|);
    Rejoined(c as int);
  }

  /** On well-formed input, the character a lead and its continuations stand for. */
  lemma DecodeOfParts(b: seq<Byte>, n: nat)
    requires 1 <= n <= 4 && n <= |b| && Lead(b[0]) == n
    requires n >= 2 ==> SecondOk(b[0], b[1])
    requires n >= 3 ==> Continuation(b[2])
    requires n >= 4 ==> Continuation(b[3])
    ensures DecodeChar(b).1 == n
    ensures DecodeChar(b).0 as int == (match n
              case 1 => b[0]
              case 2 => Join2(b[0], b[1])
              case 3 => Join3(b[0], b[1], b[2])
              case 4 => Join4(b[0], b[1], b[2], b[3]))
  {
  }

  lemma {:induction false} DecodeEncoded(s: string)
    ensures DecodeAll(Encode(s)) == s
  {
    if s != [] {
      DecodeEncodedChar(s[0], Encode(s[1..]));
      assert Encode(s)[|EncodeChar(s[0])|..] == Encode(s[1..]);
      DecodeEncoded(s[1..]);
    }
  }

  /** A text survives the trip exactly when it does not start with a byte-order mark. */
  lemma TextRoundTrip(s: string)
    ensures TextDecode(Encode(s)) == StripBom(s)
    ensures TextDecode(Encode(s)) == s <==> !StartsWithBom(s)
  {
    DecodeEncoded(s);
    if StartsWithBom(s) {
      assert |StripBom(s)| < |s|;
    }
  }
}
