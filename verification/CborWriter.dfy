/** The issuers' CBOR: definite lengths and shortest heads, and why the reader gives it back. */
module CborWriter {
  import opened Tables
  import opened Text
  import opened Cbor

  datatype Tree =
    | TInt(n: int)
    | TText(s: string)
    | TBool(on: bool)
    | TArr(items: seq<Tree>)
    | TMap(pairs: seq<Entry>)
  datatype Entry = Entry(key: string, value: Tree)

  const TWO_64: int := 0x1_0000_0000_0000_0000

  // ---- writing ---------------------------------------------------------------------------------

  function Be(size: nat, n: nat): (r: seq<Byte>)
    ensures |r| == size
  {
    if size == 0 then [] else Be(size - 1, n / 256) + [n % 256]
  }

  function Head(major: nat, n: nat): (r: seq<Byte>)
    requires major < 8 && n < TWO_64
    ensures r != []
  {
    if n < 24 then [major * 32 + n]
    else if n < 0x100 then [major * 32 + 24] + Be(1, n)
    else if n < 0x1_0000 then [major * 32 + 25] + Be(2, n)
    else if n < 0x1_0000_0000 then [major * 32 + 26] + Be(4, n)
    else [major * 32 + 27] + Be(8, n)
  }

  /** Integers and lengths that an eight-byte argument can carry. */
  predicate Fits(t: Tree) {
    match t
    case TInt(n) => -TWO_64 <= n < TWO_64
    case TText(s) => |Encode(s)| < TWO_64
    case TBool(_) => true
    case TArr(items) => |items| < TWO_64 && forall i :: 0 <= i < |items| ==> Fits(items[i])
    case TMap(pairs) => |pairs| < TWO_64 && FitPairs(pairs)
  }

  predicate FitPairs(pairs: seq<Entry>) {
    forall i :: 0 <= i < |pairs| ==> |Encode(pairs[i].key)| < TWO_64 && Fits(pairs[i].value)
  }

  function TextBytes(s: string): seq<Byte>
    requires |Encode(s)| < TWO_64
  {
    Head(3, |Encode(s)|) + Encode(s)
  }

  function Write(t: Tree): (r: seq<Byte>)
    requires Fits(t)
    ensures r != []
  {
    match t
    case TInt(n) => if n >= 0 then Head(0, n) else Head(1, -n - 1)
    case TText(s) => TextBytes(s)
    case TBool(on) => [if on then 0xF5 else 0xF4]
    case TArr(items) => Head(4, |items|) + WriteItems(items)
    case TMap(pairs) => Head(5, |pairs|) + WritePairs(pairs)
  }

  function WriteItems(items: seq<Tree>): seq<Byte>
    requires forall i :: 0 <= i < |items| ==> Fits(items[i])
  {
    if items == [] then [] else Write(items[0]) + WriteItems(items[1..])
  }

  function WritePairs(pairs: seq<Entry>): seq<Byte>
    requires FitPairs(pairs)
  {
    if pairs == [] then [] else TextBytes(pairs[0].key) + Write(pairs[0].value) + WritePairs(pairs[1..])
  }

  // ---- what the reader sees --------------------------------------------------------------------

  /** A written tree as the reader's value: texts lose a leading byte-order mark, and map entries
      are assigned one by one. */
  function Seen(t: Tree): Val {
    match t
    case TInt(n) => Num(n)
    case TText(s) => Str(StripBom(s))
    case TBool(on) => Bool(on)
    case TArr(items) => Arr(SeenItems(items))
    case TMap(pairs) => SeenPairs(pairs, EMPTY)
  }

  function SeenItems(items: seq<Tree>): seq<Val> {
    if items == [] then [] else [Seen(items[0])] + SeenItems(items[1..])
  }

  function SeenPairs(pairs: seq<Entry>, m: Val): (r: Val)
    requires m.Obj?
    ensures r.Obj?
    decreases pairs
  {
    if pairs == [] then m
    else SeenPairs(pairs[1..], Assign(m, StripBom(pairs[0].key), Seen(pairs[0].value)))
  }

  // ---- heads -----------------------------------------------------------------------------------

  function Pow256(k: nat): nat { if k == 0 then 1 else 256 * Pow256(k - 1) }

  lemma {:induction false} BigEndianBe(size: nat, n: nat)
    requires n < Pow256(size)
    ensures BigEndian(Be(size, n)) == n
  {
    if size != 0 {
      BigEndianBe(size - 1, n / 256);
      var b := Be(size, n);
      assert b[..|b| - 1] == Be(size - 1, n / 256);
    }
  }

  lemma ReadSizedHead(major: nat, size: nat, ai: nat, n: nat, rest: seq<Byte>)
    requires major < 8 && ai < 32 && ArgumentSize(ai) == Some(size) && 24 <= ai && n < Pow256(size)
    ensures var s := [major * 32 + ai] + Be(size, n) + rest;
            s[0] / 32 == major && s[0] % 32 == ai && ReadArgument(ai, s[1..]) == Some((n, rest))
  {
    var s := [major * 32 + ai] + Be(size, n) + rest;
    BigEndianBe(size, n);
    assert s[1..] == Be(size, n) + rest;
    assert s[1..][..size] == Be(size, n);
    assert s[1..][size..] == rest;
  }

  /** The first byte names the major type and the argument reads back. */
  lemma ReadHead(major: nat, n: nat, rest: seq<Byte>)
    requires major < 8 && n < TWO_64
    ensures var s := Head(major, n) + rest;
            s != [] && s[0] / 32 == major && ReadArgument(s[0] % 32, s[1..]) == Some((n, rest))
  {
    var s := Head(major, n) + rest;
    if n < 24 {
      assert s[1..] == rest;
    } else if n < 0x100 {
      assert Pow256(1) == 0x100;
      ReadSizedHead(major, 1, 24, n, rest);
    } else if n < 0x1_0000 {
      assert Pow256(2) == 0x1_0000;
      ReadSizedHead(major, 2, 25, n, rest);
    } else if n < 0x1_0000_0000 {
      assert Pow256(2) == 0x1_0000 && Pow256(4) == 0x1_0000_0000;
      ReadSizedHead(major, 4, 26, n, rest);
    } else {
      assert Pow256(2) == 0x1_0000 && Pow256(4) == 0x1_0000_0000 && Pow256(6) == 0x1_0000_0000_0000 && Pow256(8) == TWO_64;
      ReadSizedHead(major, 8, 27, n, rest);
    }
  }

  lemma ReadAfterHead(major: nat, n: nat, rest: seq<Byte>)
    requires major < 7 && n < TWO_64
    ensures ReadValue(Head(major, n) + rest) == ReadSized(major, n, rest)
  {
    ReadHead(major, n, rest);
  }

  // ---- round trip ------------------------------------------------------------------------------

  lemma ReadText(s: string, rest: seq<Byte>)
    requires |Encode(s)| < TWO_64
    ensures ReadValue(TextBytes(s) + rest) == Some((Str(StripBom(s)), rest))
  {
    var e := Encode(s);
    assert TextBytes(s) + rest == Head(3, |e|) + (e + rest);
    ReadAfterHead(3, |e|, e + rest);
    assert Take(e + rest, |e|) == e && Drop(e + rest, |e|) == rest;
    TextRoundTrip(s);
  }

  lemma ReadBool(on: bool, rest: seq<Byte>)
    ensures ReadValue([if on then 0xF5 else 0xF4] + rest) == Some((Bool(on), rest))
  {
    var s := [if on then 0xF5 else 0xF4] + rest;
    assert s[1..] == rest;
  }

  /** Whatever bytes follow, the reader gives a written tree back and stops exactly behind it. */
  lemma {:induction false} ReadWritten(t: Tree, rest: seq<Byte>)
    requires Fits(t)
    ensures ReadValue(Write(t) + rest) == Some((Seen(t), rest))
    decreases t, 0
  {
    match t
    case TInt(n) => ReadAfterHead(if n >= 0 then 0 else 1, if n >= 0 then n else -n - 1, rest);
    case TText(s) => ReadText(s, rest);
    case TBool(on) => ReadBool(on, rest);
    case TArr(items) =>
      assert Write(t) + rest == Head(4, |items|) + (WriteItems(items) + rest);
      ReadAfterHead(4, |items|, WriteItems(items) + rest);
      ReadWrittenItems(items, rest);
    case TMap(pairs) =>
      assert Write(t) + rest == Head(5, |pairs|) + (WritePairs(pairs) + rest);
      ReadAfterHead(5, |pairs|, WritePairs(pairs) + rest);
      ReadWrittenPairs(pairs, EMPTY, rest);
  }

  lemma {:induction false} ReadWrittenItems(items: seq<Tree>, rest: seq<Byte>)
    requires forall i :: 0 <= i < |items| ==> Fits(items[i])
    ensures ReadItems(WriteItems(items) + rest, |items|) == Some((SeenItems(items), rest))
    decreases items, 0
  {
    if items == [] {
      assert WriteItems(items) + rest == rest;
    } else {
      var more := WriteItems(items[1..]) + rest;
      assert WriteItems(items) + rest == Write(items[0]) + more;
      ReadWritten(items[0], more);
      ReadWrittenItems(items[1..], rest);
    }
  }

  lemma {:induction false} ReadWrittenPairs(pairs: seq<Entry>, m: Val, rest: seq<Byte>)
    requires FitPairs(pairs) && m.Obj?
    ensures ReadPairs(WritePairs(pairs) + rest, |pairs|, m) == Some((SeenPairs(pairs, m), rest))
    decreases pairs, 0
  {
    if pairs == [] {
      assert WritePairs(pairs) + rest == rest;
    } else {
      var Entry(key, t) := pairs[0];
      var more := WritePairs(pairs[1..]) + rest;
      assert WritePairs(pairs) + rest == TextBytes(key) + (Write(t) + more);
      ReadText(key, Write(t) + more);
      ReadWritten(t, more);
      PairsStep(WritePairs(pairs) + rest, |pairs|, m);
      ReadWrittenPairs(pairs[1..], Assign(m, StripBom(key), Seen(t)), rest);
    }
  }
}
