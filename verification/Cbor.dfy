/** The CBOR (section 3 of RFC 8949) that license tokens use: the issuers' encoder and the demo's
    hand-written reader. */
module Cbor {
  import opened Tables
  import opened Text

  // ---- values as the reader builds them --------------------------------------------------------

  /** `proto` is what an assignment to the name `__proto__` leaves behind: no own property. */
  datatype Val =
    | Num(n: int)
    | Bytes(bytes: seq<Byte>)
    | Str(s: string)
    | Arr(items: seq<Val>)
    | Obj(own: map<string, Val>, proto: Option<Val>)
    | Bool(on: bool)
    | Null

  const EMPTY := Obj(map[], None)

  /** `m[key] = v` on a plain object: `__proto__` takes objects and silently drops primitives. */
  function Assign(m: Val, key: string, v: Val): (r: Val)
    requires m.Obj?
    ensures r.Obj?
  {
    if key != "__proto__" then Obj(m.own[key := v], m.proto)
    else if v.Num? || v.Bool? || v.Str? then m
    else Obj(m.own, Some(v))
  }

  function DecimalInt(n: int): string { if n < 0 then "-" + Decimal(-n) else Decimal(n) }

  function JoinBytes(b: seq<Byte>): string {
    if b == [] then "" else if |b| == 1 then Decimal(b[0]) else Decimal(b[0]) + "," + JoinBytes(b[1..])
  }

  /** `String(v)`, the name a map key is stored under. */
  function KeyString(v: Val): string {
    match v
    case Str(s) => s
    case Num(n) => DecimalInt(n)
    case Bool(on) => if on then "true" else "false"
    case Null => "null"
    case Bytes(b) => JoinBytes(b)
    case Arr(items) => JoinItems(items)
    case Obj(_, _) => "[object Object]"
  }

  function JoinItems(items: seq<Val>): string {
    if items == [] then ""
    else
      var head := if items[0].Null? then "" else KeyString(items[0]);
      if |items| == 1 then head else head + "," + JoinItems(items[1..])
  }

  // ---- reading, as a function of the bytes that are left ---------------------------------------

  function BigEndian(b: seq<Byte>): nat {
    if b == [] then 0 else BigEndian(b[..|b| - 1]) * 256 + b[|b| - 1]
  }

  function ArgumentSize(ai: nat): Option<nat> {
    if ai < 24 then Some(0) else if ai == 24 then Some(1) else if ai == 25 then Some(2)
    else if ai == 26 then Some(4) else if ai == 27 then Some(8) else None
  }

  function ReadArgument(ai: nat, s: seq<Byte>): (r: Option<(nat, seq<Byte>)>)
    ensures r.Some? ==> |r.value.1| <= |s|
  {
    var size := ArgumentSize(ai);
    if size.None? || |s| < size.value then None
    else if ai < 24 then Some((ai, s))
    else Some((BigEndian(s[..size.value]), s[size.value..]))
  }

  /** The next `n` bytes, or fewer at the end of the input, as `slice` cuts them. */
  function Take(s: seq<Byte>, n: nat): seq<Byte> { if n <= |s| then s[..n] else s }
  function Drop(s: seq<Byte>, n: nat): seq<Byte> { if n <= |s| then s[n..] else [] }

  /** One data item and the bytes after it; None: the reader throws. Every call takes a byte or throws. */
  function ReadValue(s: seq<Byte>): (r: Option<(Val, seq<Byte>)>)
    ensures r.Some? ==> |r.value.1| < |s|
    decreases |s|, 0, 0
  {
    if s == [] then None
    else
      var major, ai := s[0] / 32, s[0] % 32;
      if major == 7 then
        if ai == 20 then Some((Bool(false), s[1..]))
        else if ai == 21 then Some((Bool(true), s[1..]))
        else if ai == 22 then Some((Null, s[1..]))
        else None
      else
        var arg := ReadArgument(ai, s[1..]);
        if arg.None? then None
        else
          ReadSized(major, arg.value.0, arg.value.1)
  }

  /** The item of a major type whose argument has been read. */
  function ReadSized(major: nat, n: nat, t: seq<Byte>): (r: Option<(Val, seq<Byte>)>)
    ensures r.Some? ==> |r.value.1| <= |t|
    decreases |t|, 3, 0
  {
    match major
    case 0 => Some((Num(n), t))
    case 1 => Some((Num(-1 - n), t))
    case 2 => Some((Bytes(Take(t, n)), Drop(t, n)))
    case 3 => Some((Str(TextDecode(Take(t, n))), Drop(t, n)))
    case 4 =>
      var items := ReadItems(t, n);
      if items.None? then None else Some((Arr(items.value.0), items.value.1))
    case 5 => ReadPairs(t, n, EMPTY)
    case _ => None
  }

  function ReadItems(s: seq<Byte>, n: nat): (r: Option<(seq<Val>, seq<Byte>)>)
    ensures r.Some? ==> |r.value.1| <= |s|
    decreases |s|, 1, n
  {
    if n == 0 then Some(([], s))
    else
      var head := ReadValue(s);
      if head.None? then None
      else
        var tail := ReadItems(head.value.1, n - 1);
        if tail.None? then None else Some(([head.value.0] + tail.value.0, tail.value.1))
  }

  function ReadPair(s: seq<Byte>, m: Val): (r: Option<(Val, seq<Byte>)>)
    requires m.Obj?
    ensures r.Some? ==> |r.value.1| < |s| && r.value.0.Obj?
    decreases |s|, 1, 0
  {
    var key := ReadValue(s);
    if key.None? then None
    else
      var v := ReadValue(key.value.1);
      if v.None? then None
      else Some((Assign(m, KeyString(key.value.0), v.value.0), v.value.1))
  }

  function ReadPairs(s: seq<Byte>, n: nat, m: Val): (r: Option<(Val, seq<Byte>)>)
    requires m.Obj?
    ensures r.Some? ==> |r.value.1| <= |s| && r.value.0.Obj?
    decreases |s|, 2, n
  {
    if n == 0 then Some((m, s))
    else
      var next := ReadPair(s, m);
      if next.None? then None else ReadPairs(next.value.1, n - 1, next.value.0)
  }

  // ---- the reader itself -----------------------------------------------------------------------

  /** A cursor over the payload. A method that answers None has thrown. */
  class Reader {
    const b: seq<Byte>
    var p: nat

    constructor (bytes: seq<Byte>)
      ensures b == bytes && p == 0 && Rest() == bytes
    {
      b := bytes;
      p := 0;
    }

    function Rest(): seq<Byte>
      reads this
    {
      if p <= |b| then b[p..] else []
    }

    method U8() returns (r: Option<Byte>)
      modifies this
      ensures r.Some? <==> old(Rest()) != []
      ensures r.Some? ==> r.value == old(Rest())[0] && Rest() == old(Rest())[1..]
    {
      if p >= |b| { return None; }
      r := Some(b[p]);
      p := p + 1;
    }

    method Len(ai: nat) returns (r: Option<nat>)
      modifies this
      ensures match ReadArgument(ai, old(Rest()))
              case None => r == None
              case Some((n, t)) => r == Some(n) && Rest() == t
    {
      if ai < 24 { return Some(ai); }
      if ai > 27 { return None; }
      r := ReadBigEndian(if ai == 24 then 1 else if ai == 25 then 2 else if ai == 26 then 4 else 8);
    }

    method ReadBigEndian(count: nat) returns (r: Option<nat>)
      modifies this
      ensures if |old(Rest())| < count then r == None
              else r == Some(BigEndian(old(Rest())[..count])) && Rest() == old(Rest())[count..]
    {
      ghost var start, s := p, Rest();
      var n: nat := 0;
      var i := 0;
      while i < count
        invariant 0 <= i <= count && i <= |s| && p == start + i
        invariant n == BigEndian(s[..i])
      {
        if p >= |b| { return None; }
        var u := b[p];
        p := p + 1;
        assert u == s[i] && s[..i + 1][..i] == s[..i];
        n := n * 256 + u;
        i := i + 1;
      }
      r := Some(n);
    }

    method Read() returns (r: Option<Val>)
      modifies this
      ensures match ReadValue(old(Rest()))
              case None => r == None
              case Some((v, t)) => r == Some(v) && Rest() == t
      decreases |Rest()|, 0
    {
      var ib := U8();
      if ib.None? { return None; }
      var major, ai := ib.value / 32, ib.value % 32;
      if major == 7 {
        return if ai == 20 then Some(Bool(false)) else if ai == 21 then Some(Bool(true))
               else if ai == 22 then Some(Null) else None;
      }
      var len := Len(ai);
      if len.None? { return None; }
      r := ReadBody(major, len.value);
    }

    method ReadBody(major: nat, n: nat) returns (r: Option<Val>)
      modifies this
      ensures match ReadSized(major, n, old(Rest()))
              case None => r == None
              case Some((v, t)) => r == Some(v) && Rest() == t
      decreases |Rest()|, 3
    {
      match major {
        case 0 => r := Some(Num(n));
        case 1 => r := Some(Num(-1 - n));
        case 2 =>
          var bytes := Slice(n);
          r := Some(Bytes(bytes));
        case 3 =>
          var bytes := Slice(n);
          r := Some(Str(TextDecode(bytes)));
        case 4 => r := ReadArray(n);
        case 5 => r := ReadMap(n);
        case _ => r := None;
      }
    }

    /** The cursor may move past the end; the next read then throws. */
    method Slice(n: nat) returns (out: seq<Byte>)
      modifies this
      ensures out == Take(old(Rest()), n) && Rest() == Drop(old(Rest()), n)
    {
      out := Take(Rest(), n);
      p := p + n;
    }

    method ReadArray(n: nat) returns (r: Option<Val>)
      modifies this
      ensures match ReadItems(old(Rest()), n)
              case None => r == None
              case Some((items, t)) => r == Some(Arr(items)) && Rest() == t
      decreases |Rest()|, 1
    {
      ghost var s := Rest();
      var arr: seq<Val> := [];
      var i := 0;
      AfterNothing(ReadItems(s, n));
      while i < n
        invariant 0 <= i <= n && |Rest()| <= |s|
        invariant ReadItems(s, n) == After(arr, ReadItems(Rest(), n - i))
        decreases n - i
      {
        ghost var t := Rest();
        var item := Read();
        if item.None? { return None; }
        ItemsStep(arr, t, n - i, item.value, Rest());
        arr := arr + [item.value];
        i := i + 1;
      }
      assert arr + [] == arr;
      r := Some(Arr(arr));
    }

    /** One key and its value, assigned. */
    method ReadEntry(m: Val) returns (r: Option<Val>)
      requires m.Obj?
      modifies this
      ensures match ReadPair(old(Rest()), m)
              case None => r == None
              case Some((m', t)) => r == Some(m') && Rest() == t
      decreases |Rest()|, 1
    {
      var key := Read();
      if key.None? { return None; }
      var v := Read();
      if v.None? { return None; }
      r := Some(Assign(m, KeyString(key.value), v.value));
    }

    method ReadMap(n: nat) returns (r: Option<Val>)
      modifies this
      ensures match ReadPairs(old(Rest()), n, EMPTY)
              case None => r == None
              case Some((m, t)) => r == Some(m) && Rest() == t
      decreases |Rest()|, 2
    {
      ghost var s := Rest();
      ghost var whole := ReadPairs(s, n, EMPTY);
      var m := EMPTY;
      var i := 0;
      while i < n
        invariant 0 <= i <= n && |Rest()| <= |s| && m.Obj?
        invariant whole == ReadPairs(Rest(), n - i, m)
        decreases n - i
      {
        PairsStep(Rest(), n - i, m);
        var next := ReadEntry(m);
        if next.None? { return None; }
        m := next.value;
        i := i + 1;
      }
      r := Some(m);
    }
  }

  // ---- one turn of the reader's loops ----------------------------------------------------------

  /** A result with the items read so far in front. */
  ghost function After(arr: seq<Val>, r: Option<(seq<Val>, seq<Byte>)>): Option<(seq<Val>, seq<Byte>)> {
    match r case None => None case Some((tail, t)) => Some((arr + tail, t))
  }

  lemma AfterNothing(r: Option<(seq<Val>, seq<Byte>)>)
    ensures After([], r) == r
  {
    if r.Some? { assert [] + r.value.0 == r.value.0; }
  }

  lemma ItemsStep(arr: seq<Val>, s: seq<Byte>, n: nat, v: Val, t: seq<Byte>)
    requires 0 < n && ReadValue(s) == Some((v, t))
    ensures After(arr, ReadItems(s, n)) == After(arr + [v], ReadItems(t, n - 1))
  {
    var tail := ReadItems(t, n - 1);
    if tail.Some? { assert arr + ([v] + tail.value.0) == arr + [v] + tail.value.0; }
  }

  lemma PairsStep(s: seq<Byte>, n: nat, m: Val)
    requires 0 < n && m.Obj?
    ensures ReadPairs(s, n, m) ==
            match ReadPair(s, m)
            case None => None
            case Some((m', t)) => ReadPairs(t, n - 1, m')
  {
  }
}
