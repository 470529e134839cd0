/** A reader of JSON texts (RFC 8259), and why it gives back whatever was printed. */
module JsonReader {
  import opened Tables
  import opened Sorting
  import opened Json

  // ---- reading: white space, every escape, integers; fractions and exponents are refused ---------

  predicate White(u: Unit) { u == 0x20 || u == 0x09 || u == 0x0A || u == 0x0D }

  function Skip(b: Units): (r: Units)
    ensures |r| <= |b|
  {
    if b != [] && White(b[0]) then Skip(b[1..]) else b
  }

  predicate IsDigit(u: Unit) { 0x30 <= u <= 0x39 }

  function HexValue(u: Unit): Option<nat> {
    if 0x30 <= u <= 0x39 then Some(u - 0x30)
    else if 0x41 <= u <= 0x46 then Some(u - 0x41 + 10)
    else if 0x61 <= u <= 0x66 then Some(u - 0x61 + 10)
    else None
  }

  function Hex4(b: Units): (r: Option<Unit>)
    requires |b| >= 4
  {
    var w, x, y, z := HexValue(b[0]), HexValue(b[1]), HexValue(b[2]), HexValue(b[3]);
    if w.Some? && x.Some? && y.Some? && z.Some? && w.value < 16 && x.value < 16 && y.value < 16 && z.value < 16
    then Some(w.value * 4096 + x.value * 256 + y.value * 16 + z.value)
    else None
  }

  function Unescape(u: Unit): Option<Unit> {
    if u == QUOTE || u == BACKSLASH || u == 0x2F then Some(u)
    else if u == U('b') then Some(0x08)
    else if u == U('f') then Some(0x0C)
    else if u == U('n') then Some(0x0A)
    else if u == U('r') then Some(0x0D)
    else if u == U('t') then Some(0x09)
    else None
  }

  /** One character of a string: its code unit and what follows. */
  function ReadUnit(b: Units): (r: Option<(Unit, Units)>)
    ensures r.Some? ==> |r.value.1| < |b|
  {
    if b == [] || b[0] < 0x20 || b[0] == QUOTE then None
    else if b[0] != BACKSLASH then Some((b[0], b[1..]))
    else if |b| >= 2 && b[1] != U('u') then
      (if Unescape(b[1]).Some? then Some((Unescape(b[1]).value, b[2..])) else None)
    else if |b| >= 6 && Hex4(b[2..]).Some? then Some((Hex4(b[2..]).value, b[6..]))
    else None
  }

  /** The rest of a string, its opening quote already read. */
  function ReadString(b: Units): (r: Option<(Units, Units)>)
    ensures r.Some? ==> |r.value.1| < |b|
    decreases |b|
  {
    if b != [] && b[0] == QUOTE then Some(([], b[1..]))
    else
      var first := ReadUnit(b);
      if first.None? then None
      else
        var more := ReadString(first.value.1);
        if more.None? then None else Some(([first.value.0] + more.value.0, more.value.1))
  }

  function CountDigits(b: Units): (n: nat)
    ensures n <= |b|
    ensures forall i :: 0 <= i < n ==> IsDigit(b[i])
  {
    if b != [] && IsDigit(b[0]) then 1 + CountDigits(b[1..]) else 0
  }

  function DigitsValue(d: Units): nat
    requires forall i :: 0 <= i < |d| ==> IsDigit(d[i])
  {
    if d == [] then 0
    else
      assert IsDigit(d[|d| - 1]);
      DigitsValue(d[..|d| - 1]) * 10 + (d[|d| - 1] as int - 0x30)
  }

  /** Not the continuation of a number. */
  predicate Delimits(b: Units) {
    b == [] || (!IsDigit(b[0]) && b[0] != U('.') && b[0] != U('e') && b[0] != U('E'))
  }

  function ReadNatural(b: Units): (r: Option<(nat, Units)>)
    ensures r.Some? ==> |r.value.1| < |b|
  {
    var n := CountDigits(b);
    if n == 0 || (n > 1 && b[0] == 0x30) || !Delimits(b[n..]) then None
    else Some((DigitsValue(b[..n]), b[n..]))
  }

  function ReadNumber(b: Units): (r: Option<(Value, Units)>)
    ensures r.Some? ==> |r.value.1| < |b|
  {
    if b == [] then None
    else if b[0] == U('-') then
      var r := ReadNatural(b[1..]);
      if r.None? then None else Some((Num(-(r.value.0 as int)), r.value.1))
    else
      var r := ReadNatural(b);
      if r.None? then None else Some((Num(r.value.0), r.value.1))
  }

  function ReadWord(b: Units, word: Units, v: Value): (r: Option<(Value, Units)>)
    requires word != []
    ensures r.Some? ==> |r.value.1| < |b|
  {
    if word <= b then Some((v, b[|word|..])) else None
  }

  function ReadValue(text: Units): (r: Option<(Value, Units)>)
    ensures r.Some? ==> |r.value.1| < |text|
    decreases |text|, 1
  {
    var b := Skip(text);
    if b == [] then None
    else if b[0] == QUOTE then
      var s := ReadString(b[1..]);
      if s.None? then None else Some((Str(s.value.0), s.value.1))
    else if b[0] == LBRACKET then
      var inner := Skip(b[1..]);
      if inner != [] && inner[0] == RBRACKET then Some((Arr([]), inner[1..]))
      else
        var items := ReadItems(b[1..]);
        if items.None? then None else Some((Arr(items.value.0), items.value.1))
    else if b[0] == LBRACE then
      var inner := Skip(b[1..]);
      if inner != [] && inner[0] == RBRACE then Some((Obj([]), inner[1..]))
      else
        var members := ReadMembers(b[1..]);
        if members.None? then None else Some((Obj(members.value.0), members.value.1))
    else if b[0] == U('n') then ReadWord(b, NULL, Null)
    else if b[0] == U('t') then ReadWord(b, TRUE, Bool(true))
    else if b[0] == U('f') then ReadWord(b, FALSE, Bool(false))
    else ReadNumber(b)
  }

  /** Values up to the closing bracket. */
  function ReadItems(b: Units): (r: Option<(seq<Value>, Units)>)
    ensures r.Some? ==> |r.value.1| < |b|
    decreases |b|, 2
  {
    var first := ReadValue(b);
    if first.None? then None
    else
      var after := Skip(first.value.1);
      if after == [] then None
      else if after[0] == RBRACKET then Some(([first.value.0], after[1..]))
      else if after[0] != COMMA then None
      else
        var more := ReadItems(after[1..]);
        if more.None? then None else Some(([first.value.0] + more.value.0, more.value.1))
  }

  function ReadMember(text: Units): (r: Option<(Member, Units)>)
    ensures r.Some? ==> |r.value.1| < |text|
    decreases |text|, 2
  {
    var b := Skip(text);
    if b == [] || b[0] != QUOTE then None
    else
      var key := ReadString(b[1..]);
      if key.None? then None
      else
        var colon := Skip(key.value.1);
        if colon == [] || colon[0] != COLON then None
        else
          var v := ReadValue(colon[1..]);
          if v.None? then None else Some((Member(key.value.0, v.value.0), v.value.1))
  }

  /** Members up to the closing brace. */
  function ReadMembers(b: Units): (r: Option<(seq<Member>, Units)>)
    ensures r.Some? ==> |r.value.1| < |b|
    decreases |b|, 3
  {
    var first := ReadMember(b);
    if first.None? then None
    else
      var after := Skip(first.value.1);
      if after == [] then None
      else if after[0] == RBRACE then Some(([first.value.0], after[1..]))
      else if after[0] != COMMA then None
      else
        var more := ReadMembers(after[1..]);
        if more.None? then None else Some(([first.value.0] + more.value.0, more.value.1))
  }

  /** A whole JSON text. */
  function Parse(text: Units): Option<Value> {
    var r := ReadValue(text);
    if r.Some? && Skip(r.value.1) == [] then Some(r.value.0) else None
  }

  // ---- strings ---------------------------------------------------------------------------------

  lemma HexRoundTrip(u: Unit, rest: Units)
    ensures ReadUnit(EscapeHex(u) + rest) == Some((u, rest))
  {
    var b := EscapeHex(u) + rest;
    var d := b[2..];
    assert d[0] == HexDigit(u / 4096) && d[1] == HexDigit(u / 256 % 16) && d[2] == HexDigit(u / 16 % 16) && d[3] == HexDigit(u % 16);
    assert HexValue(d[0]) == Some(u / 4096) && HexValue(d[1]) == Some(u / 256 % 16);
    assert HexValue(d[2]) == Some(u / 16 % 16) && HexValue(d[3]) == Some(u % 16);
    assert u / 256 == u / 16 / 16 && u / 4096 == u / 16 / 16 / 16;
    assert b[6..] == rest;
  }

  lemma UnitRoundTrip(u: Unit, rest: Units)
    ensures ReadUnit(EscapeUnit(u) + rest) == Some((u, rest))
    ensures EscapeUnit(u) != [] && EscapeUnit(u)[0] != QUOTE
  {
    var b := EscapeUnit(u) + rest;
    if EscapeUnit(u) == EscapeHex(u) {
      HexRoundTrip(u, rest);
    } else if |EscapeUnit(u)| == 2 {
      assert b[2..] == rest;
    } else {
      assert b[1..] == rest;
    }
  }

  lemma StringStep(b: Units, u: Unit, tail: Units, s: Units, rest: Units)
    requires ReadUnit(b) == Some((u, tail)) && ReadString(tail) == Some((s, rest))
    ensures ReadString(b) == Some(([u] + s, rest))
  {
  }

  lemma PlainUnit(u: Unit, rest: Units)
    requires u >= 0x20 && u != QUOTE && u != BACKSLASH
    ensures ReadUnit([u] + rest) == Some((u, rest))
  {
    assert ([u] + rest)[1..] == rest;
  }

  lemma {:induction false} EscapedRoundTrip(s: Units, rest: Units)
    ensures ReadString(Escaped(s) + [QUOTE] + rest) == Some((s, rest))
    decreases |s|
  {
    var b := Escaped(s) + [QUOTE] + rest;
    if s == [] {
      assert b[1..] == rest;
    } else if PairFirst(s) {
      var tail := Escaped(s[2..]) + [QUOTE] + rest;
      assert b == [s[0]] + ([s[1]] + tail);
      EscapedRoundTrip(s[2..], rest);
      PlainUnit(s[1], tail);
      StringStep([s[1]] + tail, s[1], tail, s[2..], rest);
      PlainUnit(s[0], [s[1]] + tail);
      StringStep(b, s[0], [s[1]] + tail, [s[1]] + s[2..], rest);
      assert s == [s[0]] + ([s[1]] + s[2..]);
    } else {
      var tail := Escaped(s[1..]) + [QUOTE] + rest;
      assert b == EscapeUnit(s[0]) + tail;
      UnitRoundTrip(s[0], tail);
      EscapedRoundTrip(s[1..], rest);
      StringStep(b, s[0], tail, s[1..], rest);
      assert s == [s[0]] + s[1..];
    }
  }

  // ---- numbers ---------------------------------------------------------------------------------

  lemma DecimalStep(n: nat)
    ensures Decimal(n) == if n < 10 then [0x30 + n] else Decimal(n / 10) + [0x30 + n % 10]
  {
  }

  lemma {:induction false} DecimalDigits(n: nat)
    ensures forall i :: 0 <= i < |Decimal(n)| ==> IsDigit(Decimal(n)[i])
    ensures DigitsValue(Decimal(n)) == n
    ensures Decimal(n)[0] == 0x30 ==> n == 0 && |Decimal(n)| == 1
  {
    var d := Decimal(n);
    DecimalStep(n);
    if n < 10 {
      assert d[..0] == [];
    } else {
      DecimalDigits(n / 10);
      assert d[..|d| - 1] == Decimal(n / 10);
    }
  }

  lemma {:induction false} CountAll(d: Units, rest: Units)
    requires forall i :: 0 <= i < |d| ==> IsDigit(d[i])
    requires rest == [] || !IsDigit(rest[0])
    ensures CountDigits(d + rest) == |d|
  {
    if d == [] {
      assert d + rest == rest;
    } else {
      assert (d + rest)[1..] == d[1..] + rest;
      CountAll(d[1..], rest);
    }
  }

  lemma NaturalRoundTrip(n: nat, rest: Units)
    requires Delimits(rest)
    ensures ReadNatural(Decimal(n) + rest) == Some((n, rest))
  {
    var d := Decimal(n);
    DecimalDigits(n);
    CountAll(d, rest);
    var b := d + rest;
    assert b[..|d|] == d && b[|d|..] == rest && b[0] == d[0];
  }

  lemma IntegerStarts(n: int)
    ensures Integer(n) != [] && Integer(n)[0] == (if n < 0 then U('-') else Decimal(n)[0])
    ensures n >= 0 ==> IsDigit(Integer(n)[0])
  {
    DecimalDigits(if n < 0 then -n else n);
  }

  lemma NegativeRoundTrip(n: nat, rest: Units)
    requires Delimits(rest)
    ensures ReadNumber([U('-')] + Decimal(n) + rest) == Some((Num(-(n as int)), rest))
  {
    NaturalRoundTrip(n, rest);
    NegativeNumber([U('-')] + Decimal(n) + rest, Decimal(n) + rest, n, rest);
  }

  lemma NegativeNumber(b: Units, digits: Units, n: nat, rest: Units)
    requires b == [U('-')] + digits && ReadNatural(digits) == Some((n, rest))
    ensures ReadNumber(b) == Some((Num(-(n as int)), rest))
  {
    assert b[1..] == digits;
  }

  lemma PlainNumber(b: Units, n: nat, rest: Units)
    requires b != [] && b[0] != U('-') && ReadNatural(b) == Some((n, rest))
    ensures ReadNumber(b) == Some((Num(n), rest))
  {
  }

  lemma PlainRoundTrip(n: nat, rest: Units)
    requires Delimits(rest)
    ensures ReadNumber(Decimal(n) + rest) == Some((Num(n), rest))
  {
    IntegerStarts(n);
    NaturalRoundTrip(n, rest);
    PlainNumber(Decimal(n) + rest, n, rest);
  }

  lemma IntegerRoundTrip(n: int, rest: Units)
    requires Delimits(rest)
    ensures ReadNumber(Integer(n) + rest) == Some((Num(n), rest))
  {
    if n < 0 { NegativeRoundTrip(-n, rest); } else { PlainRoundTrip(n, rest); }
  }

  // ---- values ----------------------------------------------------------------------------------

  /** A printed value starts with neither white space nor a closing bracket. */
  lemma PrintStarts(v: Value)
    ensures Print(v) != [] && !White(Print(v)[0]) && Print(v)[0] != RBRACKET && Print(v)[0] != RBRACE
  {
    if v.Num? { IntegerStarts(v.n); }
  }

  lemma ReadNumberPrinted(n: int, rest: Units)
    requires Delimits(rest)
    ensures ReadValue(Integer(n) + rest) == Some((Num(n), rest))
  {
    IntegerStarts(n);
    IntegerRoundTrip(n, rest);
    var b := Integer(n) + rest;
    assert b[0] == Integer(n)[0];
    assert Skip(b) == b;
  }

  lemma ReadWordPrinted(v: Value, rest: Units)
    requires v.Null? || v.Bool?
    ensures ReadValue(Print(v) + rest) == Some((v, rest))
  {
    var b := Print(v) + rest;
    assert b[0] == Print(v)[0] && Print(v) <= b && b[|Print(v)|..] == rest;
    assert Skip(b) == b;
  }

  lemma ReadStringPrinted(s: Units, rest: Units)
    ensures ReadValue(Quote(s) + rest) == Some((Str(s), rest))
  {
    EscapedRoundTrip(s, rest);
    var b := Quote(s) + rest;
    assert Skip(b) == b && b[1..] == Escaped(s) + [QUOTE] + rest;
  }

  lemma ReadScalar(v: Value, rest: Units)
    requires !v.Arr? && !v.Obj? && Delimits(rest)
    ensures ReadValue(Print(v) + rest) == Some((v, rest))
  {
    match v
    case Num(n) => ReadNumberPrinted(n, rest);
    case Str(s) => ReadStringPrinted(s, rest);
    case Null => ReadWordPrinted(v, rest);
    case Bool(_) => ReadWordPrinted(v, rest);
  }

  // One element and its separator.

  lemma LastItem(b: Units, v: Value, rest: Units)
    requires ReadValue(b) == Some((v, [RBRACKET] + rest))
    ensures ReadItems(b) == Some(([v], rest))
  {
    var after := [RBRACKET] + rest;
    assert Skip(after) == after && after[1..] == rest;
  }

  lemma NextItem(b: Units, v: Value, next: Units, more: seq<Value>, rest: Units)
    requires ReadValue(b) == Some((v, [COMMA] + next)) && ReadItems(next) == Some((more, rest))
    ensures ReadItems(b) == Some(([v] + more, rest))
  {
    var after := [COMMA] + next;
    assert Skip(after) == after && after[1..] == next;
  }

  lemma LastMember(b: Units, m: Member, rest: Units)
    requires ReadMember(b) == Some((m, [RBRACE] + rest))
    ensures ReadMembers(b) == Some(([m], rest))
  {
    var after := [RBRACE] + rest;
    assert Skip(after) == after && after[1..] == rest;
  }

  lemma NextMember(b: Units, m: Member, next: Units, more: seq<Member>, rest: Units)
    requires ReadMember(b) == Some((m, [COMMA] + next)) && ReadMembers(next) == Some((more, rest))
    ensures ReadMembers(b) == Some(([m] + more, rest))
  {
    var after := [COMMA] + next;
    assert Skip(after) == after && after[1..] == next;
  }

  /** Whatever follows, the reader gives a printed value back and stops exactly behind it. */
  lemma {:induction false} ReadPrinted(v: Value, rest: Units)
    requires Delimits(rest)
    ensures ReadValue(Print(v) + rest) == Some((v, rest))
    decreases v, 1
  {
    match v
    case Arr(items) => ReadPrintedArray(items, rest);
    case Obj(members) => ReadPrintedObject(members, rest);
    case _ => ReadScalar(v, rest);
  }

  lemma {:induction false} ReadPrintedArray(items: seq<Value>, rest: Units)
    ensures ReadValue(Print(Arr(items)) + rest) == Some((Arr(items), rest))
    decreases items, 1
  {
    var inner := Join(PrintItems(items)) + [RBRACKET] + rest;
    var b := Print(Arr(items)) + rest;
    assert b == [LBRACKET] + inner && b[1..] == inner && Skip(b) == b;
    if items == [] {
      assert inner == [RBRACKET] + rest && Skip(inner) == inner && inner[1..] == rest;
    } else {
      PrintStarts(items[0]);
      assert inner[0] == Print(items[0])[0] && Skip(inner) == inner;
      ReadPrintedItems(items, rest);
    }
  }

  lemma {:induction false} ReadPrintedItems(items: seq<Value>, rest: Units)
    requires items != []
    ensures ReadItems(Join(PrintItems(items)) + [RBRACKET] + rest) == Some((items, rest))
    decreases items, 0
  {
    var b := Join(PrintItems(items)) + [RBRACKET] + rest;
    if |items| == 1 {
      assert b == Print(items[0]) + ([RBRACKET] + rest);
      ReadPrinted(items[0], [RBRACKET] + rest);
      LastItem(b, items[0], rest);
      assert items == [items[0]];
    } else {
      var next := Join(PrintItems(items[1..])) + [RBRACKET] + rest;
      assert PrintItems(items)[1..] == PrintItems(items[1..]);
      assert b == Print(items[0]) + ([COMMA] + next);
      ReadPrinted(items[0], [COMMA] + next);
      ReadPrintedItems(items[1..], rest);
      NextItem(b, items[0], next, items[1..], rest);
      assert items == [items[0]] + items[1..];
    }
  }

  lemma {:induction false} ReadPrintedObject(members: seq<Member>, rest: Units)
    ensures ReadValue(Print(Obj(members)) + rest) == Some((Obj(members), rest))
    decreases members, 2
  {
    var inner := MembersText(members, rest);
    var b := Print(Obj(members)) + rest;
    assert b == [LBRACE] + inner && b[1..] == inner && Skip(b) == b;
    if members == [] {
      assert inner == [RBRACE] + rest && Skip(inner) == inner && inner[1..] == rest;
    } else {
      assert inner[0] == QUOTE && Skip(inner) == inner;
      ReadPrintedMembers(members, rest);
    }
  }

  lemma MemberStep(b: Units, key: Units, colon: Units, v: Value, rest: Units)
    requires b != [] && b[0] == QUOTE && ReadString(b[1..]) == Some((key, [COLON] + colon)) && ReadValue(colon) == Some((v, rest))
    ensures ReadMember(b) == Some((Member(key, v), rest))
  {
    var c := [COLON] + colon;
    assert Skip(b) == b && Skip(c) == c && c[1..] == colon;
  }

  lemma {:induction false} ReadPrintedMember(m: Member, rest: Units)
    requires Delimits(rest)
    ensures ReadMember(MemberText(m) + rest) == Some((m, rest))
    decreases m, 2
  {
    hide ReadString, ReadValue, ReadMember, Escaped, Print;
    var b := MemberText(m) + rest;
    var colon := Print(m.value) + rest;
    assert b[1..] == Escaped(m.key) + [QUOTE] + ([COLON] + colon);
    EscapedRoundTrip(m.key, [COLON] + colon);
    ReadPrinted(m.value, rest);
    MemberStep(b, m.key, colon, m.value, rest);
  }

  function MemberText(m: Member): Units { Line(Piece(m.key, Print(m.value))) }

  function MembersText(members: seq<Member>, rest: Units): Units {
    Join(Lines(PrintPieces(members))) + ([RBRACE] + rest)
  }

  lemma JoinFirst(parts: seq<Units>, tail: Units)
    requires parts != []
    ensures Join(parts) + tail == parts[0] + (if |parts| == 1 then tail else [COMMA] + (Join(parts[1..]) + tail))
  {
  }

  lemma LinesFirst(members: seq<Member>)
    requires members != []
    ensures Lines(PrintPieces(members))[0] == MemberText(members[0])
    ensures Lines(PrintPieces(members))[1..] == Lines(PrintPieces(members[1..]))
  {
    assert PrintPieces(members)[1..] == PrintPieces(members[1..]);
  }

  lemma FirstMemberText(members: seq<Member>, rest: Units)
    requires members != []
    ensures MembersText(members, rest) ==
      MemberText(members[0]) + (if |members| == 1 then [RBRACE] + rest else [COMMA] + MembersText(members[1..], rest))
  {
    LinesFirst(members);
    JoinFirst(Lines(PrintPieces(members)), [RBRACE] + rest);
  }

  lemma {:induction false} ReadPrintedMembers(members: seq<Member>, rest: Units)
    requires members != []
    ensures ReadMembers(MembersText(members, rest)) == Some((members, rest))
    decreases members, 1
  {
    var b := MembersText(members, rest);
    FirstMemberText(members, rest);
    if |members| == 1 {
      ReadPrintedMember(members[0], [RBRACE] + rest);
      LastMember(b, members[0], rest);
      assert members == [members[0]];
    } else {
      var next := MembersText(members[1..], rest);
      ReadPrintedMember(members[0], [COMMA] + next);
      ReadPrintedMembers(members[1..], rest);
      NextMember(b, members[0], next, members[1..], rest);
      assert members == [members[0]] + members[1..];
    }
  }

  /** Reading what was canonically printed gives the value with its keys in order. */
  lemma CanonicalRoundTrip(v: Value)
    ensures Parse(Canonicalize(v)) == Some(Ordered(v))
  {
    CanonicalIsPrinted(v);
    ReadPrinted(Ordered(v), []);
    assert Print(Ordered(v)) + [] == Print(Ordered(v));
  }

  // ---- independence of key order ---------------------------------------------------------------

  lemma {:induction false} DistinctCount(s: seq<Member>, m: Member)
    requires forall i, j :: 0 <= i < j < |s| ==> s[i].key != s[j].key
    ensures multiset(s)[m] == if m in s then 1 else 0
  {
    if s != [] {
      DistinctCount(s[1..], m);
      assert s == [s[0]] + s[1..];
      if m in s[1..] { var i :| 0 <= i < |s[1..]| && s[1..][i] == m; assert s[i + 1].key != s[0].key; }
    }
  }

  ghost predicate KeysDiffer(s: seq<Member>) { forall i, j :: 0 <= i < j < |s| ==> s[i].key != s[j].key }

  /** Equally long lists with distinct keys, one within the other, are permutations of each other. */
  lemma SameMembers(a: seq<Member>, b: seq<Member>)
    requires KeysDiffer(a) && KeysDiffer(b) && |a| == |b| && forall i :: 0 <= i < |a| ==> a[i] in b
    ensures multiset(a) == multiset(b)
  {
    forall m ensures multiset(a)[m] <= multiset(b)[m] {
      DistinctCount(a, m);
      DistinctCount(b, m);
    }
    assert multiset(a) <= multiset(b);
    var extra := multiset(b) - multiset(a);
    assert multiset(b) == multiset(a) + extra;
    assert |extra| == 0;
  }

  /** Sorting makes two lists with distinct keys equal exactly when they have the same members. */
  lemma SortedMembersIff(a: seq<Member>, b: seq<Member>)
    requires KeysDiffer(a) && KeysDiffer(b)
    ensures Sort(a, MemberKey) == Sort(b, MemberKey) <==> |a| == |b| && forall i :: 0 <= i < |a| ==> a[i] in b
  {
    assert forall i, j :: 0 <= i < j < |a| ==> MemberKey(a[i]) != MemberKey(a[j]);
    assert Tells(a, MemberKey);
    SortIsCanonical(a, b, MemberKey);
    if multiset(a) == multiset(b) {
      assert |a| == |multiset(a)| == |multiset(b)| == |b|;
      forall i | 0 <= i < |a| ensures a[i] in b { assert a[i] in multiset(b); }
    }
    if |a| == |b| && forall i :: 0 <= i < |a| ==> a[i] in b { SameMembers(a, b); }
  }

  lemma OrderedKeysDiffer(members: seq<Member>)
    requires KeysDiffer(members)
    ensures KeysDiffer(OrderedMembers(members))
  {
    var r := OrderedMembers(members);
    forall i, j | 0 <= i < j < |r| ensures r[i].key != r[j].key {
      assert r[i].key == members[i].key && r[j].key == members[j].key;
    }
  }

  /** Values that differ only in key order have the same ordered form, and no others do. */
  lemma {:induction false} OrderedIff(v: Value, w: Value)
    requires DistinctKeys(v) && DistinctKeys(w)
    ensures Ordered(v) == Ordered(w) <==> Same(v, w)
    decreases v
  {
    match v
    case Arr(items) => if w.Arr? { OrderedArraysIff(v, w); }
    case Obj(members) => if w.Obj? { OrderedObjectsIff(v, w); }
    case _ =>
  }

  lemma {:induction false} OrderedArraysIff(v: Value, w: Value)
    requires DistinctKeys(v) && DistinctKeys(w) && v.Arr? && w.Arr?
    ensures Ordered(v) == Ordered(w) <==> Same(v, w)
    decreases v, 0
  {
    var a, b := OrderedItems(v.items), OrderedItems(w.items);
    if |v.items| == |w.items| {
      forall i | 0 <= i < |v.items| ensures a[i] == b[i] <==> Same(v.items[i], w.items[i]) {
        OrderedIff(v.items[i], w.items[i]);
      }
    }
    if a == b { assert |v.items| == |w.items|; }
  }

  lemma {:induction false} OrderedMembersIff(v: Value, w: Value)
    requires DistinctKeys(v) && DistinctKeys(w) && v.Obj? && w.Obj?
    ensures forall i, j :: 0 <= i < |v.members| && 0 <= j < |w.members| ==>
      (OrderedMembers(v.members)[i] == OrderedMembers(w.members)[j] <==> Alike(v.members[i], w.members[j]))
    decreases v, 0
  {
    forall i, j | 0 <= i < |v.members| && 0 <= j < |w.members|
      ensures OrderedMembers(v.members)[i] == OrderedMembers(w.members)[j] <==> Alike(v.members[i], w.members[j])
    {
      OrderedIff(v.members[i].value, w.members[j].value);
    }
  }

  lemma {:induction false} OrderedObjectsIff(v: Value, w: Value)
    requires DistinctKeys(v) && DistinctKeys(w) && v.Obj? && w.Obj?
    ensures Ordered(v) == Ordered(w) <==> Same(v, w)
    decreases v, 1
  {
    var a, b := OrderedMembers(v.members), OrderedMembers(w.members);
    OrderedMembersIff(v, w);
    OrderedKeysDiffer(v.members);
    OrderedKeysDiffer(w.members);
    SortedMembersIff(a, b);
    forall i | 0 <= i < |a|
      ensures a[i] in b <==> exists j :: 0 <= j < |b| && Alike(v.members[i], w.members[j])
    {
      if a[i] in b {
        var j :| 0 <= j < |b| && a[i] == b[j];
        assert Alike(v.members[i], w.members[j]);
      }
    }
  }

  /** Canonical printing depends on nothing but the value, and tells different values apart. */
  lemma CanonicalIff(v: Value, w: Value)
    requires DistinctKeys(v) && DistinctKeys(w)
    ensures Canonicalize(v) == Canonicalize(w) <==> Same(v, w)
  {
    OrderedIff(v, w);
    CanonicalRoundTrip(v);
    CanonicalRoundTrip(w);
    CanonicalIsPrinted(v);
    CanonicalIsPrinted(w);
  }
}
