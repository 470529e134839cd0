/** Canonical JSON: the printer behind every signed revocation list. */
module Json {
  import opened Sorting
  import Text

  // Members keep the order in which the object was built.
  datatype Value =
    | Null
    | Bool(on: bool)
    | Num(n: int)
    | Str(s: Units)
    | Arr(items: seq<Value>)
    | Obj(members: seq<Member>)
  datatype Member = Member(key: Units, value: Value)
  datatype Piece = Piece(key: Units, text: Units)

  function MemberKey(m: Member): Units { m.key }
  function PieceKey(p: Piece): Units { p.key }

  function U(c: char): Unit
    requires (c as int) < 0x10000
  {
    c as int
  }

  const QUOTE: Unit := 0x22
  const COMMA: Unit := 0x2C
  const COLON: Unit := 0x3A
  const BACKSLASH: Unit := 0x5C
  const LBRACKET: Unit := 0x5B
  const RBRACKET: Unit := 0x5D
  const LBRACE: Unit := 0x7B
  const RBRACE: Unit := 0x7D

  // ---- printing --------------------------------------------------------------------------------

  predicate High(u: Unit) { 0xD800 <= u < 0xDC00 }
  predicate Low(u: Unit) { 0xDC00 <= u < 0xE000 }

  function HexDigit(n: nat): Unit
    requires n < 16
  {
    if n < 10 then 0x30 + n else 0x61 + n - 10
  }

  function EscapeHex(u: Unit): Units {
    [BACKSLASH, U('u'), HexDigit(u / 4096), HexDigit(u / 256 % 16), HexDigit(u / 16 % 16), HexDigit(u % 16)]
  }

  /** How `JSON.stringify` writes one code unit that is not half of a surrogate pair. */
  function EscapeUnit(u: Unit): Units {
    if u == QUOTE || u == BACKSLASH then [BACKSLASH, u]
    else if u == 0x08 then [BACKSLASH, U('b')]
    else if u == 0x0C then [BACKSLASH, U('f')]
    else if u == 0x0A then [BACKSLASH, U('n')]
    else if u == 0x0D then [BACKSLASH, U('r')]
    else if u == 0x09 then [BACKSLASH, U('t')]
    else if u < 0x20 || High(u) || Low(u) then EscapeHex(u)
    else [u]
  }

  predicate PairFirst(s: Units) { |s| >= 2 && High(s[0]) && Low(s[1]) }

  function Escaped(s: Units): Units {
    if s == [] then []
    else if PairFirst(s) then [s[0], s[1]] + Escaped(s[2..])
    else EscapeUnit(s[0]) + Escaped(s[1..])
  }

  function Quote(s: Units): Units { [QUOTE] + Escaped(s) + [QUOTE] }

  function Decimal(n: nat): (r: Units)
    ensures r != []
  {
    var digits := Text.Decimal(n);
    seq(|digits|, i requires 0 <= i < |digits| => digits[i] as int)
  }

  function Integer(n: int): Units { if n < 0 then [U('-')] + Decimal(-n) else Decimal(n) }

  const NULL: Units := [0x6E, 0x75, 0x6C, 0x6C]
  const TRUE: Units := [0x74, 0x72, 0x75, 0x65]
  const FALSE: Units := [0x66, 0x61, 0x6C, 0x73, 0x65]

  function Join(parts: seq<Units>): Units {
    if parts == [] then []
    else if |parts| == 1 then parts[0]
    else parts[0] + [COMMA] + Join(parts[1..])
  }

  function Line(p: Piece): Units { Quote(p.key) + [COLON] + p.text }

  function Lines(pieces: seq<Piece>): (r: seq<Units>)
    ensures |r| == |pieces|
  {
    if pieces == [] then [] else [Line(pieces[0])] + Lines(pieces[1..])
  }

  /** `canonicalize`: members come out in the order of their sorted keys, arrays in their own. */
  function Canonicalize(v: Value): Units {
    match v
    case Null => NULL
    case Bool(on) => if on then TRUE else FALSE
    case Num(n) => Integer(n)
    case Str(s) => Quote(s)
    case Arr(items) => [LBRACKET] + Join(CanonicalItems(items)) + [RBRACKET]
    case Obj(members) => [LBRACE] + Join(Lines(Sort(CanonicalPieces(members), PieceKey))) + [RBRACE]
  }

  function CanonicalItems(items: seq<Value>): seq<Units> {
    if items == [] then [] else [Canonicalize(items[0])] + CanonicalItems(items[1..])
  }

  function CanonicalPieces(members: seq<Member>): seq<Piece> {
    if members == [] then []
    else [Piece(members[0].key, Canonicalize(members[0].value))] + CanonicalPieces(members[1..])
  }

  // ---- printing in the given order, after putting a value in order -----------------------------

  function Print(v: Value): Units {
    match v
    case Null => NULL
    case Bool(on) => if on then TRUE else FALSE
    case Num(n) => Integer(n)
    case Str(s) => Quote(s)
    case Arr(items) => [LBRACKET] + Join(PrintItems(items)) + [RBRACKET]
    case Obj(members) => [LBRACE] + Join(Lines(PrintPieces(members))) + [RBRACE]
  }

  function PrintItems(items: seq<Value>): seq<Units> {
    if items == [] then [] else [Print(items[0])] + PrintItems(items[1..])
  }

  function PrintPieces(members: seq<Member>): (r: seq<Piece>)
    ensures |r| == |members|
  {
    if members == [] then []
    else [Piece(members[0].key, Print(members[0].value))] + PrintPieces(members[1..])
  }

  /** The value with the members of every object in key order. */
  function Ordered(v: Value): Value {
    match v
    case Arr(items) => Arr(OrderedItems(items))
    case Obj(members) => Obj(Sort(OrderedMembers(members), MemberKey))
    case _ => v
  }

  function OrderedItems(items: seq<Value>): (r: seq<Value>)
    ensures |r| == |items| && forall i :: 0 <= i < |r| ==> r[i] == Ordered(items[i])
  {
    if items == [] then [] else [Ordered(items[0])] + OrderedItems(items[1..])
  }

  function OrderedMembers(members: seq<Member>): (r: seq<Member>)
    ensures |r| == |members| && forall i :: 0 <= i < |r| ==> r[i] == Member(members[i].key, Ordered(members[i].value))
  {
    if members == [] then [] else [Member(members[0].key, Ordered(members[0].value))] + OrderedMembers(members[1..])
  }

  lemma {:induction false} InsertPrints(m: Member, members: seq<Member>)
    ensures Insert(Piece(m.key, Print(m.value)), PrintPieces(members), PieceKey) == PrintPieces(Insert(m, members, MemberKey))
  {
    if members != [] && !Leq(m.key, members[0].key) {
      InsertPrints(m, members[1..]);
      assert PrintPieces(members)[1..] == PrintPieces(members[1..]);
      var rest := Insert(m, members[1..], MemberKey);
      assert ([members[0]] + rest)[1..] == rest;
    } else {
      assert ([m] + members)[1..] == members;
    }
  }

  lemma {:induction false} SortPrints(members: seq<Member>)
    ensures Sort(PrintPieces(members), PieceKey) == PrintPieces(Sort(members, MemberKey))
  {
    if members != [] {
      SortPrints(members[1..]);
      assert PrintPieces(members)[1..] == PrintPieces(members[1..]);
      InsertPrints(members[0], Sort(members[1..], MemberKey));
    }
  }

  /** Sorting keys while printing is printing what has been put in order. */
  lemma {:induction false} CanonicalIsPrinted(v: Value)
    ensures Canonicalize(v) == Print(Ordered(v))
    decreases v, 0
  {
    match v
    case Arr(items) => CanonicalItemsPrinted(items);
    case Obj(members) =>
      CanonicalPiecesPrinted(members);
      SortPrints(OrderedMembers(members));
    case _ =>
  }

  lemma {:induction false} CanonicalItemsPrinted(items: seq<Value>)
    ensures CanonicalItems(items) == PrintItems(OrderedItems(items))
    decreases items, 0
  {
    if items != [] {
      CanonicalIsPrinted(items[0]);
      CanonicalItemsPrinted(items[1..]);
    }
  }

  lemma {:induction false} CanonicalPiecesPrinted(members: seq<Member>)
    ensures CanonicalPieces(members) == PrintPieces(OrderedMembers(members))
    decreases members, 0
  {
    if members != [] {
      CanonicalIsPrinted(members[0].value);
      CanonicalPiecesPrinted(members[1..]);
    }
  }

  // ---- equality up to key order ----------------------------------------------------------------

  /** No object has the same key twice, as in every JavaScript value. */
  ghost predicate DistinctKeys(v: Value) {
    match v
    case Arr(items) => forall i :: 0 <= i < |items| ==> DistinctKeys(items[i])
    case Obj(members) =>
      && (forall i, j :: 0 <= i < j < |members| ==> members[i].key != members[j].key)
      && forall i :: 0 <= i < |members| ==> DistinctKeys(members[i].value)
    case _ => true
  }

  /** The same value, whatever the order of members. */
  ghost predicate Same(v: Value, w: Value)
    decreases v
  {
    match v
    case Arr(items) =>
      w.Arr? && |items| == |w.items| && forall i :: 0 <= i < |items| ==> Same(items[i], w.items[i])
    case Obj(members) =>
      w.Obj? && |members| == |w.members| && forall i :: 0 <= i < |members| ==>
        exists j :: 0 <= j < |w.members| && Alike(members[i], w.members[j])
    case _ => v == w
  }

  ghost predicate Alike(m: Member, n: Member)
    decreases m
  {
    m.key == n.key && Same(m.value, n.value)
  }
}
