/** The bytes a revocation list is signed over, the row it is stored in and the artifact it is served as. */
module CrlBytes {
  import opened Tables
  import opened Sorting
  import opened Json
  import opened JsonReader
  import Text

  type Byte = Text.Byte

  // ---- JavaScript strings as UTF-8 -------------------------------------------------------------

  /** `Buffer.from(s, "utf8")` sees the characters of a string; half a pair becomes U+FFFD. */
  function Scalars(u: Units): string
    decreases |u|
  {
    if u == [] then []
    else if PairFirst(u) then [(0x10000 + (u[0] as int - 0xD800) * 0x400 + (u[1] as int - 0xDC00)) as char] + Scalars(u[2..])
    else if High(u[0]) || Low(u[0]) then [Text.REPLACEMENT] + Scalars(u[1..])
    else [u[0] as char] + Scalars(u[1..])
  }

  function Utf8(u: Units): seq<Byte> { Text.Encode(Scalars(u)) }

  /** Every surrogate is half of a pair. */
  predicate Paired(u: Units)
    decreases |u|
  {
    u == [] || (if PairFirst(u) then Paired(u[2..]) else !High(u[0]) && !Low(u[0]) && Paired(u[1..]))
  }

  function CharUnits(c: char): Units {
    var n := c as int;
    if n < 0x10000 then [n] else [0xD800 + (n - 0x10000) / 0x400, 0xDC00 + (n - 0x10000) % 0x400]
  }

  function ToUnits(s: string): Units {
    if s == [] then [] else CharUnits(s[0]) + ToUnits(s[1..])
  }

  lemma {:induction false} ScalarsBack(u: Units)
    requires Paired(u)
    ensures ToUnits(Scalars(u)) == u
    decreases |u|
  {
    if u == [] {
    } else if PairFirst(u) {
      ScalarsBack(u[2..]);
      assert u == [u[0], u[1]] + u[2..];
    } else {
      ScalarsBack(u[1..]);
      assert u == [u[0]] + u[1..];
    }
  }

  lemma Utf8Injective(u: Units, w: Units)
    requires Paired(u) && Paired(w) && Utf8(u) == Utf8(w)
    ensures u == w
  {
    Text.DecodeEncoded(Scalars(u));
    Text.DecodeEncoded(Scalars(w));
    ScalarsBack(u);
    ScalarsBack(w);
  }

  /** A lone surrogate and U+FFFD itself have the same bytes: only well-formed strings are told apart. */
  lemma LoneSurrogateCollides()
    ensures Utf8([0xD800]) == Utf8([0xFFFD])
  {
    assert Scalars([0xD800]) == Scalars([0xFFFD]);
  }

  // ---- the printer writes well-formed strings --------------------------------------------------

  lemma {:induction false} PairedConcat(a: Units, b: Units)
    requires Paired(a) && Paired(b)
    ensures Paired(a + b)
    decreases |a|
  {
    if a == [] {
      assert a + b == b;
    } else if PairFirst(a) {
      assert (a + b)[2..] == a[2..] + b;
      PairedConcat(a[2..], b);
    } else {
      assert (a + b)[1..] == a[1..] + b;
      PairedConcat(a[1..], b);
    }
  }

  lemma {:induction false} PlainPaired(a: Units)
    requires forall i :: 0 <= i < |a| ==> !High(a[i]) && !Low(a[i])
    ensures Paired(a)
  {
    if a != [] { PlainPaired(a[1..]); }
  }

  lemma {:induction false} EscapedPaired(s: Units)
    ensures Paired(Escaped(s))
    decreases |s|
  {
    if s == [] {
    } else if PairFirst(s) {
      EscapedPaired(s[2..]);
      assert Escaped(s)[2..] == Escaped(s[2..]);
    } else {
      EscapedPaired(s[1..]);
      PlainPaired(EscapeUnit(s[0]));
      PairedConcat(EscapeUnit(s[0]), Escaped(s[1..]));
    }
  }

  lemma QuotePaired(s: Units)
    ensures Paired(Quote(s))
  {
    EscapedPaired(s);
    PlainPaired([QUOTE]);
    PairedConcat([QUOTE], Escaped(s));
    PairedConcat([QUOTE] + Escaped(s), [QUOTE]);
  }

  lemma {:induction false} JoinPaired(parts: seq<Units>)
    requires forall i :: 0 <= i < |parts| ==> Paired(parts[i])
    ensures Paired(Join(parts))
  {
    if |parts| > 1 {
      JoinPaired(parts[1..]);
      PlainPaired([COMMA]);
      PairedConcat(parts[0], [COMMA]);
      PairedConcat(parts[0] + [COMMA], Join(parts[1..]));
    }
  }

  lemma BracketsPaired(open: Unit, inner: Units, close: Unit)
    requires Paired(inner) && !High(open) && !Low(open) && !High(close) && !Low(close)
    ensures Paired([open] + inner + [close])
  {
    PlainPaired([open]);
    PlainPaired([close]);
    PairedConcat([open], inner);
    PairedConcat([open] + inner, [close]);
  }

  lemma IntegerPaired(n: int)
    ensures Paired(Integer(n))
  {
    var m := if n < 0 then -n else n;
    DecimalDigits(m);
    forall i | 0 <= i < |Decimal(m)| ensures !High(Decimal(m)[i]) && !Low(Decimal(m)[i]) { assert IsDigit(Decimal(m)[i]); }
    PlainPaired(Decimal(m));
    PlainPaired([U('-')]);
    PairedConcat([U('-')], Decimal(m));
  }

  lemma {:induction false} PrintPaired(v: Value)
    ensures Paired(Print(v))
    decreases v, 1
  {
    match v
    case Arr(items) =>
      ItemsPaired(items);
      JoinPaired(PrintItems(items));
      BracketsPaired(LBRACKET, Join(PrintItems(items)), RBRACKET);
    case Obj(members) =>
      LinesPaired(members);
      JoinPaired(Lines(PrintPieces(members)));
      BracketsPaired(LBRACE, Join(Lines(PrintPieces(members))), RBRACE);
    case Str(s) => QuotePaired(s);
    case Num(n) => IntegerPaired(n);
    case _ => PlainPaired(Print(v));
  }

  lemma {:induction false} ItemsPaired(items: seq<Value>)
    ensures forall i :: 0 <= i < |PrintItems(items)| ==> Paired(PrintItems(items)[i])
    decreases items, 0
  {
    if items != [] {
      PrintPaired(items[0]);
      ItemsPaired(items[1..]);
    }
  }

  lemma {:induction false} LinesPaired(members: seq<Member>)
    ensures forall i :: 0 <= i < |Lines(PrintPieces(members))| ==> Paired(Lines(PrintPieces(members))[i])
    decreases members, 0
  {
    if members != [] {
      var m := members[0];
      QuotePaired(m.key);
      PlainPaired([COLON]);
      PrintPaired(m.value);
      PairedConcat(Quote(m.key), [COLON]);
      PairedConcat(Quote(m.key) + [COLON], Print(m.value));
      LinesPaired(members[1..]);
      assert PrintPieces(members)[1..] == PrintPieces(members[1..]);
    }
  }

  /** Bytes of canonical texts are equal only if the texts are. */
  lemma CanonicalBytesInjective(v: Value, w: Value)
    requires Utf8(Canonicalize(v)) == Utf8(Canonicalize(w))
    ensures Canonicalize(v) == Canonicalize(w)
  {
    CanonicalIsPrinted(v);
    CanonicalIsPrinted(w);
    PrintPaired(Ordered(v));
    PrintPaired(Ordered(w));
    Utf8Injective(Canonicalize(v), Canonicalize(w));
  }

  // ---- documents -------------------------------------------------------------------------------

  datatype RevokedIds = RevokedIds(licenses: seq<Units>, activations: seq<Units>)

  datatype CrlDocument = CrlDocument(version: nat, generatedAt: Units, nextUpdate: Units, revokedIds: RevokedIds)

  datatype RevocationListRecord = RevocationListRecord(
    productId: Units, version: nat, generatedAt: Units, nextUpdate: Units, keyId: Units, signature: Units, revokedIds: RevokedIds)

  datatype CrlRow = CrlRow(
    productId: Units, version: nat, generatedAt: int, nextUpdate: int, keyId: Units, signature: Units, revokedIds: Option<Value>)

  function K(s: string): (r: Units)
    ensures |r| == |s| && forall i :: 0 <= i < |s| && s[i] as int < 0x10000 ==> r[i] == s[i] as int
  {
    seq(|s|, i requires 0 <= i < |s| => if s[i] as int < 0x10000 then s[i] as int else 0xFFFD)
  }

  function Strings(texts: seq<Units>): (r: seq<Value>)
    ensures |r| == |texts| && forall i :: 0 <= i < |r| ==> r[i] == Str(texts[i])
  {
    seq(|texts|, i requires 0 <= i < |texts| => Str(texts[i]))
  }

  function SortRevokedIds(ids: RevokedIds): RevokedIds {
    RevokedIds(Sort(ids.licenses, Itself), Sort(ids.activations, Itself))
  }

  function IdsValue(ids: RevokedIds): Value {
    Obj([Member(K("licenses"), Arr(Strings(ids.licenses))), Member(K("activations"), Arr(Strings(ids.activations)))])
  }

  function DocumentMembers(doc: CrlDocument): seq<Member> {
    [Member(K("version"), Num(doc.version)), Member(K("generatedAt"), Str(doc.generatedAt)),
     Member(K("nextUpdate"), Str(doc.nextUpdate)), Member(K("revokedIds"), IdsValue(doc.revokedIds))]
  }

  function Normalized(doc: CrlDocument): CrlDocument { doc.(revokedIds := SortRevokedIds(doc.revokedIds)) }

  function BuildCanonicalCrlBytes(doc: CrlDocument): seq<Byte> {
    Utf8(Canonicalize(Obj(DocumentMembers(Normalized(doc)))))
  }

  function SerializeCrlArtifact(r: RevocationListRecord): Units {
    Canonicalize(ArtifactValue(r))
  }

  function ArtifactValue(r: RevocationListRecord): Value {
    Obj([Member(K("version"), Num(r.version)), Member(K("productId"), Str(r.productId)),
         Member(K("generatedAt"), Str(r.generatedAt)), Member(K("nextUpdate"), Str(r.nextUpdate)),
         Member(K("keyId"), Str(r.keyId)), Member(K("signature"), Str(r.signature)),
         Member(K("revokedIds"), IdsValue(SortRevokedIds(r.revokedIds)))])
  }

  /** The document inside a record. */
  function DocumentOf(r: RevocationListRecord): CrlDocument {
    CrlDocument(r.version, r.generatedAt, r.nextUpdate, r.revokedIds)
  }

  // ---- reading a document out of a JSON value --------------------------------------------------

  function Field(members: seq<Member>, key: Units): Option<Value> {
    if members == [] then None
    else if members[0].key == key then Some(members[0].value)
    else Field(members[1..], key)
  }

  function TextAt(members: seq<Member>, key: Units): Units {
    match Field(members, key)
    case Some(Str(s)) => s
    case _ => []
  }

  function Texts(items: seq<Value>): (r: seq<Units>)
    ensures |r| == |items|
  {
    seq(|items|, i requires 0 <= i < |items| => if items[i].Str? then items[i].s else [])
  }

  /** `ids?.licenses ?? []`, and the same for activations. */
  function IdsAt(ids: Option<Value>, key: Units): seq<Units> {
    if ids.Some? && ids.value.Obj? then
      match Field(ids.value.members, key)
      case Some(Arr(items)) => Texts(items)
      case _ => []
    else []
  }

  function ReadIds(ids: Option<Value>): RevokedIds { RevokedIds(IdsAt(ids, K("licenses")), IdsAt(ids, K("activations"))) }

  /** What a client takes from a fetched list to rebuild the signed document. */
  function ReadDocument(members: seq<Member>): CrlDocument {
    CrlDocument(
      match Field(members, K("version")) case Some(Num(n)) => (if n >= 0 then n else 0) case _ => 0,
      TextAt(members, K("generatedAt")), TextAt(members, K("nextUpdate")), ReadIds(Field(members, K("revokedIds"))))
  }

  lemma {:induction false} FieldFound(members: seq<Member>, m: Member)
    requires KeysDiffer(members) && m in members
    ensures Field(members, m.key) == Some(m.value)
  {
    if members[0] != m {
      var i :| 0 <= i < |members| && members[i] == m;
      assert members[1..][i - 1] == m;
      FieldFound(members[1..], m);
    }
  }

  lemma TextsBack(texts: seq<Units>)
    ensures Texts(Strings(texts)) == texts && OrderedItems(Strings(texts)) == Strings(texts)
  {
  }

  /** Putting members in order does not change what is found under a key. */
  lemma FieldOrdered(members: seq<Member>, m: Member)
    requires KeysDiffer(members) && m in members
    ensures Ordered(Obj(members)).Obj? && Field(Ordered(Obj(members)).members, m.key) == Some(Ordered(m.value))
  {
    var inner := OrderedMembers(members);
    var sorted := Sort(inner, MemberKey);
    SortSorts(inner, MemberKey);
    OrderedKeysDiffer(members);
    SortedKeysDiffer(inner);
    var i :| 0 <= i < |members| && members[i] == m;
    var o := Member(m.key, Ordered(m.value));
    assert inner[i] == o && o in multiset(inner) && o in multiset(sorted);
    FieldFound(sorted, o);
  }

  lemma SortedKeysDiffer(members: seq<Member>)
    requires KeysDiffer(members)
    ensures KeysDiffer(Sort(members, MemberKey))
  {
    var s := Sort(members, MemberKey);
    SortSorts(members, MemberKey);
    forall i, j | 0 <= i < j < |s| ensures s[i].key != s[j].key {
      if s[i].key == s[j].key {
        TwiceCounted(s, i, j);
        assert s[i] in multiset(members) && s[j] in multiset(members);
        SameKeySame(members, s[i], s[j]);
        DistinctCount(members, s[i]);
        assert false;
      }
    }
  }

  lemma SameKeySame(members: seq<Member>, a: Member, b: Member)
    requires KeysDiffer(members) && a in members && b in members && a.key == b.key
    ensures a == b
  {
    FieldFound(members, a);
    FieldFound(members, b);
  }

  lemma TwiceCounted<T>(s: seq<T>, i: int, j: int)
    requires 0 <= i < j < |s|
    ensures s[i] == s[j] ==> multiset(s)[s[i]] >= 2
  {
    assert s == s[..i] + [s[i]] + s[i + 1..j] + [s[j]] + s[j + 1..];
  }

  lemma IdsKeysDiffer(ids: RevokedIds)
    ensures KeysDiffer(IdsValue(ids).members) && DistinctKeys(IdsValue(ids))
  {
    assert |K("licenses")| == 8 && |K("activations")| == 11;
  }

  lemma ReadIdsBack(ids: RevokedIds)
    ensures ReadIds(Some(Ordered(IdsValue(ids)))) == ids
  {
    var members := IdsValue(ids).members;
    IdsKeysDiffer(ids);
    FieldOrdered(members, members[0]);
    FieldOrdered(members, members[1]);
    TextsBack(ids.licenses);
    TextsBack(ids.activations);
  }

  /** A list that carries a document's members, among others, reads back as that document. */
  lemma ReadDocumentBack(members: seq<Member>, doc: CrlDocument)
    requires KeysDiffer(members) && forall i :: 0 <= i < 4 ==> DocumentMembers(doc)[i] in members
    ensures Ordered(Obj(members)).Obj? && ReadDocument(Ordered(Obj(members)).members) == doc
  {
    var d := DocumentMembers(doc);
    FieldOrdered(members, d[0]);
    FieldOrdered(members, d[1]);
    FieldOrdered(members, d[2]);
    FieldOrdered(members, d[3]);
    ReadIdsBack(doc.revokedIds);
  }

  lemma DocumentKeysDiffer(doc: CrlDocument)
    ensures KeysDiffer(DocumentMembers(doc))
  {
    assert |K("version")| == 7 && |K("generatedAt")| == 11 && |K("nextUpdate")| == 10 && |K("revokedIds")| == 10;
    assert K("nextUpdate")[0] != K("revokedIds")[0];
  }

  lemma ArtifactKeysDiffer(r: RevocationListRecord)
    ensures KeysDiffer(ArtifactValue(r).members)
  {
    assert |K("version")| == 7 && |K("generatedAt")| == 11 && |K("nextUpdate")| == 10 && |K("revokedIds")| == 10;
    assert |K("productId")| == 9 && |K("keyId")| == 5 && |K("signature")| == 9;
    assert K("nextUpdate")[0] != K("revokedIds")[0] && K("productId")[0] != K("signature")[0];
  }

  // ---- the properties --------------------------------------------------------------------------

  lemma DocumentRoundTrip(doc: CrlDocument)
    ensures var v := Parse(Canonicalize(Obj(DocumentMembers(doc))));
            v.Some? && v.value.Obj? && ReadDocument(v.value.members) == doc
  {
    DocumentKeysDiffer(doc);
    CanonicalRoundTrip(Obj(DocumentMembers(doc)));
    ReadDocumentBack(DocumentMembers(doc), doc);
  }

  /** Two lists are signed over the same bytes exactly when version, times and both id multisets agree. */
  lemma SameBytesIff(d: CrlDocument, e: CrlDocument)
    ensures BuildCanonicalCrlBytes(d) == BuildCanonicalCrlBytes(e) <==>
      && d.version == e.version && d.generatedAt == e.generatedAt && d.nextUpdate == e.nextUpdate
      && multiset(d.revokedIds.licenses) == multiset(e.revokedIds.licenses)
      && multiset(d.revokedIds.activations) == multiset(e.revokedIds.activations)
  {
    SortTextsIff(d.revokedIds.licenses, e.revokedIds.licenses);
    SortTextsIff(d.revokedIds.activations, e.revokedIds.activations);
    if BuildCanonicalCrlBytes(d) == BuildCanonicalCrlBytes(e) {
      CanonicalBytesInjective(Obj(DocumentMembers(Normalized(d))), Obj(DocumentMembers(Normalized(e))));
      DocumentRoundTrip(Normalized(d));
      DocumentRoundTrip(Normalized(e));
    }
  }

  /** `mapCrlRow`; `iso` writes a time. */
  function MapCrlRow(row: CrlRow, iso: int -> Units): RevocationListRecord {
    RevocationListRecord(row.productId, row.version, iso(row.generatedAt), iso(row.nextUpdate), row.keyId, row.signature, ReadIds(row.revokedIds))
  }

  lemma SameStrings(texts: seq<Units>, v: Value)
    requires Same(Arr(Strings(texts)), v)
    ensures v.Arr? && Texts(v.items) == texts
  {
    assert |v.items| == |texts|;
    forall i | 0 <= i < |texts| ensures v.items[i] == Str(texts[i]) {
      assert Same(Strings(texts)[i], v.items[i]);
    }
  }

  /** A JSON column may reorder the keys of what was stored; the ids read back all the same. */
  lemma StoredIdsBack(ids: RevokedIds, stored: Value)
    requires Same(IdsValue(ids), stored) && DistinctKeys(stored)
    ensures ReadIds(Some(stored)) == ids
  {
    var members := IdsValue(ids).members;
    var i :| 0 <= i < |stored.members| && Alike(members[0], stored.members[i]);
    var j :| 0 <= j < |stored.members| && Alike(members[1], stored.members[j]);
    FieldFound(stored.members, stored.members[i]);
    FieldFound(stored.members, stored.members[j]);
    SameStrings(ids.licenses, stored.members[i].value);
    SameStrings(ids.activations, stored.members[j].value);
  }

  /** A stored list, read back from its row, re-encodes to the bytes that were signed. */
  lemma StoredReencodes(row: CrlRow, iso: int -> Units, ids: RevokedIds)
    requires row.revokedIds.Some? && DistinctKeys(row.revokedIds.value)
    requires Same(IdsValue(SortRevokedIds(ids)), row.revokedIds.value)
    ensures BuildCanonicalCrlBytes(DocumentOf(MapCrlRow(row, iso))) ==
            BuildCanonicalCrlBytes(CrlDocument(row.version, iso(row.generatedAt), iso(row.nextUpdate), ids))
  {
    StoredIdsBack(SortRevokedIds(ids), row.revokedIds.value);
    SortTextsIff(ids.licenses, []);
    SortTextsIff(ids.activations, []);
    SameBytesIff(DocumentOf(MapCrlRow(row, iso)), CrlDocument(row.version, iso(row.generatedAt), iso(row.nextUpdate), ids));
  }

  /** What is inserted is itself such a value: the sorted ids, printed and read. */
  lemma InsertedIsStored(ids: RevokedIds)
    ensures var text := Print(IdsValue(SortRevokedIds(ids)));
            Parse(text) == Some(IdsValue(SortRevokedIds(ids)))
  {
    var v := IdsValue(SortRevokedIds(ids));
    ReadPrinted(v, []);
    assert Print(v) + [] == Print(v);
  }

  /** A client that parses the served artifact and rebuilds the document gets the bytes that the
      record's document was signed over. */
  lemma ServedReencodes(r: RevocationListRecord)
    ensures var v := Parse(SerializeCrlArtifact(r));
            v.Some? && v.value.Obj? &&
            BuildCanonicalCrlBytes(ReadDocument(v.value.members)) == BuildCanonicalCrlBytes(DocumentOf(r))
  {
    var doc := Normalized(DocumentOf(r));
    var members := ArtifactValue(r).members;
    ArtifactKeysDiffer(r);
    CanonicalRoundTrip(ArtifactValue(r));
    var d := DocumentMembers(doc);
    assert d[0] == members[0] && d[1] == members[2] && d[2] == members[3] && d[3] == members[6];
    ReadDocumentBack(members, doc);
    SortTextsIff(r.revokedIds.licenses, []);
    SortTextsIff(r.revokedIds.activations, []);
    SameBytesIff(doc, DocumentOf(r));
  }
}
