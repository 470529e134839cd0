/** Which tokens the demo's decoder shows as they were signed. */
module Lic1RoundTrip {
  import opened Tables
  import opened Text
  import opened Cbor
  import opened CborWriter
  import opened Lic1
  import Base64Url

  // ---- names -----------------------------------------------------------------------------------

  function Rank(n: Name): nat {
    match n
    case V => 0 case Lid => 1 case Pid => 2 case Pl => 3 case Cid => 4
    case Iat => 5 case Exp => 6 case Maxa => 7 case Fp => 8 case Fpk => 9
    case Sk => 10 case Ent => 11 case Maxv => 12 case Mnt => 13 case Kid => 14 case Non => 15
  }

  lemma AllByRank()
    ensures |ALL| == 16 && forall i :: 0 <= i < 16 ==> Rank(ALL[i]) == i
    ensures forall n: Name :: n in ALL
  {
    forall n: Name ensures n in ALL { assert ALL[Rank(n)] == n; }
  }

  /** Length, first and last character tell the names apart. */
  function Mark(s: string): (nat, char, char)
    requires s != []
  {
    (|s|, s[0], s[|s| - 1])
  }

  lemma SpelledApart(a: Name, b: Name)
    ensures Spell(a) == Spell(b) <==> a == b
    ensures Spell(a) != "__proto__" && !StartsWithBom(Spell(a))
  {
    assert Spell(a) != [] && Spell(b) != [];
    if a != b { assert Mark(Spell(a)) != Mark(Spell(b)); }
    assert |"__proto__"| == 9;
  }

  // ---- what the reader finds under each name ---------------------------------------------------

  ghost predicate Ascending(names: seq<Name>) {
    forall i, j :: 0 <= i < j < |names| ==> Rank(names[i]) < Rank(names[j])
  }

  /** Reading the entries of a list of names leaves each present claim under its own name. */
  lemma {:induction false} FoundByName(c: Claims, keys: seq<string>, names: seq<Name>, m: Val, n: Name)
    requires forall k :: k in keys ==> k in c.entitlements
    requires m.Obj? && Ascending(names)
    ensures var r := SeenPairs(Entries(c, keys, names), m);
            && r.proto == m.proto
            && (n in names && Field(c, keys, n).Some? ==> Spell(n) in r.own && r.own[Spell(n)] == Seen(Field(c, keys, n).value))
            && (n !in names || Field(c, keys, n).None? ==>
                (Spell(n) in r.own <==> Spell(n) in m.own) && (Spell(n) in m.own ==> r.own[Spell(n)] == m.own[Spell(n)]))
    decreases |names|
  {
    if names != [] {
      var head := names[0];
      var t := Field(c, keys, head);
      var tail := Entries(c, keys, names[1..]);
      SpelledApart(head, n);
      var m1 := if t.Some? then Assign(m, Spell(head), Seen(t.value)) else m;
      if t.Some? {
        assert Entries(c, keys, names) == [Entry(Spell(head), t.value)] + tail;
        assert Entries(c, keys, names)[1..] == tail;
      } else {
        assert Entries(c, keys, names) == tail;
      }
      FoundByName(c, keys, names[1..], m1, n);
      assert n in names <==> n == head || n in names[1..];
      assert n == head ==> n !in names[1..];
    }
  }

  lemma LookupClaim(c: Claims, keys: seq<string>, n: Name)
    requires forall k :: k in keys ==> k in c.entitlements
    ensures Seen(ClaimTree(c, keys)).Obj?
    ensures Lookup(Seen(ClaimTree(c, keys)), Spell(n)) ==
            match Field(c, keys, n) case None => None case Some(t) => Some(Seen(t))
  {
    AllByRank();
    FoundByName(c, keys, ALL, EMPTY, n);
  }

  // ---- entitlements ----------------------------------------------------------------------------

  function EntVal(v: EntValue): Val { match v case Flag(on) => Bool(on) case Limit(n) => Num(n) }

  function EntObj(ent: map<string, EntValue>): Val { Obj(map k | k in ent :: EntVal(ent[k]), None) }

  /** A key the decoder keeps as it is: no leading byte-order mark, and not the one name that a plain
      object refuses. */
  predicate KeepsKey(k: string) { !StartsWithBom(k) && k != "__proto__" }

  /** Under any name, the entries leave the value of the last key that reads as that name. */
  lemma {:induction false} EntSeen(ent: map<string, EntValue>, keys: seq<string>, m: Val, name: string)
    requires m.Obj? && forall k :: k in keys ==> k in ent
    ensures var r := SeenPairs(EntEntries(ent, keys), m);
            && r.proto == m.proto
            && (name in r.own && name !in m.own ==> exists k :: k in keys && StripBom(k) == name && name != "__proto__")
            && ((forall k :: k in keys ==> StripBom(k) != name) ==>
                (name in r.own <==> name in m.own) && (name in m.own ==> r.own[name] == m.own[name]))
    decreases |keys|
  {
    if keys != [] {
      var v := Seen(EntTree(ent[keys[0]]));
      var m1 := Assign(m, StripBom(keys[0]), v);
      assert EntEntries(ent, keys)[1..] == EntEntries(ent, keys[1..]);
      EntSeen(ent, keys[1..], m1, name);
      assert forall k :: k in keys[1..] ==> k in keys;
      var r := SeenPairs(EntEntries(ent, keys), m);
      if name in r.own && name !in m.own {
        if name in m1.own {
          assert keys[0] in keys && StripBom(keys[0]) == name;
        }
      }
    }
  }

  function Values(ent: map<string, EntValue>, keys: seq<string>): map<string, Val>
    requires forall k :: k in keys ==> k in ent
  {
    map k | k in keys :: EntVal(ent[k])
  }

  lemma ValuesStep(ent: map<string, EntValue>, keys: seq<string>, own: map<string, Val>)
    requires keys != [] && forall k :: k in keys ==> k in ent
    requires keys[0] !in keys[1..]
    ensures own[keys[0] := EntVal(ent[keys[0]])] + Values(ent, keys[1..]) == own + Values(ent, keys)
  {
    assert forall k :: k in keys <==> k == keys[0] || k in keys[1..];
  }

  lemma {:induction false} CleanEntSeen(ent: map<string, EntValue>, keys: seq<string>, m: Val)
    requires m.Obj? && forall k :: k in keys ==> k in ent && KeepsKey(k)
    requires forall i, j :: 0 <= i < j < |keys| ==> keys[i] != keys[j]
    ensures SeenPairs(EntEntries(ent, keys), m) == Obj(m.own + Values(ent, keys), m.proto)
    decreases |keys|
  {
    if keys == [] {
      assert m.own + Values(ent, keys) == m.own;
    } else {
      var k0 := keys[0];
      assert k0 in keys;
      assert Seen(EntTree(ent[k0])) == EntVal(ent[k0]);
      assert EntEntries(ent, keys)[1..] == EntEntries(ent, keys[1..]);
      CleanEntSeen(ent, keys[1..], Obj(m.own[k0 := EntVal(ent[k0])], m.proto));
      ValuesStep(ent, keys, m.own);
    }
  }

  /** Among keys with a byte-order mark the longest one is nobody's stripped form. */
  lemma {:induction false} LongestBomKey(keys: seq<string>) returns (k: string)
    requires exists x :: x in keys && StartsWithBom(x)
    ensures k in keys && StartsWithBom(k)
    ensures forall x :: x in keys && StartsWithBom(x) ==> |x| <= |k|
    decreases |keys|
  {
    if exists x :: x in keys[1..] && StartsWithBom(x) {
      k := LongestBomKey(keys[1..]);
      if StartsWithBom(keys[0]) && |k| < |keys[0]| { k := keys[0]; }
    } else {
      k := keys[0];
      assert forall x :: x in keys ==> x == keys[0] || x in keys[1..];
    }
    assert forall x :: x in keys ==> x == keys[0] || x in keys[1..];
  }

  lemma ProtoKeyIsLost(ent: map<string, EntValue>, keys: seq<string>)
    requires Lists(keys, ent) && "__proto__" in ent
    ensures SeenPairs(EntEntries(ent, keys), EMPTY) != EntObj(ent)
  {
    EntSeen(ent, keys, EMPTY, "__proto__");
    assert "__proto__" in EntObj(ent).own;
  }

  lemma BomKeyIsLost(ent: map<string, EntValue>, keys: seq<string>)
    requires Lists(keys, ent) && exists x :: x in ent && StartsWithBom(x)
    ensures SeenPairs(EntEntries(ent, keys), EMPTY) != EntObj(ent)
  {
    assert exists x :: x in keys && StartsWithBom(x);
    var k := LongestBomKey(keys);
    forall x | x in keys ensures StripBom(x) != k { StrippedShorter(x, k); }
    EntSeen(ent, keys, EMPTY, k);
    assert k in EntObj(ent).own;
  }

  lemma StrippedShorter(x: string, k: string)
    requires StartsWithBom(k) && (StartsWithBom(x) ==> |x| <= |k|)
    ensures StripBom(x) != k
  {
  }

  lemma CleanKeysSurvive(ent: map<string, EntValue>, keys: seq<string>)
    requires Lists(keys, ent) && AllKept(ent)
    ensures SeenPairs(EntEntries(ent, keys), EMPTY) == EntObj(ent)
  {
    CleanEntSeen(ent, keys, EMPTY);
    var own := EMPTY.own + Values(ent, keys);
    assert own == EntObj(ent).own;
  }

  predicate AllKept(ent: map<string, EntValue>) { forall k :: k in ent ==> KeepsKey(k) }

  /** The entitlements come back exactly when every key is one the decoder keeps. */
  lemma EntitlementsIff(ent: map<string, EntValue>, keys: seq<string>)
    requires Lists(keys, ent)
    ensures SeenPairs(EntEntries(ent, keys), EMPTY) == EntObj(ent) <==> AllKept(ent)
  {
    if AllKept(ent) {
      CleanKeysSurvive(ent, keys);
    } else if "__proto__" in ent {
      ProtoKeyIsLost(ent, keys);
    } else {
      var x :| x in ent && !KeepsKey(x);
      BomKeyIsLost(ent, keys);
    }
  }

  // ---- the round trip --------------------------------------------------------------------------

  const TWO_53: int := 0x20_0000_0000_0000

  predicate SafeInt(n: int) { -TWO_53 < n < TWO_53 }
  predicate SafeText(s: string) { |Encode(s)| < TWO_53 }
  predicate SafeOpt(n: Option<int>) { n.Some? ==> SafeInt(n.value) }

  /** Integers that a JavaScript number holds exactly, and texts no engine can exceed. */
  predicate Safe(c: Claims, keys: seq<string>) {
    && SafeInt(c.tokenVersion) && SafeInt(c.issuedAt) && SafeInt(c.maxActivations)
    && SafeOpt(c.expiresAt) && SafeOpt(c.fpMin) && SafeOpt(c.maxSkewSecs) && SafeOpt(c.maintenanceUntil)
    && SafeText(c.licenseId) && SafeText(c.productId) && SafeText(c.planId) && SafeText(c.customerId)
    && SafeText(c.keyId) && SafeText(c.nonce) && (c.maxVersion.Some? ==> SafeText(c.maxVersion.value))
    && (c.fingerprint.Some? ==>
          |c.fingerprint.value| < TWO_53 && forall i :: 0 <= i < |c.fingerprint.value| ==> SafeText(c.fingerprint.value[i]))
    && |keys| < TWO_53
    && forall k :: k in c.entitlements ==> SafeText(k) && (c.entitlements[k].Limit? ==> SafeInt(c.entitlements[k].n))
  }

  /** The signed claims that the demo shows, as they were signed. */
  function Signed(c: Claims): Shown {
    Shown(c.licenseId, c.productId, c.planId, c.customerId, c.issuedAt, c.expiresAt, Some(c.maxActivations), c.keyId,
          EntObj(c.entitlements))
  }

  predicate Displayable(c: Claims) {
    && !StartsWithBom(c.licenseId) && !StartsWithBom(c.productId) && !StartsWithBom(c.planId)
    && !StartsWithBom(c.customerId) && !StartsWithBom(c.keyId)
    && AllKept(c.entitlements)
  }

  lemma FieldFits(c: Claims, keys: seq<string>, n: Name)
    requires (forall k :: k in keys ==> k in c.entitlements) && Safe(c, keys) && Field(c, keys, n).Some?
    ensures Fits(Field(c, keys, n).value)
  {
    if n == Ent {
      var es := EntEntries(c.entitlements, keys);
      forall i | 0 <= i < |es| ensures |Encode(es[i].key)| < TWO_64 && Fits(es[i].value) {
        assert keys[i] in c.entitlements;
      }
    }
  }

  lemma {:induction false} EntriesFit(c: Claims, keys: seq<string>, names: seq<Name>)
    requires (forall k :: k in keys ==> k in c.entitlements) && Safe(c, keys)
    ensures |Entries(c, keys, names)| <= |names| && FitPairs(Entries(c, keys, names))
    decreases |names|
  {
    if names != [] {
      EntriesFit(c, keys, names[1..]);
      var n := names[0];
      if Field(c, keys, n).Some? { FieldFits(c, keys, n); }
      EncodedSpell(n);
    }
  }

  lemma {:induction false} EncodedLength(s: string)
    ensures |Encode(s)| <= 4 * |s|
  {
    if s != [] { EncodedLength(s[1..]); }
  }

  lemma EncodedSpell(n: Name)
    ensures |Encode(Spell(n))| < TWO_64
  {
    EncodedLength(Spell(n));
  }

  lemma TokenFits(c: Claims, keys: seq<string>)
    requires Lists(keys, c.entitlements) && Safe(c, keys)
    ensures Fits(ClaimTree(c, keys))
  {
    AllByRank();
    EntriesFit(c, keys, ALL);
  }

  function Issue(c: Claims, keys: seq<string>, signature: seq<Byte>): string
    requires (forall k :: k in keys ==> k in c.entitlements) && Fits(ClaimTree(c, keys))
  {
    Token(Write(ClaimTree(c, keys)), signature)
  }

  /** What the decoder makes of an issued token. */
  lemma DecodedIssue(c: Claims, keys: seq<string>, signature: seq<Byte>)
    requires Lists(keys, c.entitlements) && Safe(c, keys) && |signature| == SIG_LEN && Fits(ClaimTree(c, keys))
    ensures Decoded(Issue(c, keys, signature)) == Some(Show(Seen(ClaimTree(c, keys))))
  {
    var payload := Write(ClaimTree(c, keys));
    var token := Issue(c, keys, signature);
    assert token[5..] == Base64Url.Encode(Transport(payload, signature));
    Base64Url.BrowserRoundTrip(Transport(payload, signature));
    TransportSplit(payload, signature);
    assert payload + [] == payload;
    ReadWritten(ClaimTree(c, keys), []);
  }

  lemma ShownFields(c: Claims, keys: seq<string>)
    requires Lists(keys, c.entitlements)
    ensures Show(Seen(ClaimTree(c, keys))) ==
            Shown(StripBom(c.licenseId), StripBom(c.productId), StripBom(c.planId), StripBom(c.customerId), c.issuedAt,
                  c.expiresAt, Some(c.maxActivations), StripBom(c.keyId), SeenPairs(EntEntries(c.entitlements, keys), EMPTY))
  {
    LookupClaim(c, keys, Lid);
    LookupClaim(c, keys, Pid);
    LookupClaim(c, keys, Pl);
    LookupClaim(c, keys, Cid);
    LookupClaim(c, keys, Iat);
    LookupClaim(c, keys, Exp);
    LookupClaim(c, keys, Maxa);
    LookupClaim(c, keys, Kid);
    LookupClaim(c, keys, Ent);
  }

  lemma StripBomIff(s: string)
    ensures StripBom(s) == s <==> !StartsWithBom(s)
  {
    if StartsWithBom(s) { assert |StripBom(s)| < |s|; }
  }

  /** Every issued token decodes, and what is shown is what was signed exactly when no shown text and
      no entitlement key starts with a byte-order mark and no entitlement is named `__proto__`. */
  lemma Lic1RoundTripIff(c: Claims, keys: seq<string>, signature: seq<Byte>)
    requires Lists(keys, c.entitlements) && Safe(c, keys) && |signature| == SIG_LEN
    ensures Fits(ClaimTree(c, keys))
    ensures Decoded(Issue(c, keys, signature)).Some?
    ensures Decoded(Issue(c, keys, signature)) == Some(Signed(c)) <==> Displayable(c)
  {
    TokenFits(c, keys);
    DecodedIssue(c, keys, signature);
    ShownFields(c, keys);
    EntitlementsIff(c.entitlements, keys);
    StripBomIff(c.licenseId);
    StripBomIff(c.productId);
    StripBomIff(c.planId);
    StripBomIff(c.customerId);
    StripBomIff(c.keyId);
  }
}
