/** Which fields redaction catches, said of the keys as they are written, and which it lets through. */
module RedactionNames {
  import opened Tables
  import opened Redaction

  // ---- spellings -------------------------------------------------------------------------------

  /** A lower-case letter is written in either case, a digit as itself; the Kelvin sign is a k and the
      dotted capital I an i. */
  predicate StandsFor(c: char, l: char) {
    || ('0' <= l <= '9' && c == l)
    || ('a' <= l <= 'z' && (c == l || c as int - 'A' as int == l as int - 'a' as int))
    || (l == 'k' && c == '\U{212A}')
    || (l == 'i' && c == '\U{0130}')
  }

  /** Neither a letter nor a digit. */
  predicate Filler(c: char) {
    !('a' <= c <= 'z') && !('A' <= c <= 'Z') && !('0' <= c <= '9') && c != '\U{212A}' && c != '\U{0130}'
  }

  /** The key is the name, with letters in either case and separators anywhere. */
  predicate Spells(key: string, name: string) {
    if key == [] then name == []
    else
      || (Filler(key[0]) && Spells(key[1..], name))
      || (name != [] && StandsFor(key[0], name[0]) && Spells(key[1..], name[1..]))
  }

  ghost predicate SpellsOne(key: string, names: set<string>) { exists n :: n in names && Spells(key, n) }

  lemma {:induction false} SpellsIff(key: string, name: string)
    ensures Spells(key, name) <==> NormalizeKey(key) == name
  {
    if key != [] {
      var c := key[0];
      SpellsIff(key[1..], name);
      if Filler(c) {
        assert forall l :: !StandsFor(c, l);
      } else {
        var l := NormalizeChar(c);
        assert |l| == 1 && forall x :: StandsFor(c, x) <==> x == l[0];
        assert NormalizeKey(key) == l + NormalizeKey(key[1..]);
        assert NormalizeKey(key)[1..] == NormalizeKey(key[1..]) && NormalizeKey(key)[0] == l[0];
        if name != [] {
          SpellsIff(key[1..], name[1..]);
          assert name == [name[0]] + name[1..];
        }
      }
    }
  }

  lemma SpellsOneIff(key: string, names: set<string>)
    ensures SpellsOne(key, names) <==> NormalizeKey(key) in names
  {
    SpellsIff(key, NormalizeKey(key));
    forall n | n in names ensures Spells(key, n) <==> NormalizeKey(key) == n { SpellsIff(key, n); }
  }

  /** No key is ruled by two lists. */
  lemma ListsDisjoint()
    ensures SIGNING_KEY_FIELDS !! SECRET_FIELDS && SIGNING_KEY_FIELDS !! FINGERPRINT_FIELDS && SECRET_FIELDS !! FINGERPRINT_FIELDS
  {
    SigningAlike();
    SecretAlike();
    FingerprintAlike();
    hide *;
    forall n ensures !(LikeSigning(n) && LikeSecret(n)) && !(LikeSigning(n) && LikeFingerprint(n)) && !(LikeSecret(n) && LikeFingerprint(n)) {
      NotAlike(n);
    }
  }

  lemma NotAlike(n: string)
    ensures !(LikeSigning(n) && LikeSecret(n)) && !(LikeSigning(n) && LikeFingerprint(n)) && !(LikeSecret(n) && LikeFingerprint(n))
  {
  }

  lemma SigningAlike() ensures forall n | n in SIGNING_KEY_FIELDS :: LikeSigning(n) {}
  lemma SecretAlike() ensures forall n | n in SECRET_FIELDS :: LikeSecret(n) {}
  lemma FingerprintAlike() ensures forall n | n in FINGERPRINT_FIELDS :: LikeFingerprint(n) {}

  predicate LikeSigning(n: string) {
    |n| >= 3 && (n[0] == 'k' || (n[0] == 's' && n[1] == 'i' && |n| != 18) || (n[0] == 'p' && n[1] == 'r') || (n[0] == 't' && n[2] == 'b'))
  }

  predicate LikeSecret(n: string) {
    && |n| >= 3 && n[0] !in "khm" && (n[0] == 's' ==> n[1] != 'i' || |n| == 18) && (n[0] == 'p' ==> n[1] != 'r')
    && (n[0] == 't' ==> n[2] != 'b') && (n[0] == 'f' ==> |n| == 17) && (n[0] == 'd' ==> |n| < 17)
  }

  predicate LikeFingerprint(n: string) {
    |n| >= 3 && n[0] in "fhmd" && (n[0] == 'f' ==> |n| == 11) && (n[0] == 'd' ==> |n| == 17)
  }

  ghost predicate SigningKey(key: string) { SpellsOne(key, SIGNING_KEY_FIELDS) }
  ghost predicate Secret(key: string) { SpellsOne(key, SECRET_FIELDS) }
  ghost predicate Fingerprint(key: string) { SpellsOne(key, FINGERPRINT_FIELDS) }
  ghost predicate Unlisted(key: string) { !SigningKey(key) && !Secret(key) && !Fingerprint(key) }

  /** The rule of a key is read off its spelling, and the lists do not overlap. */
  lemma RuleIff(key: string)
    ensures RuleOf(key) == Omit <==> SigningKey(key)
    ensures RuleOf(key) == Mask <==> Secret(key)
    ensures RuleOf(key) == Hash <==> Fingerprint(key)
    ensures RuleOf(key) == Descend <==> Unlisted(key)
  {
    ListsDisjoint();
    SpellsOneIff(key, SIGNING_KEY_FIELDS);
    SpellsOneIff(key, SECRET_FIELDS);
    SpellsOneIff(key, FINGERPRINT_FIELDS);
  }

  /** Spellings in use. */
  lemma InUse()
    ensures Secret("token") && Secret("x-api-key") && SigningKey("keyId") && Fingerprint("fingerprint")
  {
    hide Spells;
    Spelled();
    HeaderSpelled();
    Listed();
  }

  lemma Spelled()
    ensures Spells("token", "token") && Spells("keyId", "keyid") && Spells("fingerprint", "fingerprint")
  {
  }

  lemma HeaderSpelled()
    ensures Spells("x-api-key", "xapikey")
  {
    var k, n := "x-api-key", "xapikey";
    assert Spells(k[7..], n[5..]);
    assert Spells(k[5..], n[4..]);
    assert Spells(k[3..], n[2..]);
    assert Spells(k[1..], n[1..]);
  }

  lemma Listed()
    ensures "xapikey" in SECRET_FIELDS && "token" in SECRET_FIELDS
    ensures "keyid" in SIGNING_KEY_FIELDS && "fingerprint" in FINGERPRINT_FIELDS
  {
  }

  lemma {:induction false} NormalizeConcat(a: string, b: string)
    ensures NormalizeKey(a + b) == NormalizeKey(a) + NormalizeKey(b)
  {
    if a == [] {
      assert a + b == b;
    } else {
      assert (a + b)[1..] == a[1..] + b;
      NormalizeConcat(a[1..], b);
    }
  }

  lemma NormalizeAround(a: string, c: char, b: string)
    ensures NormalizeKey(a + [c] + b) == NormalizeKey(a) + NormalizeKey([c]) + NormalizeKey(b)
  {
    NormalizeConcat(a + [c], b);
    NormalizeConcat(a, [c]);
  }

  function Lower(c: char): char { if 'A' <= c <= 'Z' then (c as int + 32) as char else c }

  lemma NormalizeOne(c: char)
    ensures Filler(c) ==> NormalizeKey([c]) == []
    ensures NormalizeKey([c]) == NormalizeKey([Lower(c)])
  {
  }

  /** Neither a separator nor the case of a letter, anywhere in a key, changes what it spells and how
      it is ruled. */
  lemma SpellingIgnored(a: string, c: char, b: string, name: string)
    ensures Filler(c) ==> RuleOf(a + [c] + b) == RuleOf(a + b) && (Spells(a + [c] + b, name) <==> Spells(a + b, name))
    ensures RuleOf(a + [c] + b) == RuleOf(a + [Lower(c)] + b)
    ensures Spells(a + [c] + b, name) <==> Spells(a + [Lower(c)] + b, name)
  {
    hide NormalizeKey, Spells;
    NormalizeOne(c);
    NormalizeAround(a, c, b);
    NormalizeAround(a, Lower(c), b);
    NormalizeConcat(a, b);
    assert NormalizeKey(a) + [] + NormalizeKey(b) == NormalizeKey(a) + NormalizeKey(b);
    SpellsIff(a + [c] + b, name);
    SpellsIff(a + b, name);
    SpellsIff(a + [Lower(c)] + b, name);
  }

  // ---- what a pass shows -----------------------------------------------------------------------

  /** Values that are shown as they are, strings scrubbed. */
  function Leaf(env: Env, v: Val): Option<Plain> {
    match v
    case VNull => Some(PNull)
    case VStr(s) => Some(PStr(env.scrub(s)))
    case VNum(n) => Some(PNum(n))
    case VBool(on) => Some(PBool(on))
    case VBig(i) => Some(PStr(env.big(i)))
    case _ => None
  }

  /** The fields an error is shown as: its name under "type", message, stack, and whatever else of its
      own can be read under another key. */
  lemma {:induction false} ErrorFieldsAre(e: Cell, f: Field)
    requires e.Err?
    ensures f in ErrorFields(e) <==>
            || f == Field("type", e.name) || f == Field("message", e.message) || f == Field("stack", e.stack)
            || (f in e.own && f.get.Some? && f.key !in {"type", "message", "stack", "__proto__"})
  {
    OwnFieldsAre(e.own, f);
  }

  lemma {:induction false} OwnFieldsAre(own: seq<Field>, f: Field)
    ensures f in OwnFields(own) <==> f in own && f.get.Some? && f.key !in {"type", "message", "stack", "__proto__"}
  {
    if own != [] {
      OwnFieldsAre(own[1..], f);
      assert own == [own[0]] + own[1..];
    }
  }

  /** The tree shows this value: each part of it stems from a part of the value, and each secret,
      readable fingerprint and readable unlisted leaf is there. */
  ghost predicate Shows(h: Heap, env: Env, v: Val, p: Plain)
    decreases p, 1
  {
    if !v.VRef? then Leaf(env, v) == Some(p)
    else
      match h(v.r)
      case List(items) => p.PList? && ShowsItems(h, env, items, p.items)
      case Record(fields) => p.PRecord? && ShowsFields(h, env, fields, p.entries)
      case Err(name, message, stack, own) =>
        name.Some? && message.Some? && stack.Some? && p.PRecord? && ShowsFields(h, env, ErrorFields(h(v.r)), p.entries)
      case _ => false
  }

  ghost predicate ShowsItems(h: Heap, env: Env, items: seq<Option<Val>>, ps: seq<Plain>)
    decreases ps, 0
  {
    && (forall p | p in ps :: exists item :: item in items && item.Some? && Shows(h, env, item.value, p))
    && (forall item | item in items :: item.Some? && (Leaf(env, item.value).Some? ==> Leaf(env, item.value).value in ps))
  }

  ghost predicate ShowsFields(h: Heap, env: Env, fields: seq<Field>, es: seq<Entry>)
    decreases es, 0
  {
    && (forall e | e in es :: exists f :: f in fields && ShowsField(h, env, f, e))
    && (forall f | f in fields :: MustShow(env, f, es))
  }

  ghost predicate ShowsField(h: Heap, env: Env, f: Field, e: Entry)
    decreases e, 0
  {
    && e.key == f.key && !SigningKey(e.key)
    && (Secret(e.key) ==> e.value == PStr("[REDACTED]"))
    && (Fingerprint(e.key) ==>
          f.get.Some? && e.value == PStr(if f.get.value.VStr? then env.hash(f.get.value.s) else "[REDACTED]"))
    && (Unlisted(e.key) ==> e.key != "__proto__" && f.get.Some? && Shows(h, env, f.get.value, e.value))
  }

  ghost predicate MustShow(env: Env, f: Field, es: seq<Entry>) {
    && (Secret(f.key) ==> Entry(f.key, PStr("[REDACTED]")) in es)
    && (Fingerprint(f.key) && f.get.Some? ==> exists v :: Entry(f.key, v) in es)
    && (Unlisted(f.key) && f.key != "__proto__" && f.get.Some? && Leaf(env, f.get.value).Some? ==>
          Entry(f.key, Leaf(env, f.get.value).value) in es)
  }

  lemma {:induction false} WalkShows(h: Heap, env: Env, v: Val, depth: nat, seen: set<Ref>)
    ensures Walk(h, env, v, depth, seen).Keep? ==> Shows(h, env, v, Walk(h, env, v, depth, seen).p)
    decreases Left(depth), 2
  {
    hide RuleOf, SigningKey, Secret, Fingerprint, Unlisted, ShowsFields, ShowsItems, WalkFields, WalkItems, OwnFields, ErrorFields;
    if v.VRef? && depth < MAX_DEPTH {
      match h(v.r) {
        case List(items) => if v.r !in seen { ItemsShown(h, env, items, depth, seen + {v.r}); }
        case Record(fields) => if v.r !in seen { FieldsShown(h, env, fields, depth, seen + {v.r}); }
        case Err(_, _, _, _) => if depth + 1 < MAX_DEPTH { FieldsShown(h, env, ErrorFields(h(v.r)), depth + 1, seen); }
        case _ =>
      }
    }
  }

  lemma {:induction false} ItemsShown(h: Heap, env: Env, items: seq<Option<Val>>, depth: nat, seen: set<Ref>)
    requires depth < MAX_DEPTH
    ensures WalkItems(h, env, items, depth, seen).Kept? ==> ShowsItems(h, env, items, WalkItems(h, env, items, depth, seen).ps)
    decreases Left(depth), 0, |items|
  {
    if items != [] && WalkItems(h, env, items, depth, seen).Kept? {
      var ps, v, rest := WalkItems(h, env, items, depth, seen).ps, items[0].value, items[1..];
      WalkShows(h, env, v, depth + 1, seen);
      ItemsShown(h, env, rest, depth, seen);
      var qs := WalkItems(h, env, rest, depth, seen).ps;
      assert items == [items[0]] + rest;
      forall p | p in ps ensures exists item :: item in items && item.Some? && Shows(h, env, item.value, p) {
        if p in qs {
          var item :| item in rest && item.Some? && Shows(h, env, item.value, p);
          assert item in items;
        } else {
          assert items[0] in items && Shows(h, env, items[0].value, p);
        }
      }
      assert forall q | q in qs :: q in ps;
    }
  }

  lemma {:induction false} FieldShown(h: Heap, env: Env, f: Field, depth: nat, seen: set<Ref>)
    requires depth < MAX_DEPTH
    ensures forall e | e in WalkField(h, env, f, depth, seen) :: ShowsField(h, env, f, e)
    ensures MustShow(env, f, WalkField(h, env, f, depth, seen))
    decreases Left(depth), 0, 0
  {
    hide RuleOf, SigningKey, Secret, Fingerprint, Shows, WalkObject;
    RuleIff(f.key);
    if f.get.Some? { WalkShows(h, env, f.get.value, depth + 1, seen); }
    var es := WalkField(h, env, f, depth, seen);
    if es != [] { assert es == [es[0]] && Entry(f.key, es[0].value) in es; }
  }

  lemma {:induction false} FieldsShown(h: Heap, env: Env, fields: seq<Field>, depth: nat, seen: set<Ref>)
    requires depth < MAX_DEPTH
    ensures ShowsFields(h, env, fields, WalkFields(h, env, fields, depth, seen))
    decreases Left(depth), 0, |fields|
  {
    hide MustShow, ShowsField, WalkField;
    if fields != [] {
      FieldShown(h, env, fields[0], depth, seen);
      FieldsShown(h, env, fields[1..], depth, seen);
      FieldsJoin(h, env, fields[0], fields[1..], WalkField(h, env, fields[0], depth, seen), WalkFields(h, env, fields[1..], depth, seen));
      assert fields == [fields[0]] + fields[1..];
    }
  }

  lemma FieldsJoin(h: Heap, env: Env, f: Field, fs: seq<Field>, es: seq<Entry>, rest: seq<Entry>)
    requires (forall e | e in es :: ShowsField(h, env, f, e)) && MustShow(env, f, es) && ShowsFields(h, env, fs, rest)
    ensures ShowsFields(h, env, [f] + fs, es + rest)
  {
    hide MustShow, ShowsField;
    forall e | e in es + rest ensures exists g :: g in [f] + fs && ShowsField(h, env, g, e) {
      if e in es {
        assert f in [f] + fs;
      } else {
        var g :| g in fs && ShowsField(h, env, g, e);
        assert g in [f] + fs;
      }
    }
    forall g | g in [f] + fs ensures MustShow(env, g, es + rest) {
      MustShowMore(env, g, if g == f then es else rest, es, rest);
    }
  }

  lemma MustShowMore(env: Env, f: Field, some: seq<Entry>, es: seq<Entry>, rest: seq<Entry>)
    requires (some == es || some == rest) && MustShow(env, f, some)
    ensures MustShow(env, f, es + rest)
  {
    assert forall e | e in some :: e in es + rest;
  }

  /** On every object graph, at every depth of the output: no key spells signing-key material, a key that
      spells a secret shows the placeholder, one that spells a fingerprint shows the hash of that very
      field or the placeholder, everything else shown is the scrubbed value of the field or item it
      stems from, and no secret, fingerprint or plain value next to it is missing. */
  lemma RedactShows(h: Heap, env: Env, v: Val)
    ensures Redact(h, env, v).Some? ==> Shows(h, env, v, Redact(h, env, v).value)
  {
    WalkShows(h, env, v, 0, {});
  }

  // ---- no plain value is lost ------------------------------------------------------------------

  /** A chain of different records, each held by a field of the one before. */
  ghost predicate Chain(h: Heap, refs: seq<Ref>, keys: seq<string>, v: Val) {
    && refs != [] && |keys| == |refs|
    && h(refs[0]).Record?
    && Unlisted(keys[0]) && keys[0] != "__proto__"
    && (if |refs| == 1 then Field(keys[0], Some(v)) in h(refs[0]).fields
        else Field(keys[0], Some(VRef(refs[1]))) in h(refs[0]).fields && refs[0] !in refs[1..] && Chain(h, refs[1..], keys[1..], v))
  }

  ghost predicate At(p: Plain, keys: seq<string>, q: Plain) {
    if keys == [] then p == q
    else p.PRecord? && exists e :: e in p.entries && e.key == keys[0] && At(e.value, keys[1..], q)
  }

  /** At the end of every chain of at most eight records a plain value under unlisted keys is shown,
      under the same keys. */
  lemma Survives(h: Heap, env: Env, refs: seq<Ref>, keys: seq<string>, v: Val)
    requires Chain(h, refs, keys, v) && |refs| <= 8 && Leaf(env, v).Some?
    ensures Redact(h, env, VRef(refs[0])).Some? && At(Redact(h, env, VRef(refs[0])).value, keys, Leaf(env, v).value)
  {
    ChainShown(h, env, refs, keys, v, 0, {});
  }

  lemma {:induction false} ChainShown(h: Heap, env: Env, refs: seq<Ref>, keys: seq<string>, v: Val, depth: nat, seen: set<Ref>)
    requires Chain(h, refs, keys, v) && depth + |refs| <= MAX_DEPTH && Leaf(env, v).Some?
    requires forall r | r in refs :: r !in seen
    ensures Walk(h, env, VRef(refs[0]), depth, seen).Keep? && At(Walk(h, env, VRef(refs[0]), depth, seen).p, keys, Leaf(env, v).value)
    decreases |refs|
  {
    hide RuleOf, SigningKey, Secret, Fingerprint, Unlisted, WalkFields;
    var r, fs := refs[0], h(refs[0]).fields;
    var next := if |refs| == 1 then v else VRef(refs[1]);
    RuleIff(keys[0]);
    if |refs| > 1 {
      assert refs[1..][0] == refs[1];
      ChainShown(h, env, refs[1..], keys[1..], v, depth + 1, seen + {r});
    }
    assert Walk(h, env, next, depth + 1, seen + {r}).Keep?;
    var q := Walk(h, env, next, depth + 1, seen + {r}).p;
    KeptField(h, env, fs, Field(keys[0], Some(next)), depth, seen + {r});
    var e := Entry(keys[0], q);
    assert At(e.value, keys[1..], Leaf(env, v).value);
    assert e in WalkFields(h, env, fs, depth, seen + {r});
  }

  lemma {:induction false} KeptField(h: Heap, env: Env, fields: seq<Field>, f: Field, depth: nat, seen: set<Ref>)
    requires depth < MAX_DEPTH && f in fields && f.get.Some? && RuleOf(f.key) == Descend && f.key != PROTO
    requires Walk(h, env, f.get.value, depth + 1, seen).Keep?
    ensures Entry(f.key, Walk(h, env, f.get.value, depth + 1, seen).p) in WalkFields(h, env, fields, depth, seen)
  {
    if f != fields[0] {
      assert f in fields[1..];
      KeptField(h, env, fields[1..], f, depth, seen);
    } else {
      assert Entry(f.key, Walk(h, env, f.get.value, depth + 1, seen).p) in WalkField(h, env, f, depth, seen);
    }
  }

  // ---- one fingerprint, two passes -------------------------------------------------------------

  function One(key: string, raw: string): Heap { r => Record([Field(key, Some(VStr(raw)))]) }

  /** A logged error or record with a fingerprint that is redacted twice shows the hash of the hash. */
  lemma FingerprintHashedTwice(env: Env, key: string, raw: string)
    requires Fingerprint(key)
    ensures Redact(One(key, raw), env, VRef(0)) == Some(PRecord([Entry(key, PStr(env.hash(raw)))]))
    ensures Redact(One(key, env.hash(raw)), env, VRef(0)) == Some(PRecord([Entry(key, PStr(env.hash(env.hash(raw))))]))
  {
    OneField(env, key, raw);
    OneField(env, key, env.hash(raw));
  }

  lemma OneField(env: Env, key: string, raw: string)
    requires Fingerprint(key)
    ensures Redact(One(key, raw), env, VRef(0)) == Some(PRecord([Entry(key, PStr(env.hash(raw)))]))
  {
    hide RuleOf, SigningKey, Secret, Fingerprint, Unlisted;
    RuleIff(key);
    var h := One(key, raw);
    var f := Field(key, Some(VStr(raw)));
    assert WalkField(h, env, f, 0, {0}) == [Entry(key, PStr(env.hash(raw)))];
    assert WalkFields(h, env, [f], 0, {0}) == [Entry(key, PStr(env.hash(raw)))] by { assert [f][1..] == []; }
    assert {} + {0} == {0 as Ref};
    assert h(0) == Record([f]);
    assert WalkObject(h, env, 0, 0, {}) == Keep(PRecord([Entry(key, PStr(env.hash(raw)))]));
  }
}
