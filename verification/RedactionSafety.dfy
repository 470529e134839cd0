/** What redacted output can and cannot contain, and what a second pass over it does. */
module RedactionSafety {
  import opened Tables
  import opened Redaction

  // ---- first pass ------------------------------------------------------------------------------

  /** No key at any depth names signing-key material, secrets are placeholders, fingerprints are
      hashed or placeholders. */
  ghost predicate Clean(env: Env, p: Plain) {
    match p
    case PList(items) => forall i :: 0 <= i < |items| ==> Clean(env, items[i])
    case PRecord(entries) => forall i :: 0 <= i < |entries| ==> CleanEntry(env, entries[i])
    case _ => true
  }

  ghost predicate CleanEntry(env: Env, e: Entry) {
    match RuleOf(e.key)
    case Omit => false
    case Mask => e.value == PStr(PLACEHOLDER)
    case Hash => e.value == PStr(PLACEHOLDER) || exists s: string :: e.value == PStr(env.hash(s))
    case Descend => e.key != PROTO && Clean(env, e.value)
  }

  /** At most `n` lists and records inside one another. */
  predicate Within(p: Plain, n: nat) {
    match p
    case PList(items) => n > 0 && forall i :: 0 <= i < |items| ==> Within(items[i], n - 1)
    case PRecord(entries) => n > 0 && forall i :: 0 <= i < |entries| ==> Within(entries[i].value, n - 1)
    case _ => true
  }

  /** Outside masked and hashed fields, every string has been through the scrubber or is a number's. */
  ghost predicate Scrubbed(env: Env, p: Plain) {
    match p
    case PStr(s) => (exists raw: string :: s == env.scrub(raw)) || (exists i: int :: s == env.big(i))
    case PList(items) => forall i :: 0 <= i < |items| ==> Scrubbed(env, items[i])
    case PRecord(entries) => forall i :: 0 <= i < |entries| ==>
      RuleOf(entries[i].key) == Descend ==> Scrubbed(env, entries[i].value)
    case _ => true
  }

  ghost predicate Safe(env: Env, p: Plain, n: nat) { Clean(env, p) && Within(p, n) && Scrubbed(env, p) }

  ghost predicate SafeEntry(env: Env, e: Entry, n: nat) {
    CleanEntry(env, e) && Within(e.value, n) && (RuleOf(e.key) == Descend ==> Scrubbed(env, e.value))
  }

  ghost predicate SafeItems(env: Env, ps: seq<Plain>, n: nat) { forall i :: 0 <= i < |ps| ==> Safe(env, ps[i], n) }

  ghost predicate SafeEntries(env: Env, es: seq<Entry>, n: nat) { forall i :: 0 <= i < |es| ==> SafeEntry(env, es[i], n) }

  lemma ListSafe(env: Env, ps: seq<Plain>, n: nat)
    requires n > 0 && SafeItems(env, ps, n - 1)
    ensures Safe(env, PList(ps), n)
  {
    forall i | 0 <= i < |ps| ensures Clean(env, ps[i]) && Within(ps[i], n - 1) && Scrubbed(env, ps[i]) {
      assert Safe(env, ps[i], n - 1);
    }
  }

  lemma RecordSafe(env: Env, entries: seq<Entry>, n: nat)
    requires n > 0 && SafeEntries(env, entries, n - 1)
    ensures Safe(env, PRecord(entries), n)
  {
    forall i | 0 <= i < |entries|
      ensures CleanEntry(env, entries[i]) && Within(entries[i].value, n - 1)
      ensures RuleOf(entries[i].key) == Descend ==> Scrubbed(env, entries[i].value)
    {
      assert SafeEntry(env, entries[i], n - 1);
    }
  }

  lemma {:induction false} WalkSafe(h: Heap, env: Env, v: Val, depth: nat, seen: set<Ref>)
    ensures Walk(h, env, v, depth, seen).Keep? ==> Safe(env, Walk(h, env, v, depth, seen).p, Left(depth))
    decreases Left(depth), 2
  {
    if v.VRef? && depth < MAX_DEPTH {
      var cell := h(v.r);
      match cell
      case List(items) =>
        ItemsSafe(h, env, items, depth, seen + {v.r});
        var r := WalkItems(h, env, items, depth, seen + {v.r});
        if r.Kept? { ListSafe(env, r.ps, Left(depth)); }
      case Record(fields) =>
        FieldsSafe(h, env, fields, depth, seen + {v.r});
        RecordSafe(env, WalkFields(h, env, fields, depth, seen + {v.r}), Left(depth));
      case Err(_, _, _, _) =>
        if depth + 1 < MAX_DEPTH {
          FieldsSafe(h, env, ErrorFields(cell), depth + 1, seen);
          var entries := WalkFields(h, env, ErrorFields(cell), depth + 1, seen);
          RecordSafe(env, entries, Left(depth + 1));
          WithinMore(PRecord(entries), Left(depth + 1));
        }
      case _ =>
    }
  }

  lemma {:induction false} WithinMore(p: Plain, n: nat)
    requires Within(p, n)
    ensures Within(p, n + 1)
    decreases n
  {
    match p
    case PList(items) => forall i | 0 <= i < |items| ensures Within(items[i], n) { WithinMore(items[i], n - 1); }
    case PRecord(entries) => forall i | 0 <= i < |entries| ensures Within(entries[i].value, n) { WithinMore(entries[i].value, n - 1); }
    case _ =>
  }

  lemma {:induction false} ItemsSafe(h: Heap, env: Env, items: seq<Option<Val>>, depth: nat, seen: set<Ref>)
    requires depth < MAX_DEPTH
    ensures var r := WalkItems(h, env, items, depth, seen);
            r.Kept? ==> SafeItems(env, r.ps, Left(depth) - 1)
    decreases Left(depth), 0, |items|
  {
    if items != [] && items[0].Some? {
      WalkSafe(h, env, items[0].value, depth + 1, seen);
      ItemsSafe(h, env, items[1..], depth, seen);
    }
  }

  lemma {:induction false} FieldSafe(h: Heap, env: Env, f: Field, depth: nat, seen: set<Ref>)
    requires depth < MAX_DEPTH
    ensures SafeEntries(env, WalkField(h, env, f, depth, seen), Left(depth) - 1)
    decreases Left(depth), 0, 0
  {
    if f.get.Some? { WalkSafe(h, env, f.get.value, depth + 1, seen); }
  }

  lemma {:induction false} FieldsSafe(h: Heap, env: Env, fields: seq<Field>, depth: nat, seen: set<Ref>)
    requires depth < MAX_DEPTH
    ensures SafeEntries(env, WalkFields(h, env, fields, depth, seen), Left(depth) - 1)
    decreases Left(depth), 0, |fields|
  {
    if fields != [] {
      FieldSafe(h, env, fields[0], depth, seen);
      FieldsSafe(h, env, fields[1..], depth, seen);
      var a, b := WalkField(h, env, fields[0], depth, seen), WalkFields(h, env, fields[1..], depth, seen);
      forall i | 0 <= i < |a + b| ensures SafeEntry(env, (a + b)[i], Left(depth) - 1) {
        if i >= |a| { assert (a + b)[i] == b[i - |a|]; }
      }
    }
  }

  /** On every object graph, cyclic or not, what redaction lets through names no signing key, shows no
      secret, holds only scrubbed strings and nests at most eight deep. */
  lemma RedactSafe(h: Heap, env: Env, v: Val)
    ensures Redact(h, env, v).Some? ==> Safe(env, Redact(h, env, v).value, MAX_DEPTH)
  {
    WalkSafe(h, env, v, 0, {});
  }

  // ---- second pass -----------------------------------------------------------------------------

  /** The value in this heap is this tree; parts may be shared. */
  ghost predicate Unfolds(h: Heap, v: Val, p: Plain)
    decreases p
  {
    match p
    case PNull => v == VNull
    case PStr(s) => v == VStr(s)
    case PNum(n) => v == VNum(n)
    case PBool(on) => v == VBool(on)
    case PList(items) =>
      && v.VRef? && h(v.r).List? && |h(v.r).items| == |items|
      && forall i :: 0 <= i < |items| ==> h(v.r).items[i].Some? && Unfolds(h, h(v.r).items[i].value, items[i])
    case PRecord(entries) =>
      && v.VRef? && h(v.r).Record? && |h(v.r).fields| == |entries|
      && forall i :: 0 <= i < |entries| ==> UnfoldsField(h, h(v.r).fields[i], entries[i])
  }

  ghost predicate UnfoldsField(h: Heap, f: Field, e: Entry)
    decreases e
  {
    f.key == e.key && f.get.Some? && Unfolds(h, f.get.value, e.value)
  }

  /** Masked and dropped fields apart, the tree is as a pass leaves it. */
  ghost predicate Settled(env: Env, p: Plain) {
    match p
    case PStr(s) => env.scrub(s) == s
    case PList(items) => forall i :: 0 <= i < |items| ==> Settled(env, items[i])
    case PRecord(entries) => forall i :: 0 <= i < |entries| ==> SettledEntry(env, entries[i])
    case _ => true
  }

  ghost predicate SettledEntry(env: Env, e: Entry) {
    match RuleOf(e.key)
    case Omit => false
    case Mask => e.value == PStr(PLACEHOLDER)
    case Hash => e.value.PStr? && env.hash(e.value.s) == e.value.s
    case Descend => e.key != PROTO && Settled(env, e.value)
  }

  function Height(p: Plain): nat {
    match p
    case PList(items) => 1 + HeightOfItems(items)
    case PRecord(entries) => 1 + HeightOfEntries(entries)
    case _ => 0
  }

  function HeightOfItems(items: seq<Plain>): (r: nat)
    ensures forall i :: 0 <= i < |items| ==> Height(items[i]) <= r
  {
    if items == [] then 0
    else
      var a, b := Height(items[0]), HeightOfItems(items[1..]);
      if a < b then b else a
  }

  function HeightOfEntries(entries: seq<Entry>): (r: nat)
    ensures forall i :: 0 <= i < |entries| ==> Height(entries[i].value) <= r
  {
    if entries == [] then 0
    else
      var a, b := Height(entries[0].value), HeightOfEntries(entries[1..]);
      if a < b then b else a
  }

  lemma {:induction false} UnfoldsOnce(h: Heap, v: Val, p: Plain, q: Plain)
    requires Unfolds(h, v, p) && Unfolds(h, v, q)
    ensures p == q
    decreases p
  {
    match p
    case PList(items) =>
      forall i | 0 <= i < |items| ensures items[i] == q.items[i] { UnfoldsOnce(h, h(v.r).items[i].value, items[i], q.items[i]); }
      assert items == q.items;
    case PRecord(entries) =>
      forall i | 0 <= i < |entries| ensures entries[i] == q.entries[i] {
        var f := h(v.r).fields[i];
        assert UnfoldsField(h, f, entries[i]) && UnfoldsField(h, f, q.entries[i]);
        UnfoldsOnce(h, f.get.value, entries[i].value, q.entries[i].value);
      }
      assert entries == q.entries;
    case _ =>
  }

  /** Everything on the way here is a larger tree. */
  ghost predicate Above(h: Heap, seen: set<Ref>, n: nat) {
    forall r, q :: r in seen && Unfolds(h, VRef(r), q) ==> Height(q) > n
  }

  lemma AboveBelow(h: Heap, seen: set<Ref>, r: Ref, p: Plain, n: nat)
    requires Above(h, seen, Height(p)) && Unfolds(h, VRef(r), p) && n < Height(p)
    ensures r !in seen && Above(h, seen + {r}, n)
  {
    forall q | Unfolds(h, VRef(r), q) ensures q == p { UnfoldsOnce(h, VRef(r), p, q); }
  }

  /** A pass over a tree that is already as a pass leaves it changes nothing, and only over such a tree. */
  lemma {:induction false} WalkSettled(h: Heap, env: Env, v: Val, p: Plain, depth: nat, seen: set<Ref>)
    requires Unfolds(h, v, p) && Within(p, Left(depth)) && Above(h, seen, Height(p))
    ensures Walk(h, env, v, depth, seen).Keep?
    ensures Walk(h, env, v, depth, seen) == Keep(p) <==> Settled(env, p)
    decreases Left(depth), 2
  {
    match p
    case PList(items) =>
      AboveBelow(h, seen, v.r, p, HeightOfItems(items));
      ItemsSettled(h, env, h(v.r).items, items, depth, seen + {v.r});
    case PRecord(entries) =>
      AboveBelow(h, seen, v.r, p, HeightOfEntries(entries));
      FieldsSettled(h, env, h(v.r).fields, entries, depth, seen + {v.r});
    case _ =>
  }

  lemma {:induction false} ItemsSettled(h: Heap, env: Env, items: seq<Option<Val>>, ps: seq<Plain>, depth: nat, seen: set<Ref>)
    requires depth < MAX_DEPTH && |items| == |ps|
    requires forall i :: 0 <= i < |ps| ==> items[i].Some? && Unfolds(h, items[i].value, ps[i])
    requires forall i :: 0 <= i < |ps| ==> Within(ps[i], Left(depth) - 1)
    requires Above(h, seen, HeightOfItems(ps))
    ensures WalkItems(h, env, items, depth, seen).Kept?
    ensures WalkItems(h, env, items, depth, seen) == Kept(ps) <==> forall i :: 0 <= i < |ps| ==> Settled(env, ps[i])
    decreases Left(depth), 0, |items|
  {
    if items != [] {
      WalkSettled(h, env, items[0].value, ps[0], depth + 1, seen);
      ItemsSettled(h, env, items[1..], ps[1..], depth, seen);
      assert ps == [ps[0]] + ps[1..];
    }
  }

  lemma {:induction false} FieldSettled(h: Heap, env: Env, f: Field, e: Entry, depth: nat, seen: set<Ref>)
    requires depth < MAX_DEPTH && UnfoldsField(h, f, e) && Within(e.value, Left(depth) - 1) && Above(h, seen, Height(e.value))
    ensures WalkField(h, env, f, depth, seen) == [e] <==> SettledEntry(env, e)
    decreases Left(depth), 0, 0
  {
    WalkSettled(h, env, f.get.value, e.value, depth + 1, seen);
  }

  lemma {:induction false} FieldsSettled(h: Heap, env: Env, fields: seq<Field>, es: seq<Entry>, depth: nat, seen: set<Ref>)
    requires depth < MAX_DEPTH && |fields| == |es|
    requires forall i :: 0 <= i < |es| ==> UnfoldsField(h, fields[i], es[i])
    requires forall i :: 0 <= i < |es| ==> Within(es[i].value, Left(depth) - 1)
    requires Above(h, seen, HeightOfEntries(es))
    ensures WalkFields(h, env, fields, depth, seen) == es <==> forall i :: 0 <= i < |es| ==> SettledEntry(env, es[i])
    decreases Left(depth), 0, |fields|
  {
    if fields != [] {
      FieldSettled(h, env, fields[0], es[0], depth, seen);
      FieldsSettled(h, env, fields[1..], es[1..], depth, seen);
      SplitsAt(WalkField(h, env, fields[0], depth, seen), WalkFields(h, env, fields[1..], depth, seen), es);
    }
  }

  lemma SplitsAt(a: seq<Entry>, b: seq<Entry>, es: seq<Entry>)
    requires |a| <= 1 && es != [] && |b| <= |es| - 1
    ensures a + b == es <==> a == [es[0]] && b == es[1..]
  {
    if a + b == es {
      assert |a| == 1 && (a + b)[0] == a[0] && (a + b)[1..] == b;
    }
  }

  // ---- when two passes are one -----------------------------------------------------------------

  /** Every string in a fingerprint field is its own hash. */
  ghost predicate FingerprintsFixed(env: Env, p: Plain) {
    match p
    case PList(items) => forall i :: 0 <= i < |items| ==> FingerprintsFixed(env, items[i])
    case PRecord(entries) => forall i :: 0 <= i < |entries| ==> FixedEntry(env, entries[i])
    case _ => true
  }

  ghost predicate FixedEntry(env: Env, e: Entry) {
    match RuleOf(e.key)
    case Hash => e.value.PStr? && env.hash(e.value.s) == e.value.s
    case Descend => FingerprintsFixed(env, e.value)
    case _ => true
  }

  /** No fingerprint field anywhere. */
  predicate FingerprintFree(p: Plain) {
    match p
    case PList(items) => forall i :: 0 <= i < |items| ==> FingerprintFree(items[i])
    case PRecord(entries) => forall i :: 0 <= i < |entries| ==>
      RuleOf(entries[i].key) != Hash && (RuleOf(entries[i].key) == Descend ==> FingerprintFree(entries[i].value))
    case _ => true
  }

  /** The scrubber leaves alone what it has scrubbed, and numbers. */
  ghost predicate Steady(env: Env) {
    (forall s :: env.scrub(env.scrub(s)) == env.scrub(s)) && forall i :: env.scrub(env.big(i)) == env.big(i)
  }

  lemma {:induction false} SettledIff(env: Env, p: Plain)
    requires Steady(env) && Clean(env, p) && Scrubbed(env, p)
    ensures Settled(env, p) <==> FingerprintsFixed(env, p)
  {
    match p
    case PList(items) =>
      forall i | 0 <= i < |items| ensures Settled(env, items[i]) <==> FingerprintsFixed(env, items[i]) { SettledIff(env, items[i]); }
    case PRecord(entries) =>
      forall i | 0 <= i < |entries| ensures SettledEntry(env, entries[i]) <==> FixedEntry(env, entries[i]) {
        assert CleanEntry(env, entries[i]);
        if RuleOf(entries[i].key) == Descend { SettledIff(env, entries[i].value); }
      }
    case _ =>
  }

  lemma {:induction false} FixedIffFree(env: Env, p: Plain)
    requires forall s :: env.hash(s) != s
    ensures FingerprintsFixed(env, p) <==> FingerprintFree(p)
  {
    match p
    case PList(items) =>
      forall i | 0 <= i < |items| ensures FingerprintsFixed(env, items[i]) <==> FingerprintFree(items[i]) { FixedIffFree(env, items[i]); }
    case PRecord(entries) =>
      forall i | 0 <= i < |entries|
        ensures FixedEntry(env, entries[i]) <==>
                RuleOf(entries[i].key) != Hash && (RuleOf(entries[i].key) == Descend ==> FingerprintFree(entries[i].value))
      {
        if RuleOf(entries[i].key) == Descend { FixedIffFree(env, entries[i].value); }
      }
    case _ =>
  }

  lemma {:induction false} FreeIsFixed(env: Env, p: Plain)
    requires FingerprintFree(p)
    ensures FingerprintsFixed(env, p)
  {
    match p
    case PList(items) => forall i | 0 <= i < |items| ensures FingerprintsFixed(env, items[i]) { FreeIsFixed(env, items[i]); }
    case PRecord(entries) =>
      forall i | 0 <= i < |entries| ensures FixedEntry(env, entries[i]) {
        if RuleOf(entries[i].key) == Descend { FreeIsFixed(env, entries[i].value); }
      }
    case _ =>
  }

  /** Redacting what has been redacted changes nothing exactly when every fingerprint field in it holds
      a string that is its own hash. */
  lemma SecondPassIff(h: Heap, env: Env, v: Val, h': Heap, v': Val)
    requires Steady(env) && Redact(h, env, v).Some? && Unfolds(h', v', Redact(h, env, v).value)
    ensures Redact(h', env, v') == Redact(h, env, v) <==> FingerprintsFixed(env, Redact(h, env, v).value)
  {
    var p := Redact(h, env, v).value;
    RedactSafe(h, env, v);
    SettledIff(env, p);
    WalkSettled(h', env, v', p, 0, {});
  }

  /** So it changes nothing where no fingerprint field is left, and, when no string is its own hash,
      only there. */
  lemma SecondPass(h: Heap, env: Env, v: Val, h': Heap, v': Val)
    requires Steady(env) && Redact(h, env, v).Some? && Unfolds(h', v', Redact(h, env, v).value)
    ensures FingerprintFree(Redact(h, env, v).value) ==> Redact(h', env, v') == Redact(h, env, v)
    ensures (forall s :: env.hash(s) != s) && Redact(h', env, v') == Redact(h, env, v) ==> FingerprintFree(Redact(h, env, v).value)
  {
    var p := Redact(h, env, v).value;
    SecondPassIff(h, env, v, h', v');
    if FingerprintFree(p) { FreeIsFixed(env, p); }
    if forall s :: env.hash(s) != s { FixedIffFree(env, p); }
  }
}
