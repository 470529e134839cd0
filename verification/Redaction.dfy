/** Log redaction over arbitrary object graphs: cycles, throwing getters, errors and binary data. */
module Redaction {
  import opened Tables

  type Ref = nat

  datatype Val =
    | VNull
    | VStr(s: string)
    | VNum(n: real)
    | VBool(on: bool)
    | VBig(i: int)
    | VOther // undefined, a function or a symbol
    | VRef(r: Ref)

  // A getter that throws has no value.
  datatype Field = Field(key: string, get: Option<Val>)

  datatype Cell =
    | Record(fields: seq<Field>)
    | List(items: seq<Option<Val>>)
    | Err(name: Option<Val>, message: Option<Val>, stack: Option<Val>, own: seq<Field>)
    | Binary
    | Hidden // an object whose keys cannot be listed
    | Trap // an object whose kind cannot even be asked

  type Heap = Ref -> Cell

  datatype Plain =
    | PNull
    | PStr(s: string)
    | PNum(n: real)
    | PBool(on: bool)
    | PList(items: seq<Plain>)
    | PRecord(entries: seq<Entry>)
  datatype Entry = Entry(key: string, value: Plain)

  datatype Out = Keep(p: Plain) | Drop | Throws
  datatype Outs = Kept(ps: seq<Plain>) | Threw

  // The string scrubber, the keyed fingerprint hash and the decimal form of a big integer.
  datatype Env = Env(scrub: string -> string, hash: string -> string, big: int -> string)

  const PLACEHOLDER: string := "[REDACTED]"
  const MAX_DEPTH: nat := 8

  // ---- keys ------------------------------------------------------------------------------------

  /** Lower case, letters and digits only. */
  function NormalizeKey(key: string): string {
    if key == [] then [] else NormalizeChar(key[0]) + NormalizeKey(key[1..])
  }

  /** U+212A and U+0130 are the characters outside ASCII whose lower case starts with an ASCII letter. */
  function NormalizeChar(c: char): string {
    if 'a' <= c <= 'z' || '0' <= c <= '9' then [c]
    else if 'A' <= c <= 'Z' then [(c as int + 32) as char]
    else if c == '\U{212A}' then ['k']
    else if c == '\U{0130}' then ['i']
    else []
  }

  const SIGNING_KEY_FIELDS: set<string> := {
    "keyid", "kid", "signingkeyid", "signingkey", "signingkeybytes", "privatekey", "keybytes", "keymaterial",
    "signingpayload", "signinginput", "signbytes", "tobesigned"}

  const SECRET_FIELDS: set<string> := {
    "authorization", "cookie", "setcookie", "apikey", "xapikey", "apikeysecret", "password", "passwd", "pwd", "secret",
    "token", "accesstoken", "refreshtoken", "sessiontoken", "session", "bearertoken", "bearer", "licensekey",
    "licensetoken", "signedlicensetoken", "dsn", "connectionstring", "databaseurl", "dburl", "otlpauthtoken",
    "otelexporterotlpauthtoken", "exportersecret", "exporterpassword", "fingerprintpepper", "pepper", "salt"}

  const FINGERPRINT_FIELDS: set<string> := {
    "fingerprint", "machinefingerprint", "devicefingerprint", "hwfingerprint", "hardwarefingerprint"}

  datatype Rule = Omit | Mask | Hash | Descend

  function RuleOf(key: string): Rule {
    var norm := NormalizeKey(key);
    if norm in SIGNING_KEY_FIELDS then Omit
    else if norm in SECRET_FIELDS then Mask
    else if norm in FINGERPRINT_FIELDS then Hash
    else Descend
  }

  /** Assigning to this key of an object sets its prototype instead of a field. */
  const PROTO: string := "__proto__"

  // ---- the walk --------------------------------------------------------------------------------

  function Left(depth: nat): nat { if depth < MAX_DEPTH then MAX_DEPTH - depth else 0 }

  /** `errorToPlain`: name, message and stack first, then the readable rest. */
  function ErrorFields(e: Cell): seq<Field>
    requires e.Err?
  {
    [Field("type", e.name), Field("message", e.message), Field("stack", e.stack)] + OwnFields(e.own)
  }

  function OwnFields(own: seq<Field>): seq<Field> {
    if own == [] then []
    else
      var f := own[0];
      (if f.key == "type" || f.key == "message" || f.key == "stack" || f.key == PROTO || f.get.None? then [] else [f]) + OwnFields(own[1..])
  }

  /** What becomes of a value at a depth, with the objects on the way to it. */
  function Walk(h: Heap, env: Env, v: Val, depth: nat, seen: set<Ref>): Out
    decreases Left(depth), 2
  {
    match v
    case VNull => Keep(PNull)
    case VStr(s) => Keep(PStr(env.scrub(s)))
    case VNum(n) => Keep(PNum(n))
    case VBool(on) => Keep(PBool(on))
    case VBig(i) => Keep(PStr(env.big(i)))
    case VOther => Drop
    case VRef(r) => if depth >= MAX_DEPTH then Drop else WalkObject(h, env, r, depth, seen)
  }

  function WalkObject(h: Heap, env: Env, r: Ref, depth: nat, seen: set<Ref>): Out
    requires depth < MAX_DEPTH
    decreases Left(depth), 1
  {
    match h(r)
    case Trap => Throws
    case Err(name, message, stack, own) =>
      if name.None? || message.None? || stack.None? then Throws
      else if depth + 1 >= MAX_DEPTH then Drop
      else Keep(PRecord(WalkFields(h, env, ErrorFields(h(r)), depth + 1, seen)))
    case Binary => Drop
    case Hidden => Drop
    case List(items) =>
      if r in seen then Drop
      else
        (match WalkItems(h, env, items, depth, seen + {r})
         case Kept(ps) => Keep(PList(ps))
         case Threw => Throws)
    case Record(fields) => if r in seen then Drop else Keep(PRecord(WalkFields(h, env, fields, depth, seen + {r})))
  }

  /** Dropped items leave no gap; one that cannot be read ends the list. */
  function WalkItems(h: Heap, env: Env, items: seq<Option<Val>>, depth: nat, seen: set<Ref>): Outs
    requires depth < MAX_DEPTH
    decreases Left(depth), 0, |items|
  {
    if items == [] then Kept([])
    else if items[0].None? then Threw
    else
      match Walk(h, env, items[0].value, depth + 1, seen)
      case Throws => Threw
      case Drop => WalkItems(h, env, items[1..], depth, seen)
      case Keep(p) => Cons(p, WalkItems(h, env, items[1..], depth, seen))
  }

  function Cons(p: Plain, rest: Outs): Outs {
    match rest case Kept(ps) => Kept([p] + ps) case Threw => Threw
  }

  function WalkFields(h: Heap, env: Env, fields: seq<Field>, depth: nat, seen: set<Ref>): (r: seq<Entry>)
    requires depth < MAX_DEPTH
    ensures |r| <= |fields|
    decreases Left(depth), 0, |fields|
  {
    if fields == [] then []
    else WalkField(h, env, fields[0], depth, seen) + WalkFields(h, env, fields[1..], depth, seen)
  }

  /** The entry a field leaves behind, if any. */
  function WalkField(h: Heap, env: Env, f: Field, depth: nat, seen: set<Ref>): (r: seq<Entry>)
    requires depth < MAX_DEPTH
    ensures |r| <= 1
    decreases Left(depth), 0, 0
  {
    match RuleOf(f.key)
    case Omit => []
    case Mask => [Entry(f.key, PStr(PLACEHOLDER))]
    case Hash =>
      if f.get.None? then []
      else [Entry(f.key, PStr(if f.get.value.VStr? then env.hash(f.get.value.s) else PLACEHOLDER))]
    case Descend =>
      if f.get.None? then []
      else
        var child := Walk(h, env, f.get.value, depth + 1, seen);
        if child.Keep? && f.key != PROTO then [Entry(f.key, child.p)] else []
  }

  function Redact(h: Heap, env: Env, v: Val): Option<Plain> {
    var r := Walk(h, env, v, 0, {});
    if r.Keep? then Some(r.p) else None
  }

  // ---- the walker, marking and unmarking objects on its way --------------------------------------

  class Redactor {
    const h: Heap
    const env: Env
    var seen: set<Ref>

    constructor (h: Heap, env: Env)
      ensures this.h == h && this.env == env && seen == {}
    {
      this.h, this.env, seen := h, env, {};
    }

    method RedactValue(v: Val, depth: nat) returns (out: Out)
      modifies this`seen
      ensures out == Walk(h, env, v, depth, old(seen)) && seen == old(seen)
      decreases Left(depth), 2
    {
      match v
      case VNull => out := Keep(PNull);
      case VStr(s) => out := Keep(PStr(env.scrub(s)));
      case VNum(n) => out := Keep(PNum(n));
      case VBool(on) => out := Keep(PBool(on));
      case VBig(i) => out := Keep(PStr(env.big(i)));
      case VOther => out := Drop;
      case VRef(r) =>
        if depth >= MAX_DEPTH { return Drop; }
        out := RedactObject(r, depth);
    }

    method RedactObject(r: Ref, depth: nat) returns (out: Out)
      requires depth < MAX_DEPTH
      modifies this`seen
      ensures out == WalkObject(h, env, r, depth, old(seen)) && seen == old(seen)
      decreases Left(depth), 1
    {
      var cell := h(r);
      if cell.Trap? { return Throws; }
      if cell.Err? {
        if cell.name.None? || cell.message.None? || cell.stack.None? { return Throws; }
        if depth + 1 >= MAX_DEPTH { return Drop; }
        var entries := RedactFields(ErrorFields(cell), depth + 1);
        return Keep(PRecord(entries));
      }
      if cell.Binary? || r in seen { return Drop; }
      seen := seen + {r};
      if cell.List? {
        var items := RedactItems(cell.items, depth);
        out := match items case Kept(ps) => Keep(PList(ps)) case Threw => Throws;
      } else if cell.Hidden? {
        out := Drop;
      } else {
        var entries := RedactFields(cell.fields, depth);
        out := Keep(PRecord(entries));
      }
      seen := seen - {r};
    }

    method RedactItems(items: seq<Option<Val>>, depth: nat) returns (out: Outs)
      requires depth < MAX_DEPTH
      modifies this`seen
      ensures out == WalkItems(h, env, items, depth, old(seen)) && seen == old(seen)
      decreases Left(depth), 0, |items|
    {
      var kept: seq<Plain> := [];
      var i := 0;
      while i < |items|
        invariant 0 <= i <= |items| && seen == old(seen)
        invariant WalkItems(h, env, items, depth, seen) == Append(kept, WalkItems(h, env, items[i..], depth, seen))
      {
        assert items[i..][1..] == items[i + 1..];
        if items[i].None? { return Threw; }
        var r := RedactValue(items[i].value, depth + 1);
        if r.Throws? { return Threw; }
        if r.Keep? {
          AppendCons(kept, r.p, WalkItems(h, env, items[i + 1..], depth, seen));
          kept := kept + [r.p];
        }
        i := i + 1;
      }
      assert items[|items|..] == [];
      out := Kept(kept);
    }

    method RedactFields(fields: seq<Field>, depth: nat) returns (out: seq<Entry>)
      requires depth < MAX_DEPTH
      modifies this`seen
      ensures out == WalkFields(h, env, fields, depth, old(seen)) && seen == old(seen)
      decreases Left(depth), 0, |fields| + 1
    {
      out := [];
      var i := 0;
      while i < |fields|
        invariant 0 <= i <= |fields| && seen == old(seen)
        invariant WalkFields(h, env, fields, depth, seen) == out + WalkFields(h, env, fields[i..], depth, seen)
      {
        assert fields[i..][1..] == fields[i + 1..];
        var entry := RedactField(fields[i], depth);
        out := out + entry;
        i := i + 1;
      }
    }

    method RedactField(f: Field, depth: nat) returns (entry: seq<Entry>)
      requires depth < MAX_DEPTH
      modifies this`seen
      ensures entry == WalkField(h, env, f, depth, old(seen)) && seen == old(seen)
      decreases Left(depth), 0, 0
    {
      var rule := RuleOf(f.key);
      if rule.Omit? { return []; }
      if rule.Mask? { return [Entry(f.key, PStr(PLACEHOLDER))]; }
      if f.get.None? { return []; }
      if rule.Hash? {
        return [Entry(f.key, PStr(if f.get.value.VStr? then env.hash(f.get.value.s) else PLACEHOLDER))];
      }
      var child := RedactValue(f.get.value, depth + 1);
      entry := if child.Keep? && f.key != PROTO then [Entry(f.key, child.p)] else [];
    }
  }

  ghost function Append(kept: seq<Plain>, rest: Outs): Outs {
    match rest case Kept(ps) => Kept(kept + ps) case Threw => Threw
  }

  lemma AppendCons(kept: seq<Plain>, p: Plain, rest: Outs)
    ensures Append(kept, Cons(p, rest)) == Append(kept + [p], rest)
  {
    if rest.Kept? { assert kept + ([p] + rest.ps) == kept + [p] + rest.ps; }
  }
}
