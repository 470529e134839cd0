/** LIC1 license tokens: the claims, the token an issuer makes of them, and the demo's decoder. */
module Lic1 {
  import opened Tables
  import opened Text
  import opened Cbor
  import opened CborWriter
  import Base64Url

  datatype Claims = Claims(
    tokenVersion: int,
    licenseId: string,
    productId: string,
    planId: string,
    customerId: string,
    issuedAt: int,
    expiresAt: Option<int>,
    maxActivations: int,
    fingerprint: Option<seq<string>>,
    fpMin: Option<int>,
    maxSkewSecs: Option<int>,
    entitlements: map<string, EntValue>,
    maxVersion: Option<string>,
    maintenanceUntil: Option<int>,
    keyId: string,
    nonce: string)

  // ---- the payload -----------------------------------------------------------------------------

  datatype Name = V | Lid | Pid | Pl | Cid | Iat | Exp | Maxa | Fp | Fpk | Sk | Ent | Maxv | Mnt | Kid | Non

  /** The claims in the order both encoders write them. */
  const ALL: seq<Name> := [V, Lid, Pid, Pl, Cid, Iat, Exp, Maxa, Fp, Fpk, Sk, Ent, Maxv, Mnt, Kid, Non]

  function Spell(n: Name): string {
    match n
    case V => "v" case Lid => "lid" case Pid => "pid" case Pl => "pl" case Cid => "cid"
    case Iat => "iat" case Exp => "exp" case Maxa => "maxa" case Fp => "fp" case Fpk => "fpk"
    case Sk => "sk" case Ent => "ent" case Maxv => "maxv" case Mnt => "mnt" case Kid => "kid" case Non => "non"
  }

  function Texts(s: seq<string>): (r: seq<Tree>)
    ensures |r| == |s| && forall i :: 0 <= i < |s| ==> r[i] == TText(s[i])
  {
    if s == [] then [] else [TText(s[0])] + Texts(s[1..])
  }

  function EntTree(v: EntValue): Tree { match v case Flag(on) => TBool(on) case Limit(n) => TInt(n) }

  /** The entitlement keys in the order an issuer sorts them; each exactly once. */
  ghost predicate Lists(keys: seq<string>, ent: map<string, EntValue>) {
    && (forall k :: k in keys <==> k in ent)
    && forall i, j :: 0 <= i < j < |keys| ==> keys[i] != keys[j]
  }

  function EntEntries(ent: map<string, EntValue>, keys: seq<string>): (r: seq<Entry>)
    requires forall k :: k in keys ==> k in ent
    ensures |r| == |keys| && forall i :: 0 <= i < |keys| ==> r[i] == Entry(keys[i], EntTree(ent[keys[i]]))
  {
    if keys == [] then [] else [Entry(keys[0], EntTree(ent[keys[0]]))] + EntEntries(ent, keys[1..])
  }

  function OptInt(n: Option<int>): Option<Tree> { if n.Some? then Some(TInt(n.value)) else None }

  /** What is written under a name; absent optional claims are skipped. */
  function Field(c: Claims, keys: seq<string>, n: Name): Option<Tree>
    requires forall k :: k in keys ==> k in c.entitlements
  {
    match n
    case V => Some(TInt(c.tokenVersion))
    case Lid => Some(TText(c.licenseId))
    case Pid => Some(TText(c.productId))
    case Pl => Some(TText(c.planId))
    case Cid => Some(TText(c.customerId))
    case Iat => Some(TInt(c.issuedAt))
    case Exp => OptInt(c.expiresAt)
    case Maxa => Some(TInt(c.maxActivations))
    case Fp => if c.fingerprint.Some? then Some(TArr(Texts(c.fingerprint.value))) else None
    case Fpk => OptInt(c.fpMin)
    case Sk => OptInt(c.maxSkewSecs)
    case Ent => Some(TMap(EntEntries(c.entitlements, keys)))
    case Maxv => if c.maxVersion.Some? then Some(TText(c.maxVersion.value)) else None
    case Mnt => OptInt(c.maintenanceUntil)
    case Kid => Some(TText(c.keyId))
    case Non => Some(TText(c.nonce))
  }

  function Entries(c: Claims, keys: seq<string>, names: seq<Name>): seq<Entry>
    requires forall k :: k in keys ==> k in c.entitlements
  {
    if names == [] then []
    else
      var t := Field(c, keys, names[0]);
      (if t.Some? then [Entry(Spell(names[0]), t.value)] else []) + Entries(c, keys, names[1..])
  }

  function ClaimTree(c: Claims, keys: seq<string>): Tree
    requires forall k :: k in keys ==> k in c.entitlements
  {
    TMap(Entries(c, keys, ALL))
  }

  // ---- the token -------------------------------------------------------------------------------

  const PREFIX := "LIC1."
  const FORMAT_VERSION: Byte := 1
  const SIG_LEN := 64

  function Transport(payload: seq<Byte>, signature: seq<Byte>): seq<Byte> { [FORMAT_VERSION] + payload + signature }

  function Token(payload: seq<Byte>, signature: seq<Byte>): string {
    PREFIX + Base64Url.Encode(Transport(payload, signature))
  }

  // ---- the demo's decoder ----------------------------------------------------------------------

  datatype Shown = Shown(
    licenseId: string,
    productId: string,
    planId: string,
    customerId: string,
    issuedAt: int,
    expiresAt: Option<int>,
    maxActivations: Option<int>,
    keyId: string,
    entitlements: Val)

  /** `m[name]`, following the prototype; None is `undefined`. */
  function Lookup(m: Val, name: string): Option<Val> {
    if !m.Obj? then None
    else if name in m.own then Some(m.own[name])
    else if m.proto.Some? then Lookup(m.proto.value, name)
    else None
  }

  function TextClaim(m: Val, name: string): string {
    var v := Lookup(m, name);
    if v.None? || v.value.Null? then "" else KeyString(v.value)
  }

  function IntClaim(m: Val, name: string): Option<int> {
    var v := Lookup(m, name);
    if v.Some? && v.value.Num? then Some(v.value.n) else None
  }

  function Show(m: Val): Shown {
    var iat := IntClaim(m, "iat");
    var ent := Lookup(m, "ent");
    Shown(TextClaim(m, "lid"), TextClaim(m, "pid"), TextClaim(m, "pl"), TextClaim(m, "cid"),
          if iat.Some? then iat.value else 0, IntClaim(m, "exp"), IntClaim(m, "maxa"), TextClaim(m, "kid"),
          if ent.None? || ent.value.Null? then EMPTY else ent.value)
  }

  function Payload(transport: seq<Byte>): seq<Byte>
    requires 1 + SIG_LEN <= |transport|
  {
    transport[1..|transport| - SIG_LEN]
  }

  /** What a reader splits off is what was put together. */
  lemma TransportSplit(payload: seq<Byte>, signature: seq<Byte>)
    requires |signature| == SIG_LEN
    ensures var t := Transport(payload, signature);
            1 + SIG_LEN <= |t| && t[0] == FORMAT_VERSION && Payload(t) == payload && t[|t| - SIG_LEN..] == signature
  {
    var t := Transport(payload, signature);
    assert t == [FORMAT_VERSION] + (payload + signature);
    assert t[1..|t| - SIG_LEN] == payload;
  }

  function Decoded(token: string): Option<Shown> {
    if !(PREFIX <= token) then None
    else
      var bytes := Base64Url.B64UrlToBytes(token[5..]);
      if bytes.None? || |bytes.value| < 1 + SIG_LEN then None
      else
        var m := ReadValue(Payload(bytes.value));
        if m.None? || m.value.0.Null? then None else Some(Show(m.value.0))
  }

  method DecodeClaims(token: string) returns (r: Option<Shown>)
    ensures r == Decoded(token)
  {
    if !(PREFIX <= token) { return None; }
    var bytes := Base64Url.CopyB64UrlToBytes(token[5..]);
    if bytes.None? || bytes.value.Length < 1 + SIG_LEN { return None; }
    var reader := new Reader(Payload(bytes.value[..]));
    var m := reader.Read();
    if m.None? || m.value.Null? { return None; }
    r := Some(Show(m.value));
  }
}
