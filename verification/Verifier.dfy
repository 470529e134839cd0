/** The offline verifier core: keyring, fingerprint match, clock anchor and the `verify` pipeline.

    Ed25519 and the serde reader are library code: `Core` carries a predicate that says which
    signatures hold and a function that says which payloads parse. */
module Verifier {
  import opened Tables
  import opened Text
  import opened Lic1
  import Base64Url

  // ---- 64-bit arithmetic -----------------------------------------------------------------------

  const I64_MIN: int := -0x8000_0000_0000_0000
  const I64_MAX: int := 0x7FFF_FFFF_FFFF_FFFF

  type I64 = n: int | -0x8000_0000_0000_0000 <= n <= 0x7FFF_FFFF_FFFF_FFFF

  function Saturate(n: int): I64 { if n < I64_MIN then I64_MIN else if n > I64_MAX then I64_MAX else n }
  function SatAdd(a: I64, b: I64): I64 { Saturate(a + b) }
  function SatSub(a: I64, b: I64): I64 { Saturate(a - b) }

  // ---- keyring.rs ------------------------------------------------------------------------------

  datatype KeyEntry = KeyEntry(key: seq<Byte>, validFrom: Option<I64>, validUntil: Option<I64>, revoked: bool)

  const MAX_KEYRING_KEYS := 32

  function Inserted(keys: map<string, KeyEntry>, keyId: string, entry: KeyEntry): map<string, KeyEntry> {
    if |keys| >= MAX_KEYRING_KEYS && keyId !in keys then keys else keys[keyId := entry]
  }

  class Keyring {
    var keys: map<string, KeyEntry>

    ghost predicate Valid()
      reads this
    {
      |keys| <= MAX_KEYRING_KEYS
    }

    constructor ()
      ensures Valid() && keys == map[]
    {
      keys := map[];
    }

    /** An existing id may be overwritten; only the number of distinct ids is bounded. */
    method Insert(keyId: string, entry: KeyEntry)
      requires Valid()
      modifies this
      ensures Valid()
      ensures keys == Inserted(old(keys), keyId, entry)
      ensures forall k :: k in old(keys) && k != keyId ==> k in keys && keys[k] == old(keys)[k]
      ensures keyId in old(keys) || |old(keys)| < 32 ==> keyId in keys && keys[keyId] == entry
      ensures keyId !in old(keys) && |old(keys)| == 32 ==> keys == old(keys)
    {
      if |keys| >= MAX_KEYRING_KEYS && keyId !in keys { return; }
      InsertSize(keys, keyId, entry);
      keys := keys[keyId := entry];
    }

    method Get(keyId: string) returns (r: Option<KeyEntry>)
      ensures r == if keyId in keys then Some(keys[keyId]) else None
    {
      if keyId in keys { return Some(keys[keyId]); }
      return None;
    }
  }

  lemma InsertSize(keys: map<string, KeyEntry>, keyId: string, entry: KeyEntry)
    ensures |keys[keyId := entry]| == if keyId in keys then |keys| else |keys| + 1
  {
    assert keys[keyId := entry].Keys == keys.Keys + {keyId};
  }

  // ---- fingerprint.rs --------------------------------------------------------------------------

  function Min(a: int, b: int): int { if a < b then a else b }

  /** The positions, below `n`, at which two signal lists carry the same non-empty signal. */
  function Agreeing(bound: seq<string>, local: seq<string>, n: nat): set<nat>
    requires n <= |bound| && n <= |local|
  {
    set i: nat | 0 <= i < n && bound[i] != "" && bound[i] == local[i]
  }

  function FingerprintMatches(bound: seq<string>, local: seq<string>, threshold: nat): bool {
    threshold <= |Agreeing(bound, local, Min(|bound|, |local|))|
  }

  method CountMatches(bound: seq<string>, local: seq<string>, threshold: nat) returns (r: bool)
    ensures r == FingerprintMatches(bound, local, threshold)
  {
    var n := Min(|bound|, |local|);
    var matches := 0;
    var i := 0;
    while i < n
      invariant 0 <= i <= n
      invariant matches == |Agreeing(bound, local, i)|
    {
      ghost var before := Agreeing(bound, local, i);
      if bound[i] != "" && bound[i] == local[i] {
        assert Agreeing(bound, local, i + 1) == before + {i};
        matches := matches + 1;
      } else {
        assert Agreeing(bound, local, i + 1) == before;
      }
      i := i + 1;
    }
    r := matches >= threshold;
  }

  // ---- anchor.rs -------------------------------------------------------------------------------

  function NextAnchor(stored: I64, now: I64): I64 { if now > stored then now else stored }

  /** The clock, allowed to be off by the skew, has gone back, in unbounded arithmetic. */
  predicate Behind(anchor: I64, now: I64, skew: I64) { now + skew < anchor && now < I64_MAX }

  lemma BehindIff(anchor: I64, now: I64, skew: I64)
    ensures now < SatSub(anchor, skew) <==> Behind(anchor, now, skew)
  {
  }

  /** The host's record of the highest clock it has seen. */
  class Anchor {
    var highestSeen: I64

    constructor (initial: I64)
      ensures highestSeen == initial
    {
      highestSeen := initial;
    }

    method Observe(t: I64)
      modifies this
      ensures highestSeen == NextAnchor(old(highestSeen), t)
    {
      if t > highestSeen { highestSeen := t; }
    }

    /** Saturation shows at one clock only: the largest one is never behind. */
    method RolledBack(now: I64, skew: I64) returns (r: bool)
      ensures r <==> Behind(highestSeen, now, skew)
    {
      BehindIff(highestSeen, now, skew);
      r := now < SatSub(highestSeen, skew);
    }
  }

  // ---- verify.rs -------------------------------------------------------------------------------

  datatype VerifyError =
    | Malformed | UnsupportedVersion | UnknownKey | KeyNotValid | BadSignature
    | Expired | ClockRollback | FingerprintMismatch | FingerprintMissing

  datatype Verdict = Verified(claims: Claims, nextAnchor: I64) | Refused(error: VerifyError)

  datatype Options = Options(
    now: I64,
    anchor: Option<I64>,
    skew: I64,
    localFingerprint: Option<seq<string>>,
    fpThreshold: nat,
    maxTokenBytes: nat,
    maxEntitlements: nat)

  /** `signed(key, message, signature)` and `parse(payload)` stand for the two libraries. */
  datatype Core = Core(signed: (seq<Byte>, seq<Byte>, seq<Byte>) -> bool, parse: seq<Byte> -> Option<Claims>)

  predicate IsI64(n: int) { I64_MIN <= n <= I64_MAX }
  predicate OptI64(n: Option<int>) { n.Some? ==> IsI64(n.value) }

  /** The widths of the claim fields; serde refuses anything else. */
  predicate InRange(c: Claims) {
    && IsI64(c.issuedAt) && OptI64(c.expiresAt) && OptI64(c.maxSkewSecs)
    && (c.fpMin.Some? ==> 0 <= c.fpMin.value < 0x1_0000_0000)
  }

  function Parse(core: Core, payload: seq<Byte>): (r: Option<Claims>)
    ensures r.Some? ==> InRange(r.value) && core.parse(payload) == r
  {
    var c := core.parse(payload);
    if c.Some? && InRange(c.value) then c else None
  }

  const PREFIX_V2 := "LIC2."
  /** The ASCII bytes of `LICSRV-LICENSE-TOKEN-v1`. */
  const DOMAIN_TAG: seq<Byte> := [
    0x4C, 0x49, 0x43, 0x53, 0x52, 0x56, 0x2D, 0x4C, 0x49, 0x43, 0x45, 0x4E, 0x53, 0x45, 0x2D,
    0x54, 0x4F, 0x4B, 0x45, 0x4E, 0x2D, 0x76, 0x31]

  function SigningInput(version: Byte, payload: seq<Byte>): seq<Byte> { DOMAIN_TAG + [version] + payload }

  datatype Outcome<T> = Pass(value: T) | Fail(error: VerifyError)

  function DecodeTransport(token: string, maxBytes: nat): Outcome<seq<Byte>> {
    if |Encode(token)| > maxBytes then Fail(Malformed)
    else if PREFIX_V2 <= token then Fail(UnsupportedVersion)
    else if !(PREFIX <= token) then Fail(Malformed)
    else
      var b := Base64Url.StrictDecode(token[5..]);
      if b.None? then Fail(Malformed) else Pass(b.value)
  }

  predicate KeyUsable(entry: KeyEntry, now: I64) {
    && !entry.revoked
    && (entry.validFrom.Some? ==> entry.validFrom.value <= now)
    && (entry.validUntil.Some? ==> now < entry.validUntil.value)
  }

  function EffectiveSkew(c: Claims, opts: Options): (r: I64)
    requires InRange(c)
    ensures r <= opts.skew
  {
    if c.maxSkewSecs.Some? then Min(opts.skew, c.maxSkewSecs.value) else opts.skew
  }

  function EffectiveK(c: Claims, opts: Options): nat
    requires InRange(c)
  {
    var k := if c.fpMin.Some? then c.fpMin.value else 0;
    if opts.fpThreshold < k then k else opts.fpThreshold
  }

  /** The checks on claims whose signature holds. */
  function CheckClaims(c: Claims, opts: Options): Verdict
    requires InRange(c)
  {
    var skew := EffectiveSkew(c, opts);
    if c.issuedAt > SatAdd(opts.now, skew) then Refused(ClockRollback)
    else if opts.anchor.Some? && opts.now < SatSub(opts.anchor.value, skew) then Refused(ClockRollback)
    else if c.expiresAt.Some? && opts.now > c.expiresAt.value then Refused(Expired)
    else if c.fingerprint.Some? && opts.localFingerprint.None? then Refused(FingerprintMissing)
    else if c.fingerprint.Some? && !FingerprintMatches(c.fingerprint.value, opts.localFingerprint.value, EffectiveK(c, opts))
    then Refused(FingerprintMismatch)
    else Verified(c, NextAnchor(if opts.anchor.Some? then opts.anchor.value else opts.now, opts.now))
  }

  /** The checks on claims that parsed but are not trusted yet. */
  function CheckSigned(core: Core, c: Claims, payload: seq<Byte>, signature: seq<Byte>, keyring: map<string, KeyEntry>, opts: Options): Verdict
    requires InRange(c)
  {
    if |c.entitlements| > opts.maxEntitlements then Refused(Malformed)
    else if c.keyId !in keyring then Refused(UnknownKey)
    else if !KeyUsable(keyring[c.keyId], opts.now) then Refused(KeyNotValid)
    else if !core.signed(keyring[c.keyId].key, SigningInput(FORMAT_VERSION, payload), signature) then Refused(BadSignature)
    else CheckClaims(c, opts)
  }

  function VerifyTransport(core: Core, t: seq<Byte>, keyring: map<string, KeyEntry>, opts: Options): Verdict {
    if |t| < 1 + SIG_LEN then Refused(Malformed)
    else if t[0] != FORMAT_VERSION then Refused(UnsupportedVersion)
    else
      var parsed := Parse(core, Payload(t));
      if parsed.None? then Refused(Malformed)
      else CheckSigned(core, parsed.value, Payload(t), t[|t| - SIG_LEN..], keyring, opts)
  }

  function Verify(core: Core, token: string, keyring: map<string, KeyEntry>, opts: Options): Verdict {
    match DecodeTransport(token, opts.maxTokenBytes)
    case Fail(error) => Refused(error)
    case Pass(t) => VerifyTransport(core, t, keyring, opts)
  }

  // ---- what acceptance means -------------------------------------------------------------------

  /** Text in ASCII is encoded as its codes. */
  lemma {:induction false} EncodeAscii(s: string)
    requires forall i :: 0 <= i < |s| ==> s[i] < '\U{0080}'
    ensures Encode(s) == seq(|s|, i requires 0 <= i < |s| => s[i] as int)
  {
    if s != [] { EncodeAscii(s[1..]); }
  }

  lemma TagText()
    ensures Encode("LICSRV-LICENSE-TOKEN-v1") == DOMAIN_TAG
  {
    hide Encode;
    EncodeAscii("LICSRV-LICENSE-TOKEN-v1");
  }

  /** An accepted token is, letter by letter, the one token of a payload and a signature that holds
      for it under the key its claims name: nothing else spells it. */
  lemma AcceptedIsSigned(core: Core, token: string, keyring: map<string, KeyEntry>, opts: Options)
    returns (payload: seq<Byte>, signature: seq<Byte>)
    requires Verify(core, token, keyring, opts).Verified?
    ensures token == Token(payload, signature) && |signature| == 64
    ensures token == "LIC1." + Base64Url.Encode([1] + payload + signature)
    ensures var c := Verify(core, token, keyring, opts).claims;
            && core.parse(payload) == Some(c) && InRange(c)
            && c.keyId in keyring && KeyUsable(keyring[c.keyId], opts.now)
            && core.signed(keyring[c.keyId].key, Encode("LICSRV-LICENSE-TOKEN-v1") + [1] + payload, signature)
  {
    var t := DecodeTransport(token, opts.maxTokenBytes).value;
    payload, signature := Payload(t), t[|t| - SIG_LEN..];
    PassedTransport(token, opts.maxTokenBytes, t);
    assert t == Transport(payload, signature);
    TagText();
  }

  lemma PassedTransport(token: string, maxBytes: nat, t: seq<Byte>)
    requires DecodeTransport(token, maxBytes) == Pass(t)
    ensures token == PREFIX + Base64Url.Encode(t)
  {
    Base64Url.StrictDecodeIff(token[5..], t);
    assert token == PREFIX + token[5..];
  }

  lemma TokenDecodes(payload: seq<Byte>, signature: seq<Byte>, maxBytes: nat)
    requires |Encode(Token(payload, signature))| <= maxBytes
    ensures DecodeTransport(Token(payload, signature), maxBytes) == Pass(Transport(payload, signature))
  {
    var token := Token(payload, signature);
    var t := Transport(payload, signature);
    assert token[..5] == PREFIX && token[5..] == Base64Url.Encode(t);
    assert token[3] == '1' && PREFIX_V2[3] == '2';
    Base64Url.StrictDecodeIff(token[5..], t);
  }

  // ---- the claim checks in closed form -----------------------------------------------------------

  /** The skew that counts: the caller's, or the token's if that is smaller. */
  predicate SkewIs(c: Claims, opts: Options, skew: int) {
    && (skew == opts.skew || c.maxSkewSecs == Some(skew))
    && skew <= opts.skew && (c.maxSkewSecs.Some? ==> skew <= c.maxSkewSecs.value)
  }

  /** Issued in the future even with the skew; the largest number of seconds is as far as a clock reaches. */
  predicate FromTheFuture(c: Claims, opts: Options, skew: int) { opts.now + skew < c.issuedAt && I64_MIN < c.issuedAt }

  /** Every threshold in force is met by equal, non-empty signals in equal positions. */
  predicate OnThisMachine(c: Claims, opts: Options) {
    c.fingerprint.Some? ==>
      && opts.localFingerprint.Some?
      && var bound, local := c.fingerprint.value, opts.localFingerprint.value;
         var agreeing := |set i: nat | 0 <= i < |bound| && i < |local| && bound[i] != "" && bound[i] == local[i]|;
         opts.fpThreshold <= agreeing && (c.fpMin.Some? ==> c.fpMin.value <= agreeing)
  }

  predicate NotExpired(c: Claims, opts: Options) { c.expiresAt.Some? ==> opts.now <= c.expiresAt.value }

  predicate KeyInForce(entry: KeyEntry, now: I64) {
    && !entry.revoked
    && (entry.validFrom.None? || entry.validFrom.value <= now)
    && (entry.validUntil.None? || now < entry.validUntil.value)
  }

  lemma FutureIff(issuedAt: I64, now: I64, skew: I64)
    ensures issuedAt > SatAdd(now, skew) <==> now + skew < issuedAt && I64_MIN < issuedAt
  {
  }

  lemma MatchesIff(c: Claims, opts: Options)
    requires InRange(c) && c.fingerprint.Some? && opts.localFingerprint.Some?
    ensures FingerprintMatches(c.fingerprint.value, opts.localFingerprint.value, EffectiveK(c, opts)) <==> OnThisMachine(c, opts)
  {
    var bound, local := c.fingerprint.value, opts.localFingerprint.value;
    assert Agreeing(bound, local, Min(|bound|, |local|)) ==
           set i: nat | 0 <= i < |bound| && i < |local| && bound[i] != "" && bound[i] == local[i];
  }

  /** Signed claims pass exactly when they are not from the future, the clock has not gone behind the
      anchor, they have not expired and the machine is theirs. */
  lemma ClaimsPassIff(c: Claims, opts: Options, skew: I64)
    requires InRange(c) && SkewIs(c, opts, skew)
    ensures CheckClaims(c, opts).Verified? <==>
            && !FromTheFuture(c, opts, skew)
            && (opts.anchor.Some? ==> !Behind(opts.anchor.value, opts.now, skew))
            && NotExpired(c, opts)
            && OnThisMachine(c, opts)
    ensures CheckClaims(c, opts).Verified? ==> CheckClaims(c, opts).claims == c
  {
    assert EffectiveSkew(c, opts) == skew;
    FutureIff(c.issuedAt, opts.now, skew);
    if opts.anchor.Some? { BehindIff(opts.anchor.value, opts.now, skew); }
    if c.fingerprint.Some? && opts.localFingerprint.Some? { MatchesIff(c, opts); }
  }

  /** The answer of the host's anchor is the verifier's: a clock it calls rolled back is refused with
      just that error, unless the claims are from the future, which is refused the same way. */
  lemma RolledBackIsRefused(c: Claims, opts: Options, skew: I64)
    requires InRange(c) && SkewIs(c, opts, skew) && opts.anchor.Some?
    ensures CheckClaims(c, opts) == Refused(ClockRollback) <==>
            FromTheFuture(c, opts, skew) || Behind(opts.anchor.value, opts.now, skew)
  {
    assert EffectiveSkew(c, opts) == skew;
    FutureIff(c.issuedAt, opts.now, skew);
    BehindIff(opts.anchor.value, opts.now, skew);
  }

  /** A token of a genuine payload is accepted exactly when its size and entitlement count are within
      bounds, its key is in force, and its claims are of the past, not expired, for this machine and on a
      clock that has not gone behind the anchor. */
  lemma IssuedAcceptedIff(core: Core, c: Claims, payload: seq<Byte>, signature: seq<Byte>, keyring: map<string, KeyEntry>, opts: Options, skew: I64)
    requires |signature| == SIG_LEN && core.parse(payload) == Some(c) && InRange(c) && SkewIs(c, opts, skew)
    requires c.keyId in keyring && core.signed(keyring[c.keyId].key, SigningInput(FORMAT_VERSION, payload), signature)
    ensures Verify(core, Token(payload, signature), keyring, opts).Verified? <==>
            && |Encode(Token(payload, signature))| <= opts.maxTokenBytes
            && |c.entitlements| <= opts.maxEntitlements
            && KeyInForce(keyring[c.keyId], opts.now)
            && !FromTheFuture(c, opts, skew)
            && (opts.anchor.Some? ==> !Behind(opts.anchor.value, opts.now, skew))
            && NotExpired(c, opts)
            && OnThisMachine(c, opts)
    ensures Verify(core, Token(payload, signature), keyring, opts).Verified? ==>
            Verify(core, Token(payload, signature), keyring, opts).claims == c
  {
    ClaimsPassIff(c, opts, skew);
    if |Encode(Token(payload, signature))| <= opts.maxTokenBytes {
      TokenDecodes(payload, signature, opts.maxTokenBytes);
      TransportSplit(payload, signature);
      IssuedTransport(core, c, payload, signature, keyring, opts);
    }
  }

  lemma IssuedTransport(core: Core, c: Claims, payload: seq<Byte>, signature: seq<Byte>, keyring: map<string, KeyEntry>, opts: Options)
    requires |signature| == SIG_LEN && core.parse(payload) == Some(c) && InRange(c)
    requires c.keyId in keyring && core.signed(keyring[c.keyId].key, SigningInput(FORMAT_VERSION, payload), signature)
    ensures VerifyTransport(core, Transport(payload, signature), keyring, opts).Verified? <==>
            |c.entitlements| <= opts.maxEntitlements && KeyInForce(keyring[c.keyId], opts.now) && CheckClaims(c, opts).Verified?
    ensures VerifyTransport(core, Transport(payload, signature), keyring, opts).Verified? ==>
            VerifyTransport(core, Transport(payload, signature), keyring, opts) == CheckClaims(c, opts)
  {
    TransportSplit(payload, signature);
  }

  /** What signed claims are answered with, check by check, in closed form. */
  lemma ClaimsAnswer(c: Claims, opts: Options, skew: I64)
    requires InRange(c) && SkewIs(c, opts, skew)
    ensures CheckClaims(c, opts) ==
            if FromTheFuture(c, opts, skew) || (opts.anchor.Some? && Behind(opts.anchor.value, opts.now, skew)) then Refused(ClockRollback)
            else if c.expiresAt.Some? && c.expiresAt.value < opts.now then Refused(Expired)
            else if c.fingerprint.Some? && opts.localFingerprint.None? then Refused(FingerprintMissing)
            else if !OnThisMachine(c, opts) then Refused(FingerprintMismatch)
            else Verified(c, if opts.anchor.Some? && opts.now < opts.anchor.value then opts.anchor.value else opts.now)
  {
    hide FingerprintMatches;
    ClaimsPassIff(c, opts, skew);
    assert EffectiveSkew(c, opts) == skew;
    FutureIff(c.issuedAt, opts.now, skew);
    if opts.anchor.Some? { BehindIff(opts.anchor.value, opts.now, skew); }
    if c.fingerprint.Some? && opts.localFingerprint.Some? { MatchesIff(c, opts); }
  }

  /** And a well-formed token, its signature genuine or not. */
  lemma TokenAnswer(core: Core, c: Claims, payload: seq<Byte>, signature: seq<Byte>, keyring: map<string, KeyEntry>, opts: Options)
    requires |signature| == SIG_LEN && core.parse(payload) == Some(c) && InRange(c)
    ensures Verify(core, Token(payload, signature), keyring, opts) ==
            if |Encode(Token(payload, signature))| > opts.maxTokenBytes || |c.entitlements| > opts.maxEntitlements then Refused(Malformed)
            else if c.keyId !in keyring then Refused(UnknownKey)
            else if !KeyInForce(keyring[c.keyId], opts.now) then Refused(KeyNotValid)
            else if !core.signed(keyring[c.keyId].key, Encode("LICSRV-LICENSE-TOKEN-v1") + [1] + payload, signature) then Refused(BadSignature)
            else CheckClaims(c, opts)
  {
    hide CheckClaims, Token, Transport, Payload, Encode;
    TagText();
    if |Encode(Token(payload, signature))| <= opts.maxTokenBytes {
      TokenDecodes(payload, signature, opts.maxTokenBytes);
      TransportSplit(payload, signature);
    }
  }
}
