/** What an accepted short-lived token says, and on which machine it is accepted: the claims of every
    token a run returns, read off the tables of the step that minted it. */
module Binding {
  import opened Tables
  import opened Text
  import opened Enforcement
  import opened Platform
  import opened Staleness
  import Seats
  import Lic1
  import Verifier

  /** The positions in which two signal lists carry the same signal. */
  function Shared(bound: seq<string>, local: seq<string>): set<nat> {
    set i: nat | 0 <= i < |bound| && i < |local| && bound[i] != "" && bound[i] == local[i]
  }

  /** The claims are those of this license and this activation row, made at `b.now`. */
  predicate Names(c: Lic1.Claims, license: License, act: Seats.Activation, b: Beat) {
    && c.tokenVersion == 1
    && c.licenseId == Decimal(act.licenseId)
    && c.productId == license.productId && c.planId == license.planId && c.customerId == license.customerId
    && c.issuedAt == b.now
    && c.maxActivations == license.maxActivations
    && c.fingerprint == Some(act.signals) && c.fpMin == Some(act.fpMin) && c.maxSkewSecs == Some(b.maxSkewSecs)
    && (b.effective.Some? ==> c.entitlements == b.effective.value)
    && (b.effective.None? ==> c.entitlements == license.entitlements)
    && c.nonce == b.tokenNonce
    && c.expiresAt.Some?
    && c.expiresAt.value <= b.now + b.windows.renewalWindowSecs
    && (license.expiresAt.Some? ==> c.expiresAt.value <= license.expiresAt.value)
    && (c.expiresAt.value == b.now + b.windows.renewalWindowSecs || c.expiresAt == license.expiresAt)
  }

  /** The step is a beat of a live activation of a license in force, both named in the claims. */
  predicate MintedFor(s: Server, step: Step, c: Lic1.Claims) {
    && step.Enforce? && step.b.target.Some? && step.b.target.value in s.acts
    && var act := s.acts[step.b.target.value];
       && act.licenseId in s.db.licenses
       && var license := s.db.licenses[act.licenseId];
          && act.status == Seats.Live && license.status == LicActive
          && (license.expiresAt.Some? ==> step.b.now < license.expiresAt.value)
          && Names(c, license, act, step.b)
  }

  lemma MintsNames(s: Server, step: Step, token: string, core: Verifier.Core) returns (c: Lic1.Claims)
    requires Mints(s, step, token) && Faithful(step.signer.value, core)
    ensures MintedFor(s, step, c) && SignsAs(token, c, core)
  {
    c := BeatClaims(s.db.licenses, s.acts, step.b);
  }

  /** Decimal license ids name one license. */
  lemma {:induction false} DecimalOnce(m: nat, n: nat)
    requires Decimal(m) == Decimal(n)
    ensures m == n
  {
    var a, b := Decimal(m), Decimal(n);
    assert a[|a| - 1] == b[|b| - 1] && a[..|a| - 1] == b[..|b| - 1];
    assert m >= 10 ==> a[..|a| - 1] == Decimal(m / 10);
    assert n >= 10 ==> b[..|b| - 1] == Decimal(n / 10);
    if m >= 10 && n >= 10 { DecimalOnce(m / 10, n / 10); }
  }

  /** One token carries one payload. */
  lemma OnePayload(p: seq<Byte>, s: seq<Byte>, p': seq<Byte>, s': seq<Byte>)
    requires Lic1.Token(p, s) == Lic1.Token(p', s') && |s| == Lic1.SIG_LEN && |s'| == Lic1.SIG_LEN
    ensures p == p'
  {
    var size := |Encode(Lic1.Token(p, s))|;
    Verifier.TokenDecodes(p, s, size);
    Verifier.TokenDecodes(p', s', size);
    Lic1.TransportSplit(p, s);
    Lic1.TransportSplit(p', s');
  }

  lemma AcceptedPasses(core: Verifier.Core, token: string, keyring: map<string, Verifier.KeyEntry>, opts: Verifier.Options)
    requires Verifier.Verify(core, token, keyring, opts).Verified?
    ensures var c := Verifier.Verify(core, token, keyring, opts).claims;
            Verifier.InRange(c) && Verifier.CheckClaims(c, opts).Verified?
  {
  }

  /** Claims that pass with a fingerprint pass on its machine only. */
  lemma PassedOnMachine(c: Lic1.Claims, opts: Verifier.Options)
    requires Verifier.InRange(c) && Verifier.CheckClaims(c, opts).Verified? && c.fingerprint.Some? && c.fpMin.Some?
    ensures opts.localFingerprint.Some?
    ensures c.fpMin.value <= |Shared(c.fingerprint.value, opts.localFingerprint.value)|
    ensures opts.fpThreshold <= |Shared(c.fingerprint.value, opts.localFingerprint.value)|
  {
    Verifier.MatchesIff(c, opts);
    var bound, local := c.fingerprint.value, opts.localFingerprint.value;
    assert Shared(bound, local) == set i: nat | 0 <= i < |bound| && i < |local| && bound[i] != "" && bound[i] == local[i];
  }

  /** The claims of an accepted token are the ones it was signed for, the key id apart. */
  lemma AcceptedAsSigned(core: Verifier.Core, token: string, c: Lic1.Claims, keyring: map<string, Verifier.KeyEntry>, opts: Verifier.Options)
    requires SignsAs(token, c, core) && Verifier.Verify(core, token, keyring, opts).Verified?
    ensures exists keyId :: Verifier.Verify(core, token, keyring, opts).claims == c.(keyId := keyId)
  {
    hide Lic1.Token, Verifier.Verify;
    var payload, signature := Verifier.AcceptedIsSigned(core, token, keyring, opts);
    var p: seq<Byte>, s: seq<Byte>, keyId: string :|
      token == Lic1.Token(p, s) && |s| == Lic1.SIG_LEN && core.parse(p) == Some(c.(keyId := keyId));
    OnePayload(payload, signature, p, s);
  }

  /** Whatever token a run returns: where the offline verifier accepts it, some beat of the same
      activation minted it while the row was live and its license in force; the machine carries, in their
      places, at least `fpMin` of the signals of that row; and the accepted claims are those of the row,
      its license and that moment. The license is still the one of the row when the token is returned. */
  lemma AcceptedIsBound(trace: seq<Server>, steps: seq<Step>, j: nat, token: string,
                        core: Verifier.Core, keyring: map<string, Verifier.KeyEntry>, opts: Verifier.Options) returns (m: nat)
    requires IsRun(trace, steps) && Platform.Valid(trace[0]) && trace[0].checkins == map[]
    requires forall m :: 0 <= m < |steps| && steps[m].Enforce? && steps[m].signer.Some? ==> Faithful(steps[m].signer.value, core)
    requires j < |steps| && Returns(trace[j], steps[j], token)
    requires Verifier.Verify(core, token, keyring, opts).Verified?
    ensures m <= j && steps[j].Enforce? && MintedFor(trace[m], steps[m], Verifier.Verify(core, token, keyring, opts).claims)
    ensures steps[m].b.target == steps[j].b.target
    ensures var a := steps[m].b.target.value;
            var act := trace[m].acts[a];
            && a in trace[j].acts && trace[j].acts[a].licenseId == act.licenseId
            && opts.localFingerprint.Some?
            && act.fpMin <= |Shared(act.signals, opts.localFingerprint.value)|
            && opts.fpThreshold <= |Shared(act.signals, opts.localFingerprint.value)|
  {
    hide Platform.Apply, Verifier.Verify, Verifier.CheckClaims, Verifier.InRange, BeatClaims, SignsAs, RunEnforcement, Shared, EvaluateEnforcement;
    m := ReturnedWasMinted(trace, steps, j, token);
    assert Faithful(steps[m].signer.value, core);
    var c := MintsNames(trace[m], steps[m], token, core);
    AcceptedAsSigned(core, token, c, keyring, opts);
    AcceptedPasses(core, token, keyring, opts);
    PassedOnMachine(Verifier.Verify(core, token, keyring, opts).claims, opts);
    RunKeeps(trace, steps, m, j);
  }
}
