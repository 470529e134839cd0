/** How long a revoked license can still look valid to an offline client. */
module Staleness {
  import opened Tables
  import opened Text
  import opened Enforcement
  import opened Platform
  import BillingInvariant
  import Seats
  import Lic1
  import Verifier

  /** The step returned this token to its caller. */
  predicate Returns(s: Server, step: Step, token: string) {
    && step.Enforce?
    && var r := RunEnforcement(s.db.licenses, s.acts, s.checkins, step.signer, step.b).reply;
       r.Answer? && r.token == Some(token)
  }

  /** The step had the signer mint this token, from these claims. */
  predicate Mints(s: Server, step: Step, token: string) {
    && step.Enforce? && step.signer.Some? && Known(s.db.licenses, s.acts, step.b)
    && BeatVerdict(s.db.licenses, s.acts, step.b) == ValidVerdict
    && step.signer.value(BeatClaims(s.db.licenses, s.acts, step.b)) == Some(token)
  }

  /** The step wrote this check-in row. */
  predicate Records(s: Server, step: Step, nonce: string, row: Checkin) {
    && step.Enforce? && step.b.nonce == nonce && Known(s.db.licenses, s.acts, step.b)
    && row.activation == step.b.target.value && row.createdAt == step.b.now
    && row.verdict == BeatVerdict(s.db.licenses, s.acts, step.b)
    && (if row.outcome == RenewedBeat then row.token.Some? && Mints(s, step, row.token.value) else row.token.None?)
  }

  lemma NewRowIsRecorded(s: Server, step: Step, nonce: string)
    requires nonce in Apply(s, step).checkins
    requires nonce !in s.checkins || s.checkins[nonce] != Apply(s, step).checkins[nonce]
    ensures Records(s, step, nonce, Apply(s, step).checkins[nonce])
  {
  }

  /** Every check-in row of a run was written by an earlier beat with that nonce. */
  lemma {:induction false} RowOrigin(trace: seq<Server>, steps: seq<Step>, n: nat, nonce: string) returns (m: nat)
    requires IsRun(trace, steps) && trace[0].checkins == map[] && n <= |steps| && nonce in trace[n].checkins
    ensures m < n && Records(trace[m], steps[m], nonce, trace[n].checkins[nonce])
  {
    if nonce in trace[n - 1].checkins && trace[n - 1].checkins[nonce] == trace[n].checkins[nonce] {
      m := RowOrigin(trace, steps, n - 1, nonce);
    } else {
      m := n - 1;
      NewRowIsRecorded(trace[m], steps[m], nonce);
    }
  }

  /** The answer carries the stored token of an earlier beat. */
  predicate Stored(s: Server, step: Step) {
    step.Enforce? && step.b.nonce in s.checkins && s.checkins[step.b.nonce].token.Some?
  }

  /** A returned token is the stored one, or else was minted by this very step. */
  lemma ReturnedIsMintedOrStored(s: Server, step: Step, token: string)
    requires Returns(s, step, token)
    ensures if Stored(s, step) then
              s.checkins[step.b.nonce].token == Some(token) && s.checkins[step.b.nonce].activation == step.b.target.value
            else Mints(s, step, token)
  {
  }

  /** The returned token's license is live at that moment. */
  lemma ReturnsOnlyForLive(s: Server, step: Step, token: string)
    requires Returns(s, step, token)
    ensures Known(s.db.licenses, s.acts, step.b)
    ensures s.db.licenses[s.acts[step.b.target.value].licenseId].status == LicActive
  {
  }

  /** Every token that is ever returned was minted, by the step that returns it or by the one that wrote
      the row of its nonce, for the same activation and at the server time of the answer. */
  lemma ReturnedWasMinted(trace: seq<Server>, steps: seq<Step>, j: nat, token: string) returns (m: nat)
    requires IsRun(trace, steps) && trace[0].checkins == map[]
    requires j < |steps| && Returns(trace[j], steps[j], token)
    ensures m <= j && Mints(trace[m], steps[m], token) && steps[m].b.target == steps[j].b.target
    ensures m < j <==> Stored(trace[j], steps[j])
    ensures m < j ==> steps[m].b.nonce == steps[j].b.nonce && steps[m].b.now == AnswerTime(trace[j].checkins, steps[j].b)
  {
    ReturnedIsMintedOrStored(trace[j], steps[j], token);
    m := j;
    if Stored(trace[j], steps[j]) { m := RowOrigin(trace, steps, j, steps[j].b.nonce); }
  }

  /** Once a license is revoked, no step of the run returns a token for any of its activations again. */
  lemma NoTokenAfterRevocation(trace: seq<Server>, steps: seq<Step>, i: nat, j: nat, lic: Id, token: string)
    requires IsRun(trace, steps) && Platform.Valid(trace[0]) && i <= j < |steps|
    requires lic in trace[i].db.licenses && trace[i].db.licenses[lic].status == LicRevoked
    requires steps[j].Enforce? && Known(trace[j].db.licenses, trace[j].acts, steps[j].b)
    requires trace[j].acts[steps[j].b.target.value].licenseId == lic
    ensures !Returns(trace[j], steps[j], token)
  {
    RunKeeps(trace, steps, i, j);
    assert BillingInvariant.LicenseEvolves(trace[i].db.licenses[lic], trace[j].db.licenses[lic]);
  }

  /** The claims of a minted token expire within the renewal window of the minting beat. */
  lemma MintedExpiry(s: Server, step: Step, token: string)
    requires Mints(s, step, token)
    ensures var c := BeatClaims(s.db.licenses, s.acts, step.b);
            c.expiresAt.Some? && c.expiresAt.value <= step.b.now + step.b.windows.renewalWindowSecs
  {
  }

  // ---- end to end ------------------------------------------------------------------------------

  /** The signing service makes LIC1 tokens of exactly the claims it is given, with its key id
      stamped, and the verifier's parser reads those payloads back. */
  ghost predicate Faithful(signer: Signer, core: Verifier.Core) {
    forall c: Lic1.Claims :: signer(c).Some? ==> SignsAs(signer(c).value, c, core)
  }

  ghost predicate SignsAs(token: string, c: Lic1.Claims, core: Verifier.Core) {
    exists payload: seq<Byte>, signature: seq<Byte>, keyId: string ::
      token == Lic1.Token(payload, signature) && |signature| == Lic1.SIG_LEN && core.parse(payload) == Some(c.(keyId := keyId))
  }

  lemma ExpiredTransport(core: Verifier.Core, payload: seq<Text.Byte>, signature: seq<Text.Byte>, c: Lic1.Claims,
                         keyring: map<string, Verifier.KeyEntry>, opts: Verifier.Options)
    requires |signature| == Lic1.SIG_LEN && core.parse(payload) == Some(c) && c.expiresAt.Some? && c.expiresAt.value < opts.now
    ensures Verifier.VerifyTransport(core, Lic1.Transport(payload, signature), keyring, opts).Refused?
  {
    Lic1.TransportSplit(payload, signature);
  }

  /** The verifier accepts nothing past the expiry that was signed. */
  lemma SignedExpiryHolds(core: Verifier.Core, token: string, c: Lic1.Claims, keyring: map<string, Verifier.KeyEntry>, opts: Verifier.Options)
    requires SignsAs(token, c, core) && c.expiresAt.Some? && c.expiresAt.value < opts.now
    ensures Verifier.Verify(core, token, keyring, opts).Refused?
  {
    var payload, signature, keyId :|
      token == Lic1.Token(payload, signature) && |signature| == Lic1.SIG_LEN && core.parse(payload) == Some(c.(keyId := keyId));
    ExpiredTransport(core, payload, signature, c.(keyId := keyId), keyring, opts);
    if |Text.Encode(token)| <= opts.maxTokenBytes { Verifier.TokenDecodes(payload, signature, opts.maxTokenBytes); }
  }

  /** Bounded staleness: whatever token a client was ever given for a license, once the license is
      revoked at time `r` the offline verifier refuses it at every clock later than `r` plus the
      longest renewal window in use until then. */
  lemma BoundedStaleness(trace: seq<Server>, steps: seq<Step>, i: nat, j: nat, lic: Id, token: string, r: int, window: Window,
                         core: Verifier.Core, keyring: map<string, Verifier.KeyEntry>, opts: Verifier.Options)
    requires IsRun(trace, steps) && Platform.Valid(trace[0]) && trace[0].checkins == map[]
    requires i <= |steps| && j < |steps|
    requires lic in trace[i].db.licenses && trace[i].db.licenses[lic].status == LicRevoked
    requires forall m :: 0 <= m < i && steps[m].Enforce? ==> steps[m].b.now <= r && steps[m].b.windows.renewalWindowSecs <= window
    requires forall m :: 0 <= m < |steps| && steps[m].Enforce? && steps[m].signer.Some? ==> Faithful(steps[m].signer.value, core)
    requires Returns(trace[j], steps[j], token)
    requires trace[j].acts[steps[j].b.target.value].licenseId == lic
    requires r + window < opts.now
    ensures j < i
    ensures Verifier.Verify(core, token, keyring, opts).Refused?
  {
    ReturnsOnlyForLive(trace[j], steps[j], token);
    if i <= j { NoTokenAfterRevocation(trace, steps, i, j, lic, token); }
    var m := ReturnedWasMinted(trace, steps, j, token);
    MintedExpiry(trace[m], steps[m], token);
    var c := BeatClaims(trace[m].db.licenses, trace[m].acts, steps[m].b);
    assert Faithful(steps[m].signer.value, core);
    SignedExpiryHolds(core, token, c, keyring, opts);
  }
}
