/** What an answer says of its token, in runs where licenses and plan windows change between a beat and
    its retry: the advertised expiry against the signed one, and the disclosed staleness against the
    token's life. */
module Replays {
  import opened Tables
  import opened Enforcement
  import opened Platform
  import opened Staleness
  import BillingEvents
  import BillingSpec
  import Lic1
  import Seats
  import Verifier

  // ---- the two beats behind an answer ------------------------------------------------------------

  function BeatLicense(s: Server, b: Beat): License
    requires Known(s.db.licenses, s.acts, b)
  {
    s.db.licenses[s.acts[b.target.value].licenseId]
  }

  function BeatReply(s: Server, step: Step): Reply
    requires step.Enforce?
  {
    RunEnforcement(s.db.licenses, s.acts, s.checkins, step.signer, step.b).reply
  }

  /** The expiry that the beat had signed. */
  function SignedEnd(s: Server, step: Step): Option<int>
    requires step.Enforce? && Known(s.db.licenses, s.acts, step.b)
  {
    BeatClaims(s.db.licenses, s.acts, step.b).expiresAt
  }

  lemma SignedEndIs(s: Server, step: Step)
    requires step.Enforce? && Known(s.db.licenses, s.acts, step.b)
    ensures SignedEnd(s, step) == EffectiveExpiry(BeatLicense(s, step.b).expiresAt, Some(step.b.windows.renewalWindowSecs), step.b.now)
  {
  }

  lemma ReturnedIsAdvertised(s: Server, step: Step, token: string)
    requires Returns(s, step, token)
    ensures Known(s.db.licenses, s.acts, step.b)
    ensures Advertises(BeatReply(s, step), AnswerTime(s.checkins, step.b), BeatLicense(s, step.b), step.b.windows)
  {
    AdvertisedExpiry(s.db.licenses, s.acts, s.checkins, step.signer, step.b);
  }

  /** In every run, the expiry advertised with a returned token is the one signed in it exactly when the
      windows at minting, counted from the minting, and the windows at the answer, counted from the answer's
      server time, end together under the license's expiry then and now. */
  lemma AdvertisedIsSignedIff(trace: seq<Server>, steps: seq<Step>, j: nat, token: string) returns (m: nat)
    requires IsRun(trace, steps) && trace[0].checkins == map[]
    requires j < |steps| && Returns(trace[j], steps[j], token)
    ensures m <= j && Mints(trace[m], steps[m], token) && Known(trace[j].db.licenses, trace[j].acts, steps[j].b)
    ensures BeatReply(trace[j], steps[j]).serverTime == AnswerTime(trace[j].checkins, steps[j].b)
    ensures m < j ==> BeatReply(trace[j], steps[j]).serverTime == steps[m].b.now
    ensures BeatReply(trace[j], steps[j]).expiresAt == SignedEnd(trace[m], steps[m]) <==>
            SameEnd(BeatLicense(trace[m], steps[m].b).expiresAt, steps[m].b.now, steps[m].b.windows.renewalWindowSecs,
                    BeatLicense(trace[j], steps[j].b).expiresAt, BeatReply(trace[j], steps[j]).serverTime,
                    steps[j].b.windows.renewalWindowSecs)
  {
    m := ReturnedWasMinted(trace, steps, j, token);
    ReturnedIsAdvertised(trace[j], steps[j], token);
    var at := AnswerTime(trace[j].checkins, steps[j].b);
    AdvertisedEnd(BeatReply(trace[j], steps[j]), at, BeatLicense(trace[j], steps[j].b), steps[j].b.windows);
    SignedEndIs(trace[m], steps[m]);
    SameEndIff(BeatLicense(trace[m], steps[m].b).expiresAt, steps[m].b.now, steps[m].b.windows.renewalWindowSecs,
               BeatLicense(trace[j], steps[j].b).expiresAt, at, steps[j].b.windows.renewalWindowSecs);
  }

  // ---- the disclosed window ------------------------------------------------------------------------

  predicate Past(end: int, clock: int) { end < clock }

  /** Every clock later than the answer's beat by more than what it disclosed is past the expiry of its token. */
  ghost predicate DisclosureHolds(now: int, seconds: int, end: int) {
    forall clock: int :: now + seconds < clock ==> Past(end, clock)
  }

  /** What an answer discloses bounds the life of its token exactly when the window the token was minted
      under, counted from the minting, or the license's expiry at that time, is reached within it. */
  lemma DisclosureIff(trace: seq<Server>, steps: seq<Step>, j: nat, token: string) returns (m: nat)
    requires IsRun(trace, steps) && trace[0].checkins == map[]
    requires j < |steps| && Returns(trace[j], steps[j], token)
    ensures m <= j && Mints(trace[m], steps[m], token) && SignedEnd(trace[m], steps[m]).Some?
    ensures var until := steps[j].b.now + BeatReply(trace[j], steps[j]).staleness.seconds;
            var license := BeatLicense(trace[m], steps[m].b);
            DisclosureHolds(steps[j].b.now, BeatReply(trace[j], steps[j]).staleness.seconds, SignedEnd(trace[m], steps[m]).value) <==>
            (steps[m].b.now + steps[m].b.windows.renewalWindowSecs <= until
             || (license.expiresAt.Some? && license.expiresAt.value <= until))
    ensures m == j ==>
            DisclosureHolds(steps[j].b.now, BeatReply(trace[j], steps[j]).staleness.seconds, SignedEnd(trace[m], steps[m]).value)
    ensures steps[m].b.now <= steps[j].b.now && steps[m].b.windows == steps[j].b.windows ==>
            DisclosureHolds(steps[j].b.now, BeatReply(trace[j], steps[j]).staleness.seconds, SignedEnd(trace[m], steps[m]).value)
  {
    m := ReturnedWasMinted(trace, steps, j, token);
    SignedEndIs(trace[m], steps[m]);
    DisclosedIsComputed(trace[j], steps[j], token);
    var until := steps[j].b.now + BeatReply(trace[j], steps[j]).staleness.seconds;
    var end := SignedEnd(trace[m], steps[m]).value;
    if DisclosureHolds(steps[j].b.now, BeatReply(trace[j], steps[j]).staleness.seconds, end) {
      assert Past(end, until + 1);
    }
  }

  lemma DisclosedIsComputed(s: Server, step: Step, token: string)
    requires Returns(s, step, token)
    ensures BeatReply(s, step).staleness == ComputeStalenessWindow(step.b.windows)
    ensures step.b.windows.renewalWindowSecs < BeatReply(s, step).staleness.seconds
  {
  }

  /** Where it does, a client that was given the token at step `j` is refused offline at every clock later
      than a revocation at `r` plus what it was told, whenever that revocation was. */
  lemma DisclosureCovers(trace: seq<Server>, steps: seq<Step>, j: nat, token: string, r: int,
                         core: Verifier.Core, keyring: map<string, Verifier.KeyEntry>, opts: Verifier.Options) returns (m: nat)
    requires IsRun(trace, steps) && trace[0].checkins == map[]
    requires j < |steps| && Returns(trace[j], steps[j], token)
    requires forall n :: 0 <= n < |steps| && steps[n].Enforce? && steps[n].signer.Some? ==> Faithful(steps[n].signer.value, core)
    requires steps[j].b.now <= r && r + BeatReply(trace[j], steps[j]).staleness.seconds < opts.now
    ensures m <= j && Mints(trace[m], steps[m], token)
    ensures var until := steps[j].b.now + BeatReply(trace[j], steps[j]).staleness.seconds;
            var license := BeatLicense(trace[m], steps[m].b);
            steps[m].b.now + steps[m].b.windows.renewalWindowSecs <= until
            || (license.expiresAt.Some? && license.expiresAt.value <= until) ==>
            Verifier.Verify(core, token, keyring, opts).Refused?
  {
    m := DisclosureIff(trace, steps, j, token);
    var seconds := BeatReply(trace[j], steps[j]).staleness.seconds;
    var end := SignedEnd(trace[m], steps[m]).value;
    if DisclosureHolds(steps[j].b.now, seconds, end) {
      assert Past(end, opts.now);
      SignedExpiryHolds(core, token, BeatClaims(trace[m].db.licenses, trace[m].acts, steps[m].b), keyring, opts);
    }
  }

  // ---- witnesses -----------------------------------------------------------------------------------

  const LICENSE: License := License("product", "plan", "customer", LicActive, None, 1, map[], 0)
  const ACTS: Seats.Acts := map[0 := Seats.Activation(0, "machine", [], 0, Seats.Live, "seat", "", 0, None)]

  function At(now: int, window: Window): Beat {
    Beat(Some(0), "nonce", now, PlanWindows(window, 1, 1, 1, 1), None, 0, "")
  }

  /** A nonce first used while the license was suspended: the retry after reinstatement is answered with a
      new token that is advertised to end before it does. */
  lemma RefusedFirst(signer: Signer)
    requires forall c: Lic1.Claims :: signer(c).Some?
    ensures var first := RunEnforcement(map[0 := LICENSE.(status := LicSuspended)], ACTS, map[], Some(signer), At(100, 50));
            var second := RunEnforcement(map[0 := LICENSE], first.acts, first.checkins, Some(signer), At(200, 50));
            var signed := BeatClaims(map[0 := LICENSE], first.acts, At(200, 50));
            && first.reply.Answer? && first.reply.token.None?
            && second.reply.Answer? && second.reply.token == signer(signed)
            && second.reply.expiresAt == Some(150) && signed.expiresAt == Some(250)
            && second.checkins == first.checkins
  {
  }

  /** A license renewed between a beat and its retry: the stored token is advertised to end after it does. */
  lemma RenewedInBetween(signer: Signer, deps: BillingEvents.Deps)
    requires forall c: Lic1.Claims :: signer(c).Some?
    requires LICENSE.planId in deps.effective
    ensures var before := LICENSE.(expiresAt := Some(120));
            var after := BillingSpec.RenewedLicense(before, deps, Some(5000));
            var first := RunEnforcement(map[0 := before], ACTS, map[], Some(signer), At(100, 50));
            var second := RunEnforcement(map[0 := after], first.acts, first.checkins, Some(signer), At(110, 50));
            var signed := BeatClaims(map[0 := before], ACTS, At(100, 50));
            && first.reply.Answer? && first.reply.token == signer(signed) && signed.expiresAt == Some(120)
            && second.reply.Answer? && second.reply.token == first.reply.token && second.reply.expiresAt == Some(150)
  {
  }

  /** Plan windows shortened between a beat and its retry: the stored token outlives what the retry discloses. */
  lemma WindowsShortened(signer: Signer)
    requires forall c: Lic1.Claims :: signer(c).Some?
    ensures var first := RunEnforcement(map[0 := LICENSE], ACTS, map[], Some(signer), At(100, 1000));
            var second := RunEnforcement(map[0 := LICENSE], first.acts, first.checkins, Some(signer), At(110, 5));
            var signed := BeatClaims(map[0 := LICENSE], ACTS, At(100, 1000));
            && second.reply.Answer? && second.reply.token == signer(signed) && signed.expiresAt == Some(1100)
            && !DisclosureHolds(110, second.reply.staleness.seconds, 1100)
  {
    assert !Past(1100, 117);
  }
}
