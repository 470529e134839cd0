/** Online enforcement: the verdict of a beat, the short-lived token it mints, its idempotent record,
    and the server's anchor floor. */
module Enforcement {
  import opened Tables
  import opened Seats
  import Lic1
  import Text

  type Window = n: int | 0 < n witness 1

  datatype PlanWindows = PlanWindows(
    renewalWindowSecs: Window,
    renewAfterSecs: Window,
    graceBeats: Window,
    crlNextUpdateSecs: Window,
    offlineToleranceSecs: Window)

  /** A per-plan override sets some of the windows. */
  datatype Override = Override(
    renewalWindowSecs: Option<Window>,
    renewAfterSecs: Option<Window>,
    graceBeats: Option<Window>,
    crlNextUpdateSecs: Option<Window>,
    offlineToleranceSecs: Option<Window>)

  datatype Config = Config(defaults: PlanWindows, planOverrides: map<string, Override>)

  function Or(o: Option<Window>, dflt: Window): Window { if o.Some? then o.value else dflt }

  function Merge(d: PlanWindows, o: Override): PlanWindows {
    PlanWindows(Or(o.renewalWindowSecs, d.renewalWindowSecs), Or(o.renewAfterSecs, d.renewAfterSecs),
                Or(o.graceBeats, d.graceBeats), Or(o.crlNextUpdateSecs, d.crlNextUpdateSecs),
                Or(o.offlineToleranceSecs, d.offlineToleranceSecs))
  }

  /** An override for the plan's key wins over one for its id. */
  function ResolvePlanWindows(config: Config, planKey: Option<string>, planId: string): PlanWindows {
    if planKey.Some? && planKey.value in config.planOverrides then Merge(config.defaults, config.planOverrides[planKey.value])
    else if planId in config.planOverrides then Merge(config.defaults, config.planOverrides[planId])
    else config.defaults
  }

  /** Window by window: the override of the plan's key decides what it sets, and where there is none, that of its
      id; the rest is the default. */
  lemma WindowsResolved(config: Config, planKey: Option<string>, planId: string, o: Override)
    requires planId in config.planOverrides || (planKey.Some? && planKey.value in config.planOverrides)
    requires if planKey.Some? && planKey.value in config.planOverrides then o == config.planOverrides[planKey.value]
             else o == config.planOverrides[planId]
    ensures var w, d := ResolvePlanWindows(config, planKey, planId), config.defaults;
            && w.renewalWindowSecs == (if o.renewalWindowSecs.Some? then o.renewalWindowSecs.value else d.renewalWindowSecs)
            && w.renewAfterSecs == (if o.renewAfterSecs.Some? then o.renewAfterSecs.value else d.renewAfterSecs)
            && w.graceBeats == (if o.graceBeats.Some? then o.graceBeats.value else d.graceBeats)
            && w.crlNextUpdateSecs == (if o.crlNextUpdateSecs.Some? then o.crlNextUpdateSecs.value else d.crlNextUpdateSecs)
            && w.offlineToleranceSecs == (if o.offlineToleranceSecs.Some? then o.offlineToleranceSecs.value else d.offlineToleranceSecs)
  {
  }

  datatype Staleness = Staleness(seconds: int, tokenTtl: int, crlNextUpdate: int, offlineTolerance: int)

  /** The disclosed window is never shorter than the life of a token nor than a revocation list's. */
  function ComputeStalenessWindow(w: PlanWindows): (r: Staleness)
    ensures w.renewalWindowSecs + w.offlineToleranceSecs <= r.seconds && w.crlNextUpdateSecs + w.offlineToleranceSecs <= r.seconds
    ensures r.seconds in {w.renewalWindowSecs + w.offlineToleranceSecs, w.crlNextUpdateSecs + w.offlineToleranceSecs}
  {
    var longest := if w.renewalWindowSecs < w.crlNextUpdateSecs then w.crlNextUpdateSecs else w.renewalWindowSecs;
    Staleness(longest + w.offlineToleranceSecs, w.renewalWindowSecs, w.crlNextUpdateSecs, w.offlineToleranceSecs)
  }

  // ---- the verdict -----------------------------------------------------------------------------

  datatype Verdict = ValidVerdict | RevokedVerdict | SuspendedVerdict | ExpiredVerdict | DeactivatedVerdict

  function EvaluateEnforcement(license: License, act: Activation, now: int): (v: Verdict)
    ensures v == ValidVerdict <==> license.status == LicActive && act.status == Live && (license.expiresAt.None? || now < license.expiresAt.value)
    ensures v == RevokedVerdict <==> license.status == LicRevoked
    ensures v == SuspendedVerdict <==> license.status == LicSuspended
    ensures v == ExpiredVerdict <==> license.status == LicActive && license.expiresAt.Some? && license.expiresAt.value <= now
    ensures v == DeactivatedVerdict <==> license.status == LicActive && (license.expiresAt.None? || now < license.expiresAt.value) && act.status != Live
  {
    match license.status
    case LicRevoked => RevokedVerdict
    case LicSuspended => SuspendedVerdict
    case LicActive =>
      if license.expiresAt.Some? && license.expiresAt.value <= now then ExpiredVerdict
      else if act.status != Live then DeactivatedVerdict
      else ValidVerdict
  }

  // ---- the token -------------------------------------------------------------------------------

  /** The sooner of the license's expiry and the end of the credential's own life. */
  function EffectiveExpiry(licenseExpiresAt: Option<int>, ttl: Option<int>, now: int): (r: Option<int>)
    ensures ttl.Some? ==> r.Some? && r.value <= now + ttl.value
    ensures licenseExpiresAt.Some? ==> r.Some? && r.value <= licenseExpiresAt.value
    ensures r.Some? ==> r == licenseExpiresAt || (ttl.Some? && r.value == now + ttl.value)
  {
    match (licenseExpiresAt, ttl)
    case (None, None) => None
    case (Some(e), None) => Some(e)
    case (None, Some(t)) => Some(now + t)
    case (Some(e), Some(t)) => Some(if e < now + t then e else now + t)
  }

  datatype TokenInput = TokenInput(maxSkewSecs: int, nonce: string, ttl: Option<int>, entitlements: map<string, EntValue>)

  /** The claims of a machine-bound credential; the signer fills in the key id. */
  function BuildClaims(id: Id, license: License, act: Activation, input: TokenInput, now: int): Lic1.Claims {
    Lic1.Claims(1, Text.Decimal(id), license.productId, license.planId, license.customerId, now,
                EffectiveExpiry(license.expiresAt, input.ttl, now), license.maxActivations,
                Some(act.signals), Some(act.fpMin), Some(input.maxSkewSecs), input.entitlements, None, None, "", input.nonce)
  }

  /** The signing service: None is a signer fault. */
  type Signer = Lic1.Claims -> Option<string>

  // ---- check-ins -------------------------------------------------------------------------------

  datatype CheckinOutcome = RenewedBeat | RefusedBeat

  datatype Checkin = Checkin(activation: Id, outcome: CheckinOutcome, verdict: Verdict, token: Option<string>, createdAt: int)

  type Checkins = map<string, Checkin>

  /** The shape constraint of the table. */
  predicate Shaped(c: Checkin) {
    if c.outcome == RenewedBeat then c.token.Some? && c.verdict == ValidVerdict else c.token.None? && c.verdict != ValidVerdict
  }

  /** Retention: rows older than the horizon go. */
  function Pruned(checkins: Checkins, cutoff: int): Checkins {
    map nonce | nonce in checkins && cutoff <= checkins[nonce].createdAt :: checkins[nonce]
  }

  predicate IsMonotonicAnchor(floor: Option<int>, candidate: int) { floor.None? || floor.value <= candidate }

  // ---- one beat --------------------------------------------------------------------------------

  /** One validate or heartbeat call: the activation row its identity resolves to, its nonce, and
      what the server reads besides the tables. */
  datatype Beat = Beat(
    target: Option<Id>,
    nonce: string,
    now: int,
    windows: PlanWindows,
    effective: Option<map<string, EntValue>>,
    maxSkewSecs: int,
    tokenNonce: string)

  datatype BeatError = ActivationNotFound | BeatSignerUnavailable | BeatNonceReplayed

  datatype Reply =
    | Answer(verdict: Verdict, token: Option<string>, serverTime: int, expiresAt: Option<int>, renewAfter: Option<int>, staleness: Staleness)
    | Error(error: BeatError)

  function MinInt(a: int, b: int): int { if a < b then a else b }

  function BeatClaims(licenses: map<Id, License>, acts: Acts, b: Beat): Lic1.Claims
    requires b.target.Some? && b.target.value in acts && acts[b.target.value].licenseId in licenses
  {
    var act := acts[b.target.value];
    var license := licenses[act.licenseId];
    BuildClaims(act.licenseId, license, act,
                TokenInput(b.maxSkewSecs, b.tokenNonce, Some(b.windows.renewalWindowSecs),
                           if b.effective.Some? then b.effective.value else license.entitlements), b.now)
  }

  predicate Known(licenses: map<Id, License>, acts: Acts, b: Beat) {
    b.target.Some? && b.target.value in acts && acts[b.target.value].licenseId in licenses
  }

  function BeatVerdict(licenses: map<Id, License>, acts: Acts, b: Beat): Verdict
    requires Known(licenses, acts, b)
  {
    EvaluateEnforcement(licenses[acts[b.target.value].licenseId], acts[b.target.value], b.now)
  }

  /** The expiry and renewal hints of a token minted at `at`. */
  function ValidWindows(at: int, w: PlanWindows, license: License): (int, int) {
    var exp := if license.expiresAt.Some? then MinInt(license.expiresAt.value, at + w.renewalWindowSecs) else at + w.renewalWindowSecs;
    (exp, MinInt(at + w.renewAfterSecs, exp))
  }

  function Raised(acts: Acts, id: Id, anchor: int): Acts {
    if id in acts && IsMonotonicAnchor(acts[id].lastAnchor, anchor) then acts[id := acts[id].(lastAnchor := Some(anchor))] else acts
  }

  datatype After = After(acts: Acts, checkins: Checkins, reply: Reply)

  function RunEnforcement(licenses: map<Id, License>, acts: Acts, checkins: Checkins, signer: Option<Signer>, b: Beat): After {
    if !Known(licenses, acts, b) then After(acts, checkins, Error(ActivationNotFound))
    else
      var id := b.target.value;
      var verdict := BeatVerdict(licenses, acts, b);
      var staleness := ComputeStalenessWindow(b.windows);
      if verdict != ValidVerdict then
        if b.nonce in checkins then
          After(acts, checkins,
                if checkins[b.nonce].activation == id then Answer(verdict, None, b.now, None, None, staleness) else Error(BeatNonceReplayed))
        else
          After(acts, checkins[b.nonce := Checkin(id, RefusedBeat, verdict, None, b.now)], Answer(verdict, None, b.now, None, None, staleness))
      else if signer.None? then After(acts, checkins, Error(BeatSignerUnavailable))
      else
        var minted := signer.value(BeatClaims(licenses, acts, b));
        var license := licenses[acts[id].licenseId];
        if minted.None? then After(acts, checkins, Error(BeatSignerUnavailable))
        else if b.nonce in checkins then
          var prior := checkins[b.nonce];
          var (exp, renew) := ValidWindows(prior.createdAt, b.windows, license);
          After(acts, checkins,
                if prior.activation != id then Error(BeatNonceReplayed)
                else Answer(ValidVerdict, if prior.token.Some? then prior.token else minted, prior.createdAt, Some(exp), Some(renew), staleness))
        else
          var (exp, renew) := ValidWindows(b.now, b.windows, license);
          After(Raised(acts, id, b.now), checkins[b.nonce := Checkin(id, RenewedBeat, ValidVerdict, minted, b.now)],
                Answer(ValidVerdict, minted, b.now, Some(exp), Some(renew), staleness))
  }

  // ---- the service -----------------------------------------------------------------------------

  class EnforcementService {
    var licenses: map<Id, License>
    var acts: Acts
    var checkins: Checkins

    constructor (licenses: map<Id, License>, acts: Acts)
      ensures this.licenses == licenses && this.acts == acts && checkins == map[]
    {
      this.licenses, this.acts, checkins := licenses, acts, map[];
    }

    /** Store-and-replay: None is a nonce that another activation used. */
    method RecordCheckin(nonce: string, row: Checkin) returns (r: Option<(Checkin, bool)>)
      modifies this`checkins
      ensures checkins == if nonce in old(checkins) then old(checkins) else old(checkins)[nonce := row]
      ensures r == if nonce !in old(checkins) then Some((row, false))
                   else if old(checkins)[nonce].activation == row.activation then Some((old(checkins)[nonce], true))
                   else None
    {
      if nonce in checkins {
        if checkins[nonce].activation == row.activation { return Some((checkins[nonce], true)); }
        return None;
      }
      checkins := checkins[nonce := row];
      r := Some((row, false));
    }

    /** The guarded update: the floor never goes down. */
    method AdvanceAnchor(id: Id, anchor: int) returns (advanced: bool)
      modifies this`acts
      ensures acts == Raised(old(acts), id, anchor)
      ensures advanced == (id in old(acts) && IsMonotonicAnchor(old(acts)[id].lastAnchor, anchor))
    {
      advanced := id in acts && (acts[id].lastAnchor.None? || acts[id].lastAnchor.value <= anchor);
      if advanced {
        acts := acts[id := acts[id].(lastAnchor := Some(anchor))];
      }
    }

    method PruneExpiredCheckins(retainSecs: int, now: int)
      modifies this`checkins
      ensures checkins == Pruned(old(checkins), now - retainSecs)
      ensures forall nonce :: nonce in checkins <==> nonce in old(checkins) && now - retainSecs <= old(checkins)[nonce].createdAt
      ensures forall nonce :: nonce in checkins ==> checkins[nonce] == old(checkins)[nonce]
    {
      checkins := map nonce | nonce in checkins && now - retainSecs <= checkins[nonce].createdAt :: checkins[nonce];
    }

    method Run(signer: Option<Signer>, b: Beat) returns (reply: Reply)
      modifies this`acts, this`checkins
      ensures After(acts, checkins, reply) == RunEnforcement(licenses, old(acts), old(checkins), signer, b)
    {
      if b.target.None? || b.target.value !in acts { return Error(ActivationNotFound); }
      var id := b.target.value;
      var act := acts[id];
      if act.licenseId !in licenses { return Error(ActivationNotFound); }
      var license := licenses[act.licenseId];
      var staleness := ComputeStalenessWindow(b.windows);
      var verdict := EvaluateEnforcement(license, act, b.now);
      if verdict != ValidVerdict {
        var refused := RecordCheckin(b.nonce, Checkin(id, RefusedBeat, verdict, None, b.now));
        if refused.None? { return Error(BeatNonceReplayed); }
        return Answer(verdict, None, b.now, None, None, staleness);
      }
      if signer.None? { return Error(BeatSignerUnavailable); }
      var claims := BeatClaims(licenses, acts, b);
      var minted := signer.value(claims);
      if minted.None? { return Error(BeatSignerUnavailable); }
      var checkin := RecordCheckin(b.nonce, Checkin(id, RenewedBeat, ValidVerdict, minted, b.now));
      if checkin.None? { return Error(BeatNonceReplayed); }
      var (row, replayed) := checkin.value;
      if replayed {
        var (exp, renew) := ValidWindows(row.createdAt, b.windows, license);
        return Answer(ValidVerdict, if row.token.Some? then row.token else minted, row.createdAt, Some(exp), Some(renew), staleness);
      }
      var _ := AdvanceAnchor(id, b.now);
      var (exp, renew) := ValidWindows(b.now, b.windows, license);
      return Answer(ValidVerdict, minted, b.now, Some(exp), Some(renew), staleness);
    }
  }

  // ---- what a beat promises --------------------------------------------------------------------

  /** The license is in force and the machine's row live. */
  predicate InForce(license: License, act: Activation, now: int) {
    license.status == LicActive && act.status == Live && (license.expiresAt.Some? ==> now < license.expiresAt.value)
  }

  /** What a beat answers and writes: a valid verdict and a token exactly when license and row are in force, a
      signer fault only then, and a conflict exactly when another activation used the nonce. The first use of a
      nonce is recorded as it is answered and, if valid, raises the anchor to the server's clock, never lowers it;
      nothing else is written. */
  lemma BeatOutcome(licenses: map<Id, License>, acts: Acts, checkins: Checkins, signer: Option<Signer>, b: Beat)
    requires Known(licenses, acts, b)
    ensures var id, r := b.target.value, RunEnforcement(licenses, acts, checkins, signer, b);
            var live := InForce(licenses[acts[id].licenseId], acts[id], b.now);
            var signs := signer.Some? && signer.value(BeatClaims(licenses, acts, b)).Some?;
            var taken := b.nonce in checkins && checkins[b.nonce].activation != id;
            && (r.reply == Error(BeatSignerUnavailable) <==> live && !signs)
            && (r.reply == Error(BeatNonceReplayed) <==> taken && (live ==> signs))
            && (r.reply.Answer? <==> !taken && (live ==> signs))
            && (r.reply.Answer? ==> (r.reply.verdict == ValidVerdict <==> live) && (r.reply.token.Some? <==> live))
            && (if r.reply.Answer? && b.nonce !in checkins then
                  var anchor := if live && (acts[id].lastAnchor.None? || acts[id].lastAnchor.value <= b.now) then Some(b.now) else acts[id].lastAnchor;
                  && r.checkins == checkins[b.nonce := Checkin(id, if live then RenewedBeat else RefusedBeat, r.reply.verdict, r.reply.token, b.now)]
                  && r.acts == acts[id := acts[id].(lastAnchor := anchor)]
                else r.checkins == checkins && r.acts == acts)
  {
    var id := b.target.value;
    assert acts[id := acts[id]] == acts;
  }

  /** Nothing is known of an activation that does not exist or whose license is gone. */
  lemma UnknownBeat(licenses: map<Id, License>, acts: Acts, checkins: Checkins, signer: Option<Signer>, b: Beat)
    ensures RunEnforcement(licenses, acts, checkins, signer, b).reply == Error(ActivationNotFound) <==>
            b.target.None? || b.target.value !in acts || acts[b.target.value].licenseId !in licenses
    ensures RunEnforcement(licenses, acts, checkins, signer, b).reply == Error(ActivationNotFound) ==>
            RunEnforcement(licenses, acts, checkins, signer, b) == After(acts, checkins, Error(ActivationNotFound))
  {
  }

  /** A beat on a revoked license answers with no token, replay or not. */
  lemma RevokedGetsNoToken(licenses: map<Id, License>, acts: Acts, checkins: Checkins, signer: Option<Signer>, b: Beat)
    requires Known(licenses, acts, b) && licenses[acts[b.target.value].licenseId].status == LicRevoked
    ensures var r := RunEnforcement(licenses, acts, checkins, signer, b).reply;
            r.Answer? ==> r.verdict == RevokedVerdict && r.token.None?
  {
  }

  /** The license's expiry cuts the window of a token minted at `at` short. */
  predicate Cut(expiresAt: Option<int>, at: int, window: int) { expiresAt.Some? && expiresAt.value < at + window }

  /** Two tokens, or a token and what is said of it, end together: by the same cut, by the same window,
      or by a cut that falls where the other's window ends. */
  predicate SameEnd(e0: Option<int>, at0: int, w0: int, e1: Option<int>, at1: int, w1: int) {
    if Cut(e0, at0, w0) && Cut(e1, at1, w1) then e0.value == e1.value
    else if Cut(e0, at0, w0) then e0.value == at1 + w1
    else if Cut(e1, at1, w1) then e1.value == at0 + w0
    else at0 + w0 == at1 + w1
  }

  lemma SameEndIff(e0: Option<int>, at0: int, w0: int, e1: Option<int>, at1: int, w1: int)
    ensures EffectiveExpiry(e0, Some(w0), at0) == EffectiveExpiry(e1, Some(w1), at1) <==> SameEnd(e0, at0, w0, e1, at1, w1)
  {
  }

  /** The three fields of a valid answer: the server time `at`, an end no later than the license's expiry and
      the window counted from `at`, and a renewal due no later than that end, both as late as that allows. */
  predicate Advertises(r: Reply, at: int, license: License, w: PlanWindows) {
    && r.Answer? && r.serverTime == at && r.expiresAt.Some? && r.renewAfter.Some?
    && r.expiresAt.value <= at + w.renewalWindowSecs
    && (license.expiresAt.Some? ==> r.expiresAt.value <= license.expiresAt.value)
    && (r.expiresAt.value == at + w.renewalWindowSecs || r.expiresAt == license.expiresAt)
    && r.renewAfter.value <= r.expiresAt.value && r.renewAfter.value <= at + w.renewAfterSecs
    && (r.renewAfter == r.expiresAt || r.renewAfter.value == at + w.renewAfterSecs)
  }

  lemma AdvertisedEnd(r: Reply, at: int, license: License, w: PlanWindows)
    requires Advertises(r, at, license, w)
    ensures r.expiresAt == EffectiveExpiry(license.expiresAt, Some(w.renewalWindowSecs), at)
  {
  }

  /** The moment whose windows an answer advertises: that of the nonce's first use. */
  function AnswerTime(checkins: Checkins, b: Beat): int {
    if b.nonce in checkins then checkins[b.nonce].createdAt else b.now
  }

  /** Every valid answer advertises the current license and windows from the first use of its nonce on. A
      token minted by this very beat is advertised with the expiry that is signed exactly when the nonce was
      not used at another time, or the license expires within both windows. */
  lemma AdvertisedExpiry(licenses: map<Id, License>, acts: Acts, checkins: Checkins, signer: Option<Signer>, b: Beat)
    requires Known(licenses, acts, b)
    ensures var r := RunEnforcement(licenses, acts, checkins, signer, b).reply;
            var license, at := licenses[acts[b.target.value].licenseId], AnswerTime(checkins, b);
            r.Answer? && r.verdict == ValidVerdict ==>
              && Advertises(r, at, license, b.windows)
              && (b.nonce !in checkins || checkins[b.nonce].token.None? ==>
                  && r.token == signer.value(BeatClaims(licenses, acts, b))
                  && (r.expiresAt == BeatClaims(licenses, acts, b).expiresAt <==>
                      at == b.now || (license.expiresAt.Some? && license.expiresAt.value <= at + b.windows.renewalWindowSecs
                                      && license.expiresAt.value <= b.now + b.windows.renewalWindowSecs)))
  {
  }

  /** Retrying a beat with its nonce changes nothing, and returns the stored token exactly when the
      first use was a renewal. A nonce first used while the license was refused yields a newly minted
      token that is not recorded. Either is advertised from the time of the first use on, under the
      windows and the license of the retry. */
  lemma ReplayReturnsOriginal(licenses: map<Id, License>, acts: Acts, checkins: Checkins, signer: Option<Signer>, b: Beat)
    requires Known(licenses, acts, b) && b.nonce in checkins && Shaped(checkins[b.nonce])
    requires checkins[b.nonce].activation == b.target.value
    ensures var r := RunEnforcement(licenses, acts, checkins, signer, b);
            && r.acts == acts && r.checkins == checkins
            && (r.reply.Answer? && r.reply.verdict == ValidVerdict ==>
                && Advertises(r.reply, checkins[b.nonce].createdAt, licenses[acts[b.target.value].licenseId], b.windows)
                && (if checkins[b.nonce].outcome == RenewedBeat then r.reply.token == checkins[b.nonce].token
                    else r.reply.token == signer.value(BeatClaims(licenses, acts, b)) && checkins[b.nonce].token.None?))
  {
  }

  /** The anchor floor of an activation never goes down, and a nonce keeps its first record. */
  lemma BeatKeeps(licenses: map<Id, License>, acts: Acts, checkins: Checkins, signer: Option<Signer>, b: Beat, id: Id, nonce: string)
    ensures var r := RunEnforcement(licenses, acts, checkins, signer, b);
            && (id in acts ==> id in r.acts && (acts[id].lastAnchor.Some? ==>
                r.acts[id].lastAnchor.Some? && acts[id].lastAnchor.value <= r.acts[id].lastAnchor.value))
            && (id in acts ==> r.acts[id].(lastAnchor := None) == acts[id].(lastAnchor := None))
            && r.acts.Keys == acts.Keys
            && (nonce in checkins ==> nonce in r.checkins && r.checkins[nonce] == checkins[nonce])
            && (nonce in r.checkins && nonce !in checkins ==> Shaped(r.checkins[nonce]) && nonce == b.nonce)
  {
  }
}
