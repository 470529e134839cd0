/** On which licenses a seat is given, over all interleavings, and what an activation does to the rows,
    field by field. */
module SeatAccess {
  import opened Tables
  import opened Fingerprints
  import opened Seats

  /** The license can be activated at this clock. */
  predicate LiveAt(license: License, now: int) {
    license.status == LicActive && (license.expiresAt == None || license.expiresAt.value > now)
  }

  predicate InTransaction(s: State, p: Pid) {
    p in s.procs && (s.procs[p].pc in {Locked, NonceClear} || s.procs[p].pc.Signing?)
  }

  predicate Seated(s: State, p: Pid) {
    p in s.procs && s.procs[p].pc.Finished? &&
    (s.procs[p].pc.outcome.SeatCreated? || s.procs[p].pc.outcome.Reused? || s.procs[p].pc.outcome.Replayed?)
  }

  /** Step `i` is where the process took the lock, on a live license that has been the same ever since. */
  ghost predicate LockedLive(trace: seq<State>, moves: seq<Move>, i: nat, n: nat, p: Pid)
    requires |trace| == |moves| + 1 && i < n <= |moves|
  {
    && moves[i].Acquire? && moves[i].p == p && LiveAt(trace[i].license, moves[i].now)
    && forall k :: i <= k <= n ==> trace[k].license == trace[i].license
  }

  lemma HolderKeepsLicense(s: State, m: Move, p: Pid)
    requires Inv(s) && Enabled(s, m) && InTransaction(s, p)
    ensures Next(s, m).license == s.license
  {
    assert s.lock == Some(p);
  }

  /** What may come before: a process is in a transaction only by its own lock, and ends only from one. */
  lemma EntersByLock(s: State, m: Move, p: Pid)
    requires Inv(s) && Enabled(s, m) && p in s.procs
    requires InTransaction(Next(s, m), p) && !InTransaction(s, p)
    ensures m.Acquire? && m.p == p && LiveAt(s.license, m.now) && Next(s, m).license == s.license
  {
  }

  lemma EndsFromLock(s: State, m: Move, p: Pid)
    requires Inv(s) && Enabled(s, m) && p in s.procs
    requires Seated(Next(s, m), p) && !Seated(s, p)
    ensures InTransaction(s, p) && Next(s, m).license == s.license
  {
    if m.Commit? { CommitOutcome(s, m); }
  }

  lemma ProcsStay(s: State, m: Move, p: Pid)
    requires Inv(s) && Enabled(s, m)
    ensures p in s.procs <==> p in Next(s, m).procs
  {
    if m.Commit? { CommitOutcome(s, m); }
  }

  lemma {:induction false} HolderLockedLive(trace: seq<State>, moves: seq<Move>, n: nat, p: Pid) returns (i: nat)
    requires IsRun(trace, moves) && Inv(trace[0]) && n <= |moves|
    requires p in trace[0].procs && trace[0].procs[p].pc == Waiting && InTransaction(trace[n], p)
    ensures i < n && LockedLive(trace, moves, i, n, p)
  {
    hide Next, Enabled, Inv;
    RunKeeps(trace, moves, n - 1);
    assert Enabled(trace[n - 1], moves[n - 1]) && trace[n] == Next(trace[n - 1], moves[n - 1]);
    ProcsStay(trace[n - 1], moves[n - 1], p);
    if InTransaction(trace[n - 1], p) {
      i := HolderLockedLive(trace, moves, n - 1, p);
      HolderKeepsLicense(trace[n - 1], moves[n - 1], p);
    } else {
      i := n - 1;
      EntersByLock(trace[n - 1], moves[n - 1], p);
    }
  }

  /** In every interleaving: whoever is given a seat, or told of one, took the lock while the license was active and
      not expired at that clock, and nothing about the license changed until the answer. */
  lemma {:induction false} SeatedOnLiveLicense(trace: seq<State>, moves: seq<Move>, n: nat, p: Pid) returns (i: nat, e: nat)
    requires IsRun(trace, moves) && Inv(trace[0]) && n <= |moves|
    requires p in trace[0].procs && trace[0].procs[p].pc == Waiting && Seated(trace[n], p)
    ensures i < e <= n && LockedLive(trace, moves, i, e, p) && !Seated(trace[e - 1], p) && Seated(trace[e], p)
  {
    hide Next, Enabled, Inv;
    RunKeeps(trace, moves, n - 1);
    assert Enabled(trace[n - 1], moves[n - 1]) && trace[n] == Next(trace[n - 1], moves[n - 1]);
    ProcsStay(trace[n - 1], moves[n - 1], p);
    if Seated(trace[n - 1], p) {
      i, e := SeatedOnLiveLicense(trace, moves, n - 1, p);
    } else {
      EndsFromLock(trace[n - 1], moves[n - 1], p);
      i := HolderLockedLive(trace, moves, n - 1, p);
      e := n;
    }
  }

  /** On any other license the answer is that it is not active, and no row changes. */
  lemma DeadLicenseRefused(s: State, m: Move)
    requires Enabled(s, m) && m.Acquire?
    ensures !LiveAt(s.license, m.now) <==> Next(s, m).procs[m.p].pc == Finished(LicenseNotActive)
    ensures Next(s, m).acts == s.acts && (LiveAt(s.license, m.now) <==> Next(s, m).lock == Some(m.p))
  {
  }

  // ---- one whole activation, field by field ------------------------------------------------------------

  /** An active row that the incoming signals re-match: enough of them shared, at least one. */
  ghost predicate Rematches(acts: Acts, lic: Id, id: Id, req: Request, k: nat) {
    && IsActive(acts, lic, id)
    && |(set x | x in req.signals) * (set x | x in acts[id].signals)| >= k
    && exists x :: x in req.signals && x in acts[id].signals
  }

  /** The machine is new: no active row is its own or re-matched. */
  ghost predicate NewMachine(acts: Acts, lic: Id, req: Request, k: nat) {
    forall id :: IsActive(acts, lic, id) ==> acts[id].machineId != req.machineId && !Rematches(acts, lic, id, req, k)
  }

  /** The row that a re-activation takes: the machine's own, or else one re-matched that shares no fewer signals
      than any other, and of those with as many has not been out of use longer. */
  ghost predicate Chosen(acts: Acts, lic: Id, id: Id, req: Request, k: nat) {
    && IsActive(acts, lic, id)
    && (acts[id].machineId != req.machineId ==>
        && (forall j :: IsActive(acts, lic, j) ==> acts[j].machineId != req.machineId)
        && Rematches(acts, lic, id, req, k)
        && forall j :: Rematches(acts, lic, j, req, k) ==>
             var mine := |(set x | x in req.signals) * (set x | x in acts[id].signals)|;
             var theirs := |(set x | x in req.signals) * (set x | x in acts[j].signals)|;
             theirs < mine || (theirs == mine && acts[j].updatedAt <= acts[id].updatedAt))
  }

  lemma SharesIff(acts: Acts, lic: Id, id: Id, req: Request, k: nat, c: Candidate)
    requires IsActive(acts, lic, id) && c.signals == acts[id].signals
    ensures Shares(req.signals, c, k) <==> Rematches(acts, lic, id, req, k)
    ensures Overlap(req.signals, c.signals) == |(set x | x in req.signals) * (set x | x in acts[id].signals)|
  {
    var a, b := SignalSet(req.signals), SignalSet(c.signals);
    assert a == (set x | x in req.signals) && b == (set x | x in acts[id].signals);
    if a * b != {} { var x :| x in a * b; assert x in req.signals && x in acts[id].signals; }
    if x :| x in req.signals && x in acts[id].signals { assert x in a * b; }
    assert |a * b| >= 1 <==> a * b != {};
  }

  /** The decision in the fields of the rows. */
  lemma MatchExplained(acts: Acts, lic: Id, req: Request, k: nat, order: seq<Id>)
    requires Listing(acts, lic, order) && forall id :: id in order ==> id in acts
    ensures var m := Match(req.signals, req.machineId, Candidates(acts, order), k);
            && (m.None? <==> NewMachine(acts, lic, req, k))
            && (m.Some? ==> Chosen(acts, lic, order[m.value], req, k))
  {
    var cands := Candidates(acts, order);
    var m := Match(req.signals, req.machineId, cands, k);
    MatchIsMaximal(req.signals, req.machineId, cands, k);
    forall i | 0 <= i < |order| ensures IsActive(acts, lic, order[i]) {
      assert order[i] in ActiveRows(acts, lic);
    }
    forall i | 0 <= i < |order|
      ensures Shares(req.signals, cands[i], k) <==> Rematches(acts, lic, order[i], req, k)
      ensures Overlap(req.signals, cands[i].signals) == |(set x | x in req.signals) * (set x | x in acts[order[i]].signals)|
    {
      SharesIff(acts, lic, order[i], req, k, cands[i]);
    }
    forall id | IsActive(acts, lic, id) ensures exists i :: 0 <= i < |order| && order[i] == id {
      assert id in ActiveRows(acts, lic);
      assert id in order;
    }
    if m.None? {
      forall id | IsActive(acts, lic, id) ensures acts[id].machineId != req.machineId && !Rematches(acts, lic, id, req, k) {
        var i :| 0 <= i < |order| && order[i] == id;
        assert cands[i].machineId == acts[id].machineId;
      }
    } else {
      ChosenExplained(acts, lic, req, k, order, m.value);
    }
  }

  lemma ChosenExplained(acts: Acts, lic: Id, req: Request, k: nat, order: seq<Id>, m: nat)
    requires Listing(acts, lic, order) && forall id :: id in order ==> id in acts
    requires Match(req.signals, req.machineId, Candidates(acts, order), k) == Some(m)
    ensures m < |order| && Chosen(acts, lic, order[m], req, k) && !NewMachine(acts, lic, req, k)
  {
    var cands := Candidates(acts, order);
    MatchIsMaximal(req.signals, req.machineId, cands, k);
    assert order[m] in order && order[m] in ActiveRows(acts, lic);
    SharesIff(acts, lic, order[m], req, k, cands[m]);
    if cands[m].machineId != req.machineId {
      forall j | IsActive(acts, lic, j)
        ensures acts[j].machineId != req.machineId
        ensures Rematches(acts, lic, j, req, k) ==>
             var mine := |(set x | x in req.signals) * (set x | x in acts[order[m]].signals)|;
             var theirs := |(set x | x in req.signals) * (set x | x in acts[j].signals)|;
             theirs < mine || (theirs == mine && acts[j].updatedAt <= acts[order[m]].updatedAt)
      {
        assert j in ActiveRows(acts, lic) && j in order;
        var i :| 0 <= i < |order| && order[i] == j;
        assert cands[i].machineId == acts[j].machineId && cands[i].updatedAt == acts[j].updatedAt;
        SharesIff(acts, lic, j, req, k, cands[i]);
        assert Shares(req.signals, cands[i], k) ==> !Better(req.signals, cands[m], cands[i]);
      }
    }
  }

  /** What an activation that runs undisturbed answers and writes, without its own functions. */
  ghost predicate Explained(acts: Acts, lic: Id, license: License, k: nat, req: Request, now: int, newId: Id,
                            token: Option<string>, acts': Acts, outcome: Outcome) {
    match outcome
    case LicenseNotActive => !LiveAt(license, now) && acts' == acts
    case Replayed(id) =>
      LiveAt(license, now) && acts' == acts && id in acts && acts[id].nonce == req.nonce && acts[id].licenseId == lic && acts[id].machineId == req.machineId
    case NonceReplayed =>
      LiveAt(license, now) && acts' == acts && exists id :: id in acts && acts[id].nonce == req.nonce && (acts[id].licenseId != lic || acts[id].machineId != req.machineId)
    case SeatLimit =>
      LiveAt(license, now) && acts' == acts && UnusedNonce(acts, req.nonce) && NewMachine(acts, lic, req, k) && license.maxActivations <= |ActiveRows(acts, lic)|
    case SignerUnavailable =>
      && LiveAt(license, now) && acts' == acts && UnusedNonce(acts, req.nonce) && token.None?
      && (NewMachine(acts, lic, req, k) ==> |ActiveRows(acts, lic)| < license.maxActivations)
    case Reused(id) =>
      && LiveAt(license, now) && UnusedNonce(acts, req.nonce) && token.Some? && Chosen(acts, lic, id, req, k)
      && acts' == acts[id := Activation(lic, req.machineId, req.signals, k, Live, req.nonce, token.value, now, acts[id].lastAnchor)]
    case SeatCreated(id) =>
      && LiveAt(license, now) && UnusedNonce(acts, req.nonce) && token.Some? && id == newId
      && NewMachine(acts, lic, req, k) && |ActiveRows(acts, lic)| < license.maxActivations
      && acts' == acts[id := Activation(lic, req.machineId, req.signals, k, Live, req.nonce, token.value, now, None)]
    case _ => false
  }

  ghost predicate UnusedNonce(acts: Acts, nonce: string) { forall id :: id in acts ==> acts[id].nonce != nonce }

  lemma PriorIff(acts: Acts, nonce: string)
    ensures PriorNonce(acts, nonce).None? <==> UnusedNonce(acts, nonce)
    ensures PriorNonce(acts, nonce).Some? ==> PriorNonce(acts, nonce).value in acts && acts[PriorNonce(acts, nonce).value].nonce == nonce
  {
  }

  lemma PlainExplained(lic: Id, license: License, k: nat, acts: Acts, req: Request, order: seq<Id>, now: int, newId: Id, token: Option<string>)
    requires Listing(acts, lic, order) && newId !in acts && forall id :: id in order ==> id in acts
    ensures var (acts', outcome) := Plain(lic, license, k, acts, req, order, now, newId, token);
            Explained(acts, lic, license, k, req, now, newId, token, acts', outcome)
  {
    hide Match, Candidates, NewMachine, Chosen, ActiveRows, PriorNonce;
    PriorIff(acts, req.nonce);
    MatchExplained(acts, lic, req, k, order);
    ListingSize(acts, lic, order);
    var m := Match(req.signals, req.machineId, Candidates(acts, order), k);
    if m.Some? { ChosenIsActive(acts, lic, order[m.value], req, k); }
  }

  lemma ChosenIsActive(acts: Acts, lic: Id, id: Id, req: Request, k: nat)
    requires Chosen(acts, lic, id, req, k)
    ensures id in acts && acts[id].licenseId == lic && acts[id].status == Live
  {
  }

  // ---- the service -------------------------------------------------------------------------------

  /** How a caller names a license: by id or by its stored token. */
  datatype LicenseRef = ById(id: Id) | ByToken(token: string)

  function ResolveLicense(licenses: map<Id, License>, tokens: map<string, Id>, ref: LicenseRef): Option<Id> {
    match ref
    case ById(id) => if id in licenses then Some(id) else None
    case ByToken(token) => if token in tokens && tokens[token] in licenses then Some(tokens[token]) else None
  }

  /** A request is refused before any license is locked: too few signals first, then no signer, then an
      unknown license. */
  function EarlyRefusal(licenses: map<Id, License>, tokens: map<string, Id>, ref: LicenseRef, req: Request, k: nat, signer: bool): Option<Outcome> {
    if |req.signals| < k then Some(InsufficientSignals)
    else if !signer then Some(SignerUnavailable)
    else if ResolveLicense(licenses, tokens, ref).None? then Some(LicenseNotFound)
    else None
  }

  /** The seat service over the activation table. */
  class SeatService {
    const k: nat
    var licenses: map<Id, License>
    var tokens: map<string, Id>
    var acts: Acts

    constructor (k: nat, licenses: map<Id, License>, tokens: map<string, Id>, acts: Acts)
      ensures this.k == k && this.licenses == licenses && this.tokens == tokens && this.acts == acts
    {
      this.k, this.licenses, this.tokens, this.acts := k, licenses, tokens, acts;
    }

    /** Deactivation flips the status of an active row and is a no-op on any other; true: known id. */
    method Deactivate(id: Id, now: int) returns (known: bool)
      modifies this`acts
      ensures known == (id in old(acts)) && acts == DeactivateRow(old(acts), id, now)
      ensures acts == if id in old(acts) && old(acts)[id].status == Live
                      then old(acts)[id := old(acts)[id].(status := Deactivated, updatedAt := now)] else old(acts)
      ensures forall lic :: |ActiveRows(acts, lic)| <= |ActiveRows(old(acts), lic)|
    {
      forall lic ensures |ActiveRows(DeactivateRow(acts, id, now), lic)| <= |ActiveRows(acts, lic)| {
        DeactivateShrinks(acts, id, now, lic);
        SubsetSize(ActiveRows(DeactivateRow(acts, id, now), lic), ActiveRows(acts, lic));
      }
      known := id in acts;
      if known && acts[id].status == Live {
        acts := acts[id := acts[id].(status := Deactivated, updatedAt := now)];
      }
    }

    /** One whole activation: the early refusals, then lock, nonce, match, cap, sign, write. From the lock on
        it does what the interleaved machine does when nothing comes in between. `order` lists the active
        rows of the license as its query returns them; `token` is what the signer answers. */
    method Activate(ref: LicenseRef, req: Request, order: seq<Id>, now: int, newId: Id, signer: bool, token: Option<string>)
      returns (outcome: Outcome)
      requires NoncesUnique(acts) && newId !in acts
      requires ResolveLicense(licenses, tokens, ref).Some? ==>
        var lic := ResolveLicense(licenses, tokens, ref).value; MachinesUnique(acts, lic) && Listing(acts, lic, order)
      modifies this`acts
      ensures match EarlyRefusal(licenses, tokens, ref, req, k, signer)
              case Some(refusal) => outcome == refusal && acts == old(acts)
              case None =>
                var lic := ResolveLicense(licenses, tokens, ref).value;
                Explained(old(acts), lic, licenses[lic], k, req, now, newId, token, acts, outcome) &&
                Ends(Alone(lic, licenses[lic], k, old(acts), req, order, now, newId, token), acts, outcome) &&
                NoncesUnique(acts) && MachinesUnique(acts, lic)
    {
      if |req.signals| < k { return InsufficientSignals; }
      if !signer { return SignerUnavailable; }
      var resolved := ResolveLicense(licenses, tokens, ref);
      if resolved.None? { return LicenseNotFound; }
      outcome := ActivateLocked(resolved.value, req, order, now, newId, token);
    }

    method ActivateLocked(lic: Id, req: Request, order: seq<Id>, now: int, newId: Id, token: Option<string>)
      returns (outcome: Outcome)
      requires lic in licenses
      requires NoncesUnique(acts) && MachinesUnique(acts, lic) && Listing(acts, lic, order) && newId !in acts
      modifies this`acts
      ensures Explained(old(acts), lic, licenses[lic], k, req, now, newId, token, acts, outcome)
      ensures Ends(Alone(lic, licenses[lic], k, old(acts), req, order, now, newId, token), acts, outcome)
      ensures NoncesUnique(acts) && MachinesUnique(acts, lic)
    {
      hide Explained, Ends, Alone, MachinesUnique;
      var license := licenses[lic];
      forall id | id in order ensures id in acts { assert id in ActiveRows(acts, lic); }
      PlainExplained(lic, license, k, acts, req, order, now, newId, token);
      AloneIsPlain(lic, license, k, acts, req, order, now, newId, token);
      AloneKeeps(lic, license, k, acts, req, order, now, newId, token);
      if !Accepts(license, now) { return LicenseNotActive; }
      if exists id :: id in acts && acts[id].nonce == req.nonce {
        var id :| id in acts && acts[id].nonce == req.nonce;
        if acts[id].licenseId == lic && acts[id].machineId == req.machineId { return Replayed(id); }
        return NonceReplayed;
      }
      var cands := Candidates(acts, order);
      var match_ := ChooseMatch(req.signals, req.machineId, cands, k);
      if match_.None? && |cands| >= license.maxActivations { return SeatLimit; }
      if token.None? { return SignerUnavailable; }
      if match_.Some? {
        var id := match_.value.id;
        acts := acts[id := Refreshed(acts[id], req, k, token.value, now)];
        return Reused(id);
      }
      acts := acts[newId := NewRow(lic, req, k, token.value, now)];
      return SeatCreated(newId);
    }
  }
}
