/** Seats under concurrency: activation transactions as the database interleaves them.

    Each query of `activate` is a step of its own under read-committed isolation. The row lock on the
    license is the only order between transactions; deactivations take no lock and may commit
    between any two steps, and so may traffic on other licenses. */
module Seats {
  import opened Tables
  import opened Fingerprints

  datatype SeatStatus = Live | Deactivated

  datatype Activation = Activation(
    licenseId: Id,
    machineId: string,
    signals: seq<string>,
    fpMin: nat,
    status: SeatStatus,
    nonce: string,
    token: string,
    updatedAt: int,
    lastAnchor: Option<int>)

  type Acts = map<Id, Activation>

  datatype Request = Request(machineId: string, signals: seq<string>, nonce: string)

  // ---- the activation table --------------------------------------------------------------------

  predicate IsActive(acts: Acts, lic: Id, id: Id) {
    id in acts && acts[id].licenseId == lic && acts[id].status == Live
  }

  function ActiveRows(acts: Acts, lic: Id): set<Id> { set id | id in acts && IsActive(acts, lic, id) }

  /** The order in which the candidate query happens to return the active rows. */
  ghost predicate Listing(acts: Acts, lic: Id, order: seq<Id>) {
    && (forall id :: id in order <==> id in ActiveRows(acts, lic))
    && forall i, j :: 0 <= i < j < |order| ==> order[i] != order[j]
  }

  function Candidates(acts: Acts, order: seq<Id>): (r: seq<Candidate>)
    requires forall id :: id in order ==> id in acts
    ensures |r| == |order|
    ensures forall i :: 0 <= i < |order| ==>
            r[i] == Candidate(order[i], acts[order[i]].machineId, acts[order[i]].signals, acts[order[i]].updatedAt)
  {
    if order == [] then []
    else
      var row := acts[order[0]];
      [Candidate(order[0], row.machineId, row.signals, row.updatedAt)] + Candidates(acts, order[1..])
  }

  function Refreshed(row: Activation, req: Request, k: nat, token: string, now: int): Activation {
    row.(machineId := req.machineId, signals := req.signals, fpMin := k, nonce := req.nonce, token := token, updatedAt := now)
  }

  function NewRow(lic: Id, req: Request, k: nat, token: string, now: int): Activation {
    Activation(lic, req.machineId, req.signals, k, Live, req.nonce, token, now, None)
  }

  function DeactivateRow(acts: Acts, id: Id, now: int): Acts {
    if id in acts && acts[id].status == Live then acts[id := acts[id].(status := Deactivated, updatedAt := now)] else acts
  }

  predicate NonceTaken(acts: Acts, id: Id, nonce: string) {
    exists j :: j in acts && j != id && acts[j].nonce == nonce
  }

  predicate MachineTaken(acts: Acts, id: Id, row: Activation) {
    row.status == Live &&
    exists j :: j in acts && j != id && IsActive(acts, row.licenseId, j) && acts[j].machineId == row.machineId
  }

  /** Either of the two unique constraints of the table. */
  predicate Conflict(acts: Acts, id: Id, row: Activation) {
    NonceTaken(acts, id, row.nonce) || MachineTaken(acts, id, row)
  }

  // ---- processes -------------------------------------------------------------------------------

  type Pid = nat

  datatype Outcome =
    | SeatCreated(id: Id) | Reused(id: Id) | Replayed(id: Id)
    | InsufficientSignals | LicenseNotFound | LicenseNotActive | NonceReplayed | SeatLimit | SignerUnavailable

  datatype Pc = Waiting | Locked | NonceClear | Signing(matched: Option<Id>) | Finished(outcome: Outcome)

  datatype Proc = Proc(req: Request, pc: Pc)

  datatype State = State(lic: Id, license: License, k: nat, acts: Acts, lock: Option<Pid>, procs: map<Pid, Proc>)

  datatype Move =
    | Acquire(p: Pid, now: int)
    | CheckNonce(p: Pid)
    | Decide(p: Pid, order: seq<Id>)
    | SignFault(p: Pid)
    | Commit(p: Pid, newId: Id, token: string, now: int)
    | Deactivate(id: Id, now: int)
    | Elsewhere(acts': Acts)
    | EditLicense(license': License)

  predicate Accepts(license: License, now: int) {
    license.status == LicActive && (license.expiresAt.None? || now < license.expiresAt.value)
  }

  predicate At(s: State, p: Pid, pc: Pc) { p in s.procs && s.procs[p].pc == pc }

  /** Rows of other licenses may change in any way that keeps nonces unique. */
  ghost predicate OnlyElsewhere(s: State, acts': Acts) {
    && (forall id :: id in s.acts && s.acts[id].licenseId == s.lic ==> id in acts' && acts'[id] == s.acts[id])
    && (forall id :: id in acts' && acts'[id].licenseId == s.lic ==> id in s.acts && acts'[id] == s.acts[id])
    && NoncesUnique(acts')
  }

  ghost predicate Enabled(s: State, m: Move) {
    match m
    case Acquire(p, _) => At(s, p, Waiting) && s.lock.None?
    case CheckNonce(p) => At(s, p, Locked)
    case Decide(p, order) => At(s, p, NonceClear) && Listing(s.acts, s.lic, order)
    case SignFault(p) => p in s.procs && s.procs[p].pc.Signing?
    case Commit(p, newId, _, _) => p in s.procs && s.procs[p].pc.Signing? && newId !in s.acts
    case Deactivate(_, _) => true
    case Elsewhere(acts') => OnlyElsewhere(s, acts')
    case EditLicense(_) => s.lock.None?
  }

  function Go(s: State, p: Pid, pc: Pc): State
    requires p in s.procs
  {
    s.(procs := s.procs[p := s.procs[p].(pc := pc)])
  }

  /** The transaction ends, committed or not, and gives the lock back. */
  function End(s: State, p: Pid, outcome: Outcome): State
    requires p in s.procs
  {
    Go(s, p, Finished(outcome)).(lock := None)
  }

  ghost function PriorNonce(acts: Acts, nonce: string): Option<Id> {
    if exists id :: id in acts && acts[id].nonce == nonce then
      var id :| id in acts && acts[id].nonce == nonce; Some(id)
    else None
  }

  ghost function Next(s: State, m: Move): State
    requires Enabled(s, m)
  {
    match m
    case Acquire(p, now) =>
      if Accepts(s.license, now) then Go(s, p, Locked).(lock := Some(p)) else Go(s, p, Finished(LicenseNotActive))
    case CheckNonce(p) =>
      var req := s.procs[p].req;
      var prior := PriorNonce(s.acts, req.nonce);
      if prior.None? then Go(s, p, NonceClear)
      else
        var row := s.acts[prior.value];
        if row.licenseId == s.lic && row.machineId == req.machineId then End(s, p, Replayed(prior.value))
        else End(s, p, NonceReplayed)
    case Decide(p, order) =>
      var req := s.procs[p].req;
      var m := Match(req.signals, req.machineId, Candidates(s.acts, order), s.k);
      if m.None? && |order| >= s.license.maxActivations then End(s, p, SeatLimit)
      else Go(s, p, Signing(if m.Some? then Some(order[m.value]) else None))
    case SignFault(p) => End(s, p, SignerUnavailable)
    case Commit(p, newId, token, now) =>
      var req := s.procs[p].req;
      var matched := s.procs[p].pc.matched;
      if matched.Some? && matched.value in s.acts then
        var row := Refreshed(s.acts[matched.value], req, s.k, token, now);
        if Conflict(s.acts, matched.value, row) then End(s, p, NonceReplayed)
        else End(s.(acts := s.acts[matched.value := row]), p, Reused(matched.value))
      else
        var row := NewRow(s.lic, req, s.k, token, now);
        if Conflict(s.acts, newId, row) then End(s, p, NonceReplayed)
        else End(s.(acts := s.acts[newId := row]), p, SeatCreated(newId))
    case Deactivate(id, now) => s.(acts := DeactivateRow(s.acts, id, now))
    case Elsewhere(acts') => s.(acts := acts')
    case EditLicense(license') => s.(license := license')
  }

  ghost predicate IsRun(trace: seq<State>, moves: seq<Move>) {
    && |trace| == |moves| + 1
    && forall i :: 0 <= i < |moves| ==> Enabled(trace[i], moves[i]) && trace[i + 1] == Next(trace[i], moves[i])
  }

  // ---- invariant -------------------------------------------------------------------------------

  ghost predicate NoncesUnique(acts: Acts) {
    forall i, j :: i in acts && j in acts && acts[i].nonce == acts[j].nonce ==> i == j
  }

  /** Active rows of the license have pairwise distinct machine ids. */
  ghost predicate MachinesUnique(acts: Acts, lic: Id) {
    forall i, j :: IsActive(acts, lic, i) && IsActive(acts, lic, j) && acts[i].machineId == acts[j].machineId ==> i == j
  }

  /** No active row of the license other than `self` carries this machine id. */
  ghost predicate NobodyElse(acts: Acts, lic: Id, machineId: string, self: Option<Id>) {
    forall j :: IsActive(acts, lic, j) && acts[j].machineId == machineId ==> self == Some(j)
  }

  ghost predicate Holds(s: State) {
    forall p :: p in s.procs ==> (s.lock == Some(p) <==> s.procs[p].pc in {Locked, NonceClear} || s.procs[p].pc.Signing?)
  }

  /** What the lock holder has established and nobody can take away. */
  ghost predicate Secured(s: State) {
    forall p :: p in s.procs && s.procs[p].pc.Signing? ==>
      && NobodyElse(s.acts, s.lic, s.procs[p].req.machineId, s.procs[p].pc.matched)
      && (s.procs[p].pc.matched.None? ==> |ActiveRows(s.acts, s.lic)| < s.license.maxActivations)
      && (s.procs[p].pc.matched.Some? ==> s.procs[p].pc.matched.value in s.acts && s.acts[s.procs[p].pc.matched.value].licenseId == s.lic)
  }

  ghost predicate Inv(s: State) {
    NoncesUnique(s.acts) && MachinesUnique(s.acts, s.lic) && Holds(s) && Secured(s)
  }

  // ---- steps that only remove ------------------------------------------------------------------

  lemma SubsetSize(a: set<Id>, b: set<Id>)
    requires a <= b
    ensures |a| <= |b|
  {
    assert b == a + (b - a);
  }

  lemma DeactivateShrinks(acts: Acts, id: Id, now: int, lic: Id)
    ensures var acts' := DeactivateRow(acts, id, now);
            && ActiveRows(acts', lic) <= ActiveRows(acts, lic)
            && (forall j :: IsActive(acts', lic, j) ==> IsActive(acts, lic, j) && acts'[j] == acts[j])
            && (NoncesUnique(acts) ==> NoncesUnique(acts'))
  {
  }

  lemma DeactivateKeeps(s: State, m: Move)
    requires Inv(s) && m.Deactivate?
    ensures Inv(Next(s, m))
  {
    DeactivateShrinks(s.acts, m.id, m.now, s.lic);
    SubsetSize(ActiveRows(Next(s, m).acts, s.lic), ActiveRows(s.acts, s.lic));
  }

  lemma ElsewhereKeeps(s: State, m: Move)
    requires Inv(s) && m.Elsewhere? && Enabled(s, m)
    ensures Inv(Next(s, m)) && ActiveRows(Next(s, m).acts, s.lic) == ActiveRows(s.acts, s.lic)
  {
    assert forall j :: IsActive(m.acts', s.lic, j) <==> IsActive(s.acts, s.lic, j);
    assert ActiveRows(m.acts', s.lic) == ActiveRows(s.acts, s.lic);
  }

  // ---- steps of a transaction ------------------------------------------------------------------

  lemma ListingSize(acts: Acts, lic: Id, order: seq<Id>)
    requires Listing(acts, lic, order)
    ensures |order| == |ActiveRows(acts, lic)|
  {
    DistinctSize(order);
    assert IdSet(order) == ActiveRows(acts, lic);
  }

  function IdSet(order: seq<Id>): set<Id> { set id | id in order }

  lemma {:induction false} DistinctSize(order: seq<Id>)
    requires forall i, j :: 0 <= i < j < |order| ==> order[i] != order[j]
    ensures |IdSet(order)| == |order|
  {
    if order != [] {
      DistinctSize(order[1..]);
      assert order[0] !in IdSet(order[1..]);
      assert IdSet(order) == IdSet(order[1..]) + {order[0]};
    }
  }

  /** The match of a decision: with none, the machine has no active row; with one, no other row has it. */
  lemma DecisionSecures(s: State, p: Pid, order: seq<Id>)
    requires Inv(s) && p in s.procs && Listing(s.acts, s.lic, order)
    ensures var req := s.procs[p].req;
            var m := Match(req.signals, req.machineId, Candidates(s.acts, order), s.k);
            && NobodyElse(s.acts, s.lic, req.machineId, if m.Some? then Some(order[m.value]) else None)
            && (m.Some? ==> order[m.value] in s.acts && s.acts[order[m.value]].licenseId == s.lic)
  {
    var req := s.procs[p].req;
    var cands := Candidates(s.acts, order);
    var m := Match(req.signals, req.machineId, cands, s.k);
    MatchIsMaximal(req.signals, req.machineId, cands, s.k);
    if m.Some? { assert order[m.value] in order; }
    forall j | IsActive(s.acts, s.lic, j) && s.acts[j].machineId == req.machineId
      ensures m.Some? && order[m.value] == j
    {
      assert j in ActiveRows(s.acts, s.lic);
      assert j in order;
      var i :| 0 <= i < |order| && order[i] == j;
      assert cands[i].machineId == req.machineId;
    }
  }

  lemma DecideKeeps(s: State, m: Move)
    requires Inv(s) && m.Decide? && Enabled(s, m)
    ensures Inv(Next(s, m))
  {
    DecisionSecures(s, m.p, m.order);
    ListingSize(s.acts, s.lic, m.order);
  }

  /** The row a commit writes collides with nothing but a nonce. */
  lemma RefreshKeepsRows(acts: Acts, lic: Id, id: Id, req: Request, k: nat, token: string, now: int)
    requires NoncesUnique(acts) && MachinesUnique(acts, lic) && id in acts && acts[id].licenseId == lic
    requires NobodyElse(acts, lic, req.machineId, Some(id))
    ensures var row := Refreshed(acts[id], req, k, token, now);
            && !MachineTaken(acts, id, row)
            && ActiveRows(acts[id := row], lic) == ActiveRows(acts, lic)
            && (!Conflict(acts, id, row) ==> NoncesUnique(acts[id := row]) && MachinesUnique(acts[id := row], lic))
  {
    var row := Refreshed(acts[id], req, k, token, now);
    var acts' := acts[id := row];
    assert forall j :: IsActive(acts', lic, j) <==> IsActive(acts, lic, j);
    if !Conflict(acts, id, row) { UpdateKeepsNonces(acts, id, row); }
  }

  lemma UpdateKeepsNonces(acts: Acts, id: Id, row: Activation)
    requires NoncesUnique(acts) && !NonceTaken(acts, id, row.nonce)
    ensures NoncesUnique(acts[id := row])
  {
  }

  lemma InsertKeepsRows(acts: Acts, lic: Id, id: Id, req: Request, k: nat, token: string, now: int)
    requires NoncesUnique(acts) && MachinesUnique(acts, lic) && id !in acts
    requires NobodyElse(acts, lic, req.machineId, None)
    ensures var row := NewRow(lic, req, k, token, now);
            && !MachineTaken(acts, id, row)
            && ActiveRows(acts[id := row], lic) == ActiveRows(acts, lic) + {id}
            && |ActiveRows(acts[id := row], lic)| == |ActiveRows(acts, lic)| + 1
            && (!Conflict(acts, id, row) ==> NoncesUnique(acts[id := row]) && MachinesUnique(acts[id := row], lic))
  {
    var row := NewRow(lic, req, k, token, now);
    NewRowCounts(acts, lic, id, row);
    if !Conflict(acts, id, row) { UpdateKeepsNonces(acts, id, row); }
  }

  lemma NewRowCounts(acts: Acts, lic: Id, id: Id, row: Activation)
    requires id !in acts && row.licenseId == lic && row.status == Live
    ensures ActiveRows(acts[id := row], lic) == ActiveRows(acts, lic) + {id}
    ensures |ActiveRows(acts[id := row], lic)| == |ActiveRows(acts, lic)| + 1
  {
  }

  /** What a commit makes of the table, and that only a nonce can turn it away. */
  lemma CommitOutcome(s: State, m: Move)
    requires Inv(s) && m.Commit? && Enabled(s, m)
    ensures var s' := Next(s, m); var req, matched := s.procs[m.p].req, s.procs[m.p].pc.matched;
            var id := if matched.Some? then matched.value else m.newId;
            && NoncesUnique(s'.acts) && MachinesUnique(s'.acts, s.lic)
            && s'.lic == s.lic && s'.license == s.license && s'.lock == None
            && s'.procs == s.procs[m.p := s.procs[m.p].(pc := s'.procs[m.p].pc)]
            && (if NonceTaken(s.acts, id, req.nonce) then s'.procs[m.p].pc == Finished(NonceReplayed) && s'.acts == s.acts
                else if matched.Some? then
                  && s'.procs[m.p].pc == Finished(Reused(id))
                  && s'.acts == s.acts[id := Refreshed(s.acts[id], req, s.k, m.token, m.now)]
                  && ActiveRows(s'.acts, s.lic) == ActiveRows(s.acts, s.lic)
                else
                  && s'.procs[m.p].pc == Finished(SeatCreated(id))
                  && s'.acts == s.acts[id := NewRow(s.lic, req, s.k, m.token, m.now)]
                  && ActiveRows(s'.acts, s.lic) == ActiveRows(s.acts, s.lic) + {id}
                  && |ActiveRows(s'.acts, s.lic)| == |ActiveRows(s.acts, s.lic)| + 1)
  {
    var req := s.procs[m.p].req;
    var matched := s.procs[m.p].pc.matched;
    if matched.Some? {
      RefreshKeepsRows(s.acts, s.lic, matched.value, req, s.k, m.token, m.now);
    } else {
      InsertKeepsRows(s.acts, s.lic, m.newId, req, s.k, m.token, m.now);
    }
  }

  lemma CommitKeeps(s: State, m: Move)
    requires Inv(s) && m.Commit? && Enabled(s, m)
    ensures Inv(Next(s, m))
  {
    CommitOutcome(s, m);
    assert s.lock == Some(m.p);
    assert forall q :: q in s.procs && q != m.p ==> !s.procs[q].pc.Signing?;
  }

  lemma StepKeeps(s: State, m: Move)
    requires Inv(s) && Enabled(s, m)
    ensures Inv(Next(s, m)) && Next(s, m).lic == s.lic
  {
    hide Refreshed, NewRow, DeactivateRow, PriorNonce, Candidates;
    match m
    case Decide(_, _) => DecideKeeps(s, m);
    case Commit(_, _, _, _) => CommitKeeps(s, m);
    case Deactivate(_, _) => DeactivateKeeps(s, m);
    case Elsewhere(_) => ElsewhereKeeps(s, m);
    case _ =>
  }

  /** In every interleaving, at every point: nonces and active machine ids are unique and whoever
      holds the lock has a seat secured. */
  lemma {:induction false} RunKeeps(trace: seq<State>, moves: seq<Move>, n: nat)
    requires IsRun(trace, moves) && Inv(trace[0]) && n <= |moves|
    ensures Inv(trace[n])
  {
    if n != 0 {
      RunKeeps(trace, moves, n - 1);
      StepKeeps(trace[n - 1], moves[n - 1]);
    }
  }

  // ---- the seat cap ----------------------------------------------------------------------------

  predicate CreatedNow(s: State, s': State, p: Pid) {
    p in s.procs && p in s'.procs && !s.procs[p].pc.Finished? && s'.procs[p].pc.Finished? && s'.procs[p].pc.outcome.SeatCreated?
  }

  lemma OthersKeepRows(s: State, m: Move)
    requires Inv(s) && Enabled(s, m) && !m.Commit?
    ensures |ActiveRows(Next(s, m).acts, s.lic)| <= |ActiveRows(s.acts, s.lic)|
  {
    if m.Deactivate? {
      DeactivateShrinks(s.acts, m.id, m.now, s.lic);
      SubsetSize(ActiveRows(Next(s, m).acts, s.lic), ActiveRows(s.acts, s.lic));
    } else if m.Elsewhere? {
      ElsewhereKeeps(s, m);
    } else {
      assert Next(s, m).acts == s.acts;
    }
  }

  /** The only step that raises the number of active seats is a creation, by one, and it ends within
      the license's current limit. */
  lemma SeatCap(s: State, m: Move)
    requires Inv(s) && Enabled(s, m)
    ensures var s' := Next(s, m);
            var before, after := |ActiveRows(s.acts, s.lic)|, |ActiveRows(s'.acts, s.lic)|;
            if m.Commit? && CreatedNow(s, s', m.p) then after == before + 1 && after <= s'.license.maxActivations
            else after <= before
  {
    if m.Commit? {
      CommitOutcome(s, m);
    } else {
      OthersKeepRows(s, m);
    }
  }

  /** In every interleaving no creation takes the active rows above the limit. */
  lemma NoOverbooking(trace: seq<State>, moves: seq<Move>, i: nat, p: Pid)
    requires IsRun(trace, moves) && Inv(trace[0]) && i < |moves| && CreatedNow(trace[i], trace[i + 1], p)
    ensures |ActiveRows(trace[i + 1].acts, trace[i].lic)| <= trace[i + 1].license.maxActivations
  {
    RunKeeps(trace, moves, i);
    SeatCap(trace[i], moves[i]);
    assert moves[i].Commit? && moves[i].p == p;
  }

  /** A commit is turned away by the database only over a nonce: the machine index never fires. */
  lemma OnlyNoncesConflict(s: State, m: Move)
    requires Inv(s) && m.Commit? && Enabled(s, m) && At(Next(s, m), m.p, Finished(NonceReplayed))
    ensures NonceTaken(s.acts, if s.procs[m.p].pc.matched.Some? then s.procs[m.p].pc.matched.value else m.newId,
                       s.procs[m.p].req.nonce)
  {
    CommitOutcome(s, m);
  }

  /** A replayed nonce changes no row, whatever the state of the row it names. */
  lemma ReplayChangesNothing(s: State, m: Move)
    requires m.CheckNonce? && Enabled(s, m)
    ensures Next(s, m).acts == s.acts
    ensures NoncesUnique(s.acts) && Next(s, m).procs[m.p].pc == NonceClear ==>
            forall id :: id in s.acts ==> s.acts[id].nonce != s.procs[m.p].req.nonce
    ensures forall id :: At(Next(s, m), m.p, Finished(Replayed(id))) ==>
            id in s.acts && s.acts[id].nonce == s.procs[m.p].req.nonce &&
            s.acts[id].licenseId == s.lic && s.acts[id].machineId == s.procs[m.p].req.machineId
  {
  }

  // ---- answers for deactivated rows --------------------------------------------------------------

  /** Nothing but its deactivation takes a seat from an active row, and nothing gives it back. */
  lemma {:induction false} LiveUntilReleased(trace: seq<State>, moves: seq<Move>, i: nat, j: nat, id: Id)
    requires IsRun(trace, moves) && Inv(trace[0]) && i <= j <= |moves|
    requires IsActive(trace[i].acts, trace[i].lic, id)
    ensures trace[j].lic == trace[i].lic && id in trace[j].acts && trace[j].acts[id].licenseId == trace[i].lic
    ensures IsActive(trace[j].acts, trace[j].lic, id) <==> Unreleased(moves, i, j, id)
    decreases j
  {
    if i < j {
      LiveUntilReleased(trace, moves, i, j - 1, id);
      RunKeeps(trace, moves, j - 1);
      RowAfter(trace[j - 1], moves[j - 1], id);
      assert Unreleased(moves, i, j, id) <==> Unreleased(moves, i, j - 1, id) && !Releases(moves[j - 1], id);
    }
  }

  predicate Releases(m: Move, id: Id) { m.Deactivate? && m.id == id }

  predicate Unreleased(moves: seq<Move>, i: nat, j: nat, id: Id)
    requires i <= j <= |moves|
  {
    forall k :: i <= k < j ==> !Releases(moves[k], id)
  }

  lemma RowAfter(s: State, m: Move, id: Id)
    requires Inv(s) && Enabled(s, m) && id in s.acts && s.acts[id].licenseId == s.lic
    ensures var s' := Next(s, m);
            && s'.lic == s.lic && id in s'.acts && s'.acts[id].licenseId == s.lic
            && (IsActive(s'.acts, s'.lic, id) <==> IsActive(s.acts, s.lic, id) && !Releases(m, id))
  {
    if m.Commit? { CommitOutcome(s, m); }
  }

  /** A replayed answer calls a row active. It is, exactly when no deactivation of it committed since any
      point at which it was. */
  lemma ReplayLiveIff(trace: seq<State>, moves: seq<Move>, i: nat, j: nat, id: Id)
    requires IsRun(trace, moves) && Inv(trace[0]) && i <= j < |moves|
    requires moves[j].CheckNonce? && At(trace[j + 1], moves[j].p, Finished(Replayed(id)))
    requires IsActive(trace[i].acts, trace[i].lic, id)
    ensures IsActive(trace[j + 1].acts, trace[j + 1].lic, id) <==> Unreleased(moves, i, j, id)
  {
    LiveUntilReleased(trace, moves, i, j, id);
  }

  /** A refresh is decided on an active row and writes its credential to that row whatever has become of it:
      the seat it names is live exactly when no deactivation of it committed between decision and commit. */
  lemma ReuseLiveIff(trace: seq<State>, moves: seq<Move>, d: nat, c: nat, id: Id)
    requires IsRun(trace, moves) && Inv(trace[0]) && d < c < |moves|
    requires moves[d].Decide? && moves[c].Commit? && moves[d].p == moves[c].p
    requires At(trace[d + 1], moves[d].p, Signing(Some(id)))
    requires At(trace[c + 1], moves[c].p, Finished(Reused(id)))
    ensures IsActive(trace[d].acts, trace[d].lic, id)
    ensures IsActive(trace[c + 1].acts, trace[c + 1].lic, id) <==> Unreleased(moves, d, c, id)
  {
    var order := moves[d].order;
    RunKeeps(trace, moves, d);
    assert id in order;
    assert id in ActiveRows(trace[d].acts, trace[d].lic);
    LiveUntilReleased(trace, moves, d, c, id);
    RunKeeps(trace, moves, c);
    RowAfter(trace[c], moves[c], id);
  }

  /** And it happens: a deactivation between a machine's first activation and its retry. */
  lemma ReplayOfReleased(s: State, p: Pid, id: Id, now: int)
    requires Inv(s) && At(s, p, Locked) && IsActive(s.acts, s.lic, id)
    requires s.acts[id].nonce == s.procs[p].req.nonce && s.acts[id].machineId == s.procs[p].req.machineId
    ensures var s1 := Next(s, Deactivate(id, now));
            var s2 := Next(s1, CheckNonce(p));
            At(s2, p, Finished(Replayed(id))) && !IsActive(s2.acts, s2.lic, id)
  {
    DeactivateKeeps(s, Deactivate(id, now));
    var s1 := Next(s, Deactivate(id, now));
    assert s1.acts[id].nonce == s.procs[p].req.nonce;
  }

  // ---- one transaction on its own --------------------------------------------------------------

  ghost function StepUnlessFinished(s: State, m: Move): State
    requires 0 in s.procs
  {
    if s.procs[0].pc.Finished? || !Enabled(s, m) then s else Next(s, m)
  }

  /** The schedule in which nothing comes between the steps of the only transaction. */
  ghost function Alone(lic: Id, license: License, k: nat, acts: Acts, req: Request,
      order: seq<Id>, now: int, newId: Id, token: Option<string>): State {
    var s0 := State(lic, license, k, acts, None, map[0 := Proc(req, Waiting)]);
    var s1 := StepUnlessFinished(s0, Acquire(0, now));
    var s2 := StepUnlessFinished(s1, CheckNonce(0));
    var s3 := StepUnlessFinished(s2, Decide(0, order));
    StepUnlessFinished(s3, if token.None? then SignFault(0) else Commit(0, newId, token.value, now))
  }

  /** What a transaction does once its nonce is known to be new. */
  function Settle(lic: Id, license: License, k: nat, acts: Acts, req: Request,
      order: seq<Id>, now: int, newId: Id, token: Option<string>): (Acts, Outcome)
    requires forall id :: id in order ==> id in acts
  {
    var m := Match(req.signals, req.machineId, Candidates(acts, order), k);
    if m.None? && |order| >= license.maxActivations then (acts, SeatLimit)
    else if token.None? then (acts, SignerUnavailable)
    else if m.Some? then (acts[order[m.value] := Refreshed(acts[order[m.value]], req, k, token.value, now)], Reused(order[m.value]))
    else (acts[newId := NewRow(lic, req, k, token.value, now)], SeatCreated(newId))
  }

  /** What one whole transaction computes. */
  ghost function Plain(lic: Id, license: License, k: nat, acts: Acts, req: Request,
      order: seq<Id>, now: int, newId: Id, token: Option<string>): (Acts, Outcome)
    requires forall id :: id in order ==> id in acts
  {
    var prior := PriorNonce(acts, req.nonce);
    if !Accepts(license, now) then (acts, LicenseNotActive)
    else if prior.Some? then
      (acts, if acts[prior.value].licenseId == lic && acts[prior.value].machineId == req.machineId then Replayed(prior.value) else NonceReplayed)
    else Settle(lic, license, k, acts, req, order, now, newId, token)
  }

  lemma StepUnlessFinishedKeeps(s: State, m: Move)
    requires Inv(s) && 0 in s.procs
    ensures Inv(StepUnlessFinished(s, m)) && StepUnlessFinished(s, m).lic == s.lic && 0 in StepUnlessFinished(s, m).procs
  {
    if !s.procs[0].pc.Finished? && Enabled(s, m) { StepKeeps(s, m); }
  }

  lemma StartKeeps(lic: Id, license: License, k: nat, acts: Acts, req: Request)
    requires NoncesUnique(acts) && MachinesUnique(acts, lic)
    ensures Inv(State(lic, license, k, acts, None, map[0 := Proc(req, Waiting)]))
  {
  }

  lemma AloneKeeps(lic: Id, license: License, k: nat, acts: Acts, req: Request, order: seq<Id>, now: int, newId: Id, token: Option<string>)
    requires NoncesUnique(acts) && MachinesUnique(acts, lic)
    ensures var s := Alone(lic, license, k, acts, req, order, now, newId, token); Inv(s) && s.lic == lic
  {
    hide Inv, Next, Enabled, StepUnlessFinished;
    StartKeeps(lic, license, k, acts, req);
    var s0 := State(lic, license, k, acts, None, map[0 := Proc(req, Waiting)]);
    var s1 := StepUnlessFinished(s0, Acquire(0, now));
    StepUnlessFinishedKeeps(s0, Acquire(0, now));
    var s2 := StepUnlessFinished(s1, CheckNonce(0));
    StepUnlessFinishedKeeps(s1, CheckNonce(0));
    var s3 := StepUnlessFinished(s2, Decide(0, order));
    StepUnlessFinishedKeeps(s2, Decide(0, order));
    StepUnlessFinishedKeeps(s3, if token.None? then SignFault(0) else Commit(0, newId, token.value, now));
  }

  /** Where a transaction stands, as far as its caller can see. */
  ghost predicate Ends(s: State, acts: Acts, outcome: Outcome) {
    s.lock == None && s.acts == acts && At(s, 0, Finished(outcome))
  }

  lemma SigningEnds(s: State, newId: Id, token: Option<string>, now: int)
    requires Inv(s) && 0 in s.procs && s.procs[0].pc.Signing? && newId !in s.acts
    requires PriorNonce(s.acts, s.procs[0].req.nonce).None?
    ensures var m := if token.None? then SignFault(0) else Commit(0, newId, token.value, now);
            var s' := StepUnlessFinished(s, m); var matched := s.procs[0].pc.matched; var req := s.procs[0].req;
            if token.None? then Ends(s', s.acts, SignerUnavailable)
            else if matched.Some? then
              Ends(s', s.acts[matched.value := Refreshed(s.acts[matched.value], req, s.k, token.value, now)], Reused(matched.value))
            else Ends(s', s.acts[newId := NewRow(s.lic, req, s.k, token.value, now)], SeatCreated(newId))
  {
    if token.Some? { CommitOutcome(s, Commit(0, newId, token.value, now)); }
  }

  lemma AfterNonce(s: State, order: seq<Id>, now: int, newId: Id, token: Option<string>)
    requires Inv(s) && At(s, 0, NonceClear) && Listing(s.acts, s.lic, order) && newId !in s.acts
    requires PriorNonce(s.acts, s.procs[0].req.nonce).None? && forall id :: id in order ==> id in s.acts
    ensures var s3 := StepUnlessFinished(s, Decide(0, order));
            var s4 := StepUnlessFinished(s3, if token.None? then SignFault(0) else Commit(0, newId, token.value, now));
            var (acts, outcome) := Settle(s.lic, s.license, s.k, s.acts, s.procs[0].req, order, now, newId, token);
            Ends(s4, acts, outcome)
  {
    var s3 := Next(s, Decide(0, order));
    StepKeeps(s, Decide(0, order));
    if s3.procs[0].pc.Signing? { SigningEnds(s3, newId, token, now); }
  }

  /** Run without interruption, the machine does exactly that and gives the lock back. */
  lemma AloneIsPlain(lic: Id, license: License, k: nat, acts: Acts, req: Request, order: seq<Id>, now: int, newId: Id, token: Option<string>)
    requires NoncesUnique(acts) && MachinesUnique(acts, lic) && Listing(acts, lic, order) && newId !in acts
    requires forall id :: id in order ==> id in acts
    ensures var (acts', outcome) := Plain(lic, license, k, acts, req, order, now, newId, token);
            Ends(Alone(lic, license, k, acts, req, order, now, newId, token), acts', outcome)
  {
    var s0 := State(lic, license, k, acts, None, map[0 := Proc(req, Waiting)]);
    if Accepts(license, now) {
      var s1 := State(lic, license, k, acts, Some(0), map[0 := Proc(req, Locked)]);
      assert StepUnlessFinished(s0, Acquire(0, now)) == s1;
      if PriorNonce(acts, req.nonce).None? {
        var s2 := State(lic, license, k, acts, Some(0), map[0 := Proc(req, NonceClear)]);
        assert StepUnlessFinished(s1, CheckNonce(0)) == s2;
        AfterNonce(s2, order, now, newId, token);
      }
    }
  }
}
