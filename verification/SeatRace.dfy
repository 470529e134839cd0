/** New machines racing for the last seats: how many get one. */
module SeatRace {
  import opened Tables
  import opened Fingerprints
  import opened Seats

  /** Moves of the racing transactions themselves, none of which fails for want of a signer. */
  predicate RacingMove(m: Move, license: License) {
    (m.Acquire? && Accepts(license, m.now)) || m.CheckNonce? || m.Decide? || m.Commit?
  }

  predicate Unlike(k: nat, a: Request, machineId: string, signals: seq<string>) {
    a.machineId != machineId && Overlap(a.signals, signals) < Floor(k)
  }

  /** Every process starts, is a new machine to every active row and to every other process, and has
      a nonce of its own. */
  ghost predicate Start(s: State) {
    && Inv(s) && s.lock.None?
    && (forall p :: p in s.procs ==> s.procs[p].pc == Waiting)
    && (forall p, id :: p in s.procs && IsActive(s.acts, s.lic, id) ==> Unlike(s.k, s.procs[p].req, s.acts[id].machineId, s.acts[id].signals))
    && (forall p, q :: p in s.procs && q in s.procs && p != q ==>
          Unlike(s.k, s.procs[p].req, s.procs[q].req.machineId, s.procs[q].req.signals) && s.procs[p].req.nonce != s.procs[q].req.nonce)
    && (forall p, id :: p in s.procs && id in s.acts ==> s.acts[id].nonce != s.procs[p].req.nonce)
  }

  ghost predicate IsRace(trace: seq<State>, moves: seq<Move>) {
    && IsRun(trace, moves) && Start(trace[0])
    && forall i :: 0 <= i < |moves| ==> RacingMove(moves[i], trace[0].license)
  }

  predicate HasSeat(s: State, p: Pid) { p in s.procs && s.procs[p].pc.Finished? && s.procs[p].pc.outcome.SeatCreated? }
  predicate WasRefused(s: State, p: Pid) { At(s, p, Finished(SeatLimit)) }

  function Winners(s: State): set<Pid> { set p | p in s.procs && HasSeat(s, p) }
  function FreeSeats(s: State): nat {
    if s.license.maxActivations <= |ActiveRows(s.acts, s.lic)| then 0 else s.license.maxActivations - |ActiveRows(s.acts, s.lic)|
  }

  // ---- invariant of the race -------------------------------------------------------------------

  /** Each row is an initial one or the seat of a winner. */
  ghost predicate Accounted(s0: State, s: State) {
    forall id :: id in s.acts ==>
      (id in s0.acts && s.acts[id] == s0.acts[id]) ||
      exists p :: HasSeat(s, p) && p in s0.procs && s.acts[id].nonce == s0.procs[p].req.nonce &&
                  s.acts[id].machineId == s0.procs[p].req.machineId && s.acts[id].signals == s0.procs[p].req.signals
  }

  ghost predicate Stages(s: State) {
    forall p :: p in s.procs ==> s.procs[p].pc in {Waiting, Locked, NonceClear, Signing(None), Finished(SeatLimit)} || HasSeat(s, p)
  }

  ghost predicate SameRequests(s0: State, s: State) {
    && s.lic == s0.lic && s.license == s0.license && s.k == s0.k && s.procs.Keys == s0.procs.Keys
    && forall p :: p in s.procs ==> s.procs[p].req == s0.procs[p].req
  }

  ghost predicate Counted(s0: State, s: State) {
    && |ActiveRows(s.acts, s.lic)| == |ActiveRows(s0.acts, s0.lic)| + |Winners(s)|
    && |Winners(s)| <= FreeSeats(s0)
    && ((exists p :: WasRefused(s, p)) ==> s.license.maxActivations <= |ActiveRows(s.acts, s.lic)|)
  }

  ghost predicate RaceInv(s0: State, s: State) {
    Inv(s) && SameRequests(s0, s) && Stages(s) && Accounted(s0, s) && Counted(s0, s)
  }

  /** A row other than one's own winner seat is unlike one's request and has another nonce. */
  lemma RowsAreUnlike(s0: State, s: State, p: Pid, id: Id)
    requires Start(s0) && SameRequests(s0, s) && Accounted(s0, s) && p in s.procs && !HasSeat(s, p) && id in s.acts
    ensures s.acts[id].nonce != s.procs[p].req.nonce
    ensures IsActive(s.acts, s.lic, id) ==> Unlike(s.k, s.procs[p].req, s.acts[id].machineId, s.acts[id].signals)
  {
    if id in s0.acts && s.acts[id] == s0.acts[id] {
      if IsActive(s.acts, s.lic, id) { assert IsActive(s0.acts, s0.lic, id); }
    } else {
      var q :| HasSeat(s, q) && q in s0.procs && s.acts[id].nonce == s0.procs[q].req.nonce &&
               s.acts[id].machineId == s0.procs[q].req.machineId && s.acts[id].signals == s0.procs[q].req.signals;
      assert p != q;
    }
  }

  lemma NonceIsNew(s0: State, s: State, p: Pid)
    requires Start(s0) && SameRequests(s0, s) && Accounted(s0, s) && p in s.procs && !HasSeat(s, p)
    ensures PriorNonce(s.acts, s.procs[p].req.nonce) == None
    ensures forall id :: !NonceTaken(s.acts, id, s.procs[p].req.nonce)
  {
    forall id | id in s.acts ensures s.acts[id].nonce != s.procs[p].req.nonce { RowsAreUnlike(s0, s, p, id); }
  }

  lemma MachineIsNew(s0: State, s: State, p: Pid, order: seq<Id>)
    requires Start(s0) && SameRequests(s0, s) && Accounted(s0, s) && p in s.procs && !HasSeat(s, p)
    requires Listing(s.acts, s.lic, order)
    ensures Match(s.procs[p].req.signals, s.procs[p].req.machineId, Candidates(s.acts, order), s.k) == None
  {
    var req := s.procs[p].req;
    var cands := Candidates(s.acts, order);
    MatchIsMaximal(req.signals, req.machineId, cands, s.k);
    forall i | 0 <= i < |cands| ensures cands[i].machineId != req.machineId && !Shares(req.signals, cands[i], s.k) {
      assert order[i] in order;
      RowsAreUnlike(s0, s, p, order[i]);
    }
  }

  /** A step that finishes nobody with a seat leaves the count alone. */
  lemma QuietStep(s0: State, s: State, s': State, p: Pid, pc: Pc)
    requires RaceInv(s0, s) && Inv(s') && p in s.procs && !HasSeat(s, p)
    requires s'.acts == s.acts && s'.lic == s.lic && s'.license == s.license && s'.k == s.k
    requires s'.procs == s.procs[p := s.procs[p].(pc := pc)]
    requires pc in {Waiting, Locked, NonceClear, Signing(None), Finished(SeatLimit)}
    requires pc == Finished(SeatLimit) ==> s.license.maxActivations <= |ActiveRows(s.acts, s.lic)|
    ensures RaceInv(s0, s')
  {
    assert forall q :: HasSeat(s', q) <==> HasSeat(s, q);
    assert Winners(s') == Winners(s);
    assert forall q :: WasRefused(s', q) ==> WasRefused(s, q) || q == p;
    assert Accounted(s0, s') by {
      forall id | id in s'.acts && !(id in s0.acts && s'.acts[id] == s0.acts[id])
        ensures exists q :: HasSeat(s', q) && q in s0.procs && s'.acts[id].nonce == s0.procs[q].req.nonce &&
                  s'.acts[id].machineId == s0.procs[q].req.machineId && s'.acts[id].signals == s0.procs[q].req.signals
      {
        var q :| HasSeat(s, q) && q in s0.procs && s.acts[id].nonce == s0.procs[q].req.nonce &&
                 s.acts[id].machineId == s0.procs[q].req.machineId && s.acts[id].signals == s0.procs[q].req.signals;
        assert HasSeat(s', q);
      }
    }
  }

  /** A commit seats its process. */
  lemma WinningStep(s0: State, s: State, m: Move)
    requires Start(s0) && RaceInv(s0, s) && m.Commit? && Enabled(s, m)
    ensures RaceInv(s0, Next(s, m))
  {
    assert !HasSeat(s, m.p);
    assert s.procs[m.p].pc == Signing(None);
    NonceIsNew(s0, s, m.p);
    CommitOutcome(s, m);
    CommitKeeps(s, m);
    WinnerCounted(s0, s, Next(s, m), m.p, m.newId);
    WinnerAccounted(s0, s, Next(s, m), m.p, m.newId, NewRow(s.lic, s.procs[m.p].req, s.k, m.token, m.now));
  }

  lemma WinnerCounted(s0: State, s: State, s': State, p: Pid, id: Id)
    requires SameRequests(s0, s) && Stages(s) && Counted(s0, s) && p in s.procs && !HasSeat(s, p)
    requires s'.lic == s.lic && s'.license == s.license && s'.k == s.k
    requires s'.procs == s.procs[p := s.procs[p].(pc := Finished(SeatCreated(id)))]
    requires |ActiveRows(s'.acts, s.lic)| == |ActiveRows(s.acts, s.lic)| + 1
    requires |ActiveRows(s.acts, s.lic)| < s.license.maxActivations
    ensures SameRequests(s0, s') && Stages(s') && Counted(s0, s')
    ensures HasSeat(s', p) && forall q :: HasSeat(s, q) ==> HasSeat(s', q)
  {
    OneMoreWinner(s, s', p, id);
    assert forall q :: WasRefused(s', q) ==> WasRefused(s, q);
  }

  lemma OneMoreWinner(s: State, s': State, p: Pid, id: Id)
    requires p in s.procs && !HasSeat(s, p)
    requires s'.procs == s.procs[p := s.procs[p].(pc := Finished(SeatCreated(id)))]
    ensures HasSeat(s', p) && forall q :: q != p ==> (HasSeat(s', q) <==> HasSeat(s, q))
    ensures |Winners(s')| == |Winners(s)| + 1
  {
    assert Winners(s') == Winners(s) + {p};
  }

  lemma WinnerAccounted(s0: State, s: State, s': State, p: Pid, id: Id, row: Activation)
    requires Accounted(s0, s) && SameRequests(s0, s) && p in s.procs && HasSeat(s', p)
    requires forall q :: HasSeat(s, q) ==> HasSeat(s', q)
    requires s'.acts == s.acts[id := row] && row.nonce == s.procs[p].req.nonce
    requires row.machineId == s.procs[p].req.machineId && row.signals == s.procs[p].req.signals
    ensures Accounted(s0, s')
  {
    forall j | j in s'.acts && !(j in s0.acts && s'.acts[j] == s0.acts[j])
      ensures exists q :: HasSeat(s', q) && q in s0.procs && s'.acts[j].nonce == s0.procs[q].req.nonce &&
                s'.acts[j].machineId == s0.procs[q].req.machineId && s'.acts[j].signals == s0.procs[q].req.signals
    {
      if j == id {
        assert s'.acts[j].nonce == s0.procs[p].req.nonce;
      } else {
        var q :| HasSeat(s, q) && q in s0.procs && s.acts[j].nonce == s0.procs[q].req.nonce &&
                 s.acts[j].machineId == s0.procs[q].req.machineId && s.acts[j].signals == s0.procs[q].req.signals;
        assert HasSeat(s', q);
      }
    }
  }

  lemma RaceStep(s0: State, s: State, m: Move)
    requires Start(s0) && RaceInv(s0, s) && Enabled(s, m) && RacingMove(m, s0.license)
    ensures RaceInv(s0, Next(s, m))
  {
    StepKeeps(s, m);
    if m.Commit? {
      WinningStep(s0, s, m);
    } else {
      var p := m.p;
      assert !HasSeat(s, p);
      if m.CheckNonce? { NonceIsNew(s0, s, p); }
      if m.Decide? {
        MachineIsNew(s0, s, p, m.order);
        ListingSize(s.acts, s.lic, m.order);
      }
      QuietStep(s0, s, Next(s, m), p, Next(s, m).procs[p].pc);
    }
  }

  lemma {:induction false} RaceKeeps(trace: seq<State>, moves: seq<Move>, n: nat)
    requires IsRace(trace, moves) && n <= |moves|
    ensures RaceInv(trace[0], trace[n])
  {
    if n == 0 {
      assert Winners(trace[0]) == {};
    } else {
      RaceKeeps(trace, moves, n - 1);
      RaceStep(trace[0], trace[n - 1], moves[n - 1]);
    }
  }

  /** Pairwise new machines racing for S free seats: in every interleaving in which all of them have
      finished, exactly min(N, S) got one. */
  lemma ExactlyMin(trace: seq<State>, moves: seq<Move>)
    requires IsRace(trace, moves)
    requires forall p :: p in trace[|moves|].procs ==> trace[|moves|].procs[p].pc.Finished?
    ensures var s0, s := trace[0], trace[|moves|];
            |Winners(s)| == if |s0.procs| <= FreeSeats(s0) then |s0.procs| else FreeSeats(s0)
  {
    RaceKeeps(trace, moves, |moves|);
    AllFinished(trace[0], trace[|moves|]);
  }

  lemma AllFinished(s0: State, s: State)
    requires SameRequests(s0, s) && Stages(s) && Counted(s0, s)
    requires forall p :: p in s.procs ==> s.procs[p].pc.Finished?
    ensures |Winners(s)| == if |s0.procs| <= FreeSeats(s0) then |s0.procs| else FreeSeats(s0)
  {
    assert Winners(s) <= s.procs.Keys;
    SubsetSize(Winners(s), s.procs.Keys);
    if exists p :: WasRefused(s, p) {
      assert |Winners(s)| == FreeSeats(s0);
    } else {
      forall p | p in s.procs ensures HasSeat(s, p) { assert !WasRefused(s, p); }
      assert Winners(s) == s.procs.Keys;
    }
  }
}
