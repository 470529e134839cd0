/** Updates of users as interleaved transactions: read committed, one row lock at a time, a
    transaction caught in a deadlock rolled back. */
module LastOwner {
  import opened Tables
  import opened Users

  type Tid = nat

  /** A joined row of the owners query: a user and the role row that makes it an owner. */
  datatype Candidate = Candidate(user: Id, row: Id)

  datatype Txn =
    | Begun(id: Id, input: Update)
    | Locked(id: Id, input: Update, status: Status)
    | Decided(id: Id, input: Update, status: Status, role: Role)
    | Sweeping(id: Id, input: Update, status: Status, role: Role, todo: set<Candidate>, found: set<Id>)
    | Ready(id: Id, input: Update, status: Status, role: Role, others: set<Id>)
    | Done(outcome: Outcome)

  datatype System = System(people: People, locks: map<Id, Tid>, txns: map<Tid, Txn>)

  datatype Step =
    | Begin(t: Tid, id: Id, input: Update)
    | LockTarget(t: Tid)
    | ReadRoles(t: Tid)
    | OpenSweep(t: Tid)
    | LockOwner(t: Tid, c: Candidate, keeps: bool)
    | CloseSweep(t: Tid)
    | Commit(t: Tid, newRow: Id)
    | Abort(t: Tid)
    | Create(id: Id, emailHash: string, role: Role, password: bool, row: Id)
    | ProvisionFirstAdmin(id: Id, reference: string, row: Id)

  function Candidates(people: People): set<Candidate> {
    set id, i | id in people && 0 <= i < |people[id].roles| && Qualifies(people, Candidate(id, people[id].roles[i].id)) ::
      Candidate(id, people[id].roles[i].id)
  }

  /** The joined row still is an active owner's. */
  predicate Qualifies(people: People, c: Candidate) {
    && c.user in people && people[c.user].status == Status.Active
    && exists i :: 0 <= i < |people[c.user].roles| && people[c.user].roles[i] == RoleRow(c.row, Owner)
  }

  predicate FreeFor(s: System, id: Id, t: Tid) { id !in s.locks || s.locks[id] == t }

  function Released(locks: map<Id, Tid>, t: Tid): map<Id, Tid> { map id | id in locks && locks[id] != t :: locks[id] }

  function End(s: System, t: Tid, outcome: Outcome): System {
    s.(locks := Released(s.locks, t), txns := s.txns[t := Done(outcome)])
  }

  function Put(s: System, t: Tid, txn: Txn): System { s.(txns := s.txns[t := txn]) }

  /** One step; a step that is blocked by a lock or not due leaves everything as it is. */
  function Apply(s: System, step: Step): System {
    match step
    case Begin(t, id, input) => if t in s.txns then s else Put(s, t, Begun(id, input))
    case LockTarget(t) => if t in s.txns then LockTheTarget(s, t, s.txns[t]) else s
    case ReadRoles(t) =>
      if t in s.txns && s.txns[t].Locked? && s.txns[t].id in s.people then
        var x := s.txns[t];
        Put(s, t, Decided(x.id, x.input, x.status, CurrentRole(s.people[x.id])))
      else s
    case OpenSweep(t) => if t in s.txns && s.txns[t].Decided? then OpenTheSweep(s, t, s.txns[t]) else s
    case LockOwner(t, c, keeps) => if t in s.txns && s.txns[t].Sweeping? then LockAnOwner(s, t, s.txns[t], c, keeps) else s
    case CloseSweep(t) => if t in s.txns && s.txns[t].Sweeping? then CloseTheSweep(s, t, s.txns[t]) else s
    case Commit(t, newRow) => if t in s.txns && s.txns[t].Ready? then CommitUpdate(s, t, s.txns[t], newRow) else s
    case Abort(t) => if t in s.txns && !s.txns[t].Done? then End(s, t, Aborted) else s
    case Create(id, emailHash, role, password, row) =>
      if id in s.people then s else s.(people := WithUser(s.people, id, emailHash, role, password, row))
    case ProvisionFirstAdmin(id, reference, row) =>
      if id in s.people then s else s.(people := WithUser(s.people, id, reference, Owner, true, row))
  }

  /** `SELECT status ... FOR UPDATE` on the user. */
  function LockTheTarget(s: System, t: Tid, x: Txn): System {
    if !x.Begun? then s
    else if x.id !in s.people then End(s, t, NotFound)
    else if !FreeFor(s, x.id, t) then s
    else s.(locks := s.locks[x.id := t], txns := s.txns[t := Locked(x.id, x.input, s.people[x.id].status)])
  }

  /** The owners query takes its snapshot, unless no owner would be taken away. */
  function OpenTheSweep(s: System, t: Tid, x: Txn): System
    requires x.Decided?
  {
    if Removing(x.role, x.input) then Put(s, t, Sweeping(x.id, x.input, x.status, x.role, Candidates(s.people), {}))
    else Put(s, t, Ready(x.id, x.input, x.status, x.role, {}))
  }

  /** One row of it is locked and looked at again; one that no longer qualifies is passed over. */
  function LockAnOwner(s: System, t: Tid, x: Txn, c: Candidate, keeps: bool): System
    requires x.Sweeping?
  {
    if c !in x.todo || !FreeFor(s, c.user, t) then s
    else if Qualifies(s.people, c) then
      s.(locks := s.locks[c.user := t], txns := s.txns[t := x.(todo := x.todo - {c}, found := x.found + {c.user})])
    else
      s.(locks := if keeps then s.locks[c.user := t] else s.locks, txns := s.txns[t := x.(todo := x.todo - {c})])
  }

  function CloseTheSweep(s: System, t: Tid, x: Txn): System
    requires x.Sweeping?
  {
    var others := x.found - {x.id};
    if x.todo != {} then s
    else if others == {} then End(s, t, Outcome.LastOwner)
    else Put(s, t, Ready(x.id, x.input, x.status, x.role, others))
  }

  /** The writes, as they become visible: against the role and status read before. */
  function Written(u: User, x: Txn, newRow: Id): User
    requires x.Ready?
  {
    u.(roles := if x.input.role.Some? && x.input.role.value != x.role then [RoleRow(newRow, x.input.role.value)] else u.roles,
       status := if x.input.status.Some? && x.input.status.value != x.status then x.input.status.value else u.status)
  }

  function CommitUpdate(s: System, t: Tid, x: Txn, newRow: Id): System
    requires x.Ready?
  {
    if x.id !in s.people then s
    else
      End(s.(people := s.people[x.id := Written(s.people[x.id], x, newRow)]), t,
          Updated(if x.input.role.Some? then x.input.role.value else x.role, if x.input.status.Some? then x.input.status.value else x.status))
  }

  // ---- the invariant -----------------------------------------------------------------------------

  predicate Holds(s: System, t: Tid, id: Id) { id in s.locks && s.locks[id] == t }

  /** What a transaction has read about its target is still so, and every owner it counted is locked
      by it and still an active owner. */
  ghost predicate TxnInv(s: System, t: Tid, x: Txn) {
    && (!x.Begun? && !x.Done? ==> Holds(s, t, x.id) && x.id in s.people && x.status == s.people[x.id].status)
    && (x.Decided? || x.Sweeping? || x.Ready? ==> x.id in s.people && x.role == CurrentRole(s.people[x.id]))
    && (x.Sweeping? ==> Removing(x.role, x.input) && forall o :: o in x.found ==> Holds(s, t, o) && IsActiveOwner(s.people, o))
    && (x.Ready? ==> x.id !in x.others && forall o :: o in x.others ==> Holds(s, t, o) && IsActiveOwner(s.people, o))
    && (x.Ready? && Removing(x.role, x.input) ==> x.others != {})
  }

  ghost predicate Inv(s: System) {
    && (forall t :: t in s.txns ==> TxnInv(s, t, s.txns[t]))
    && (forall id :: id in s.locks ==> s.locks[id] in s.txns && !s.txns[s.locks[id]].Done?)
  }

  ghost predicate Quiet(s: System) { s.txns == map[] && s.locks == map[] }

  /** A step of transaction `t`: it leaves the other transactions, their locks and the rows they
      have locked alone. */
  ghost predicate Only(s: System, s': System, t: Tid) {
    && s'.txns.Keys == s.txns.Keys + {t}
    && (forall u :: u in s.txns && u != t ==> s'.txns[u] == s.txns[u])
    && (forall id :: id in s'.locks ==> (s'.locks[id] == t && !s'.txns[t].Done?) || (id in s.locks && s'.locks[id] == s.locks[id] != t))
    && (forall id :: id in s.locks && s.locks[id] != t ==> id in s'.locks && s'.locks[id] == s.locks[id])
    && Untouched(s, s', t)
  }

  ghost predicate Untouched(s: System, s': System, t: Tid) {
    forall id :: id in s.locks && s.locks[id] != t && id in s.people ==> id in s'.people && s'.people[id] == s.people[id]
  }

  lemma OtherTxnKept(s: System, s': System, t: Tid, u: Tid)
    requires Inv(s) && Only(s, s', t) && u in s.txns && u != t
    ensures TxnInv(s', u, s.txns[u])
  {
    var x := s.txns[u];
    assert TxnInv(s, u, x);
    if x.Sweeping? {
      forall o | o in x.found ensures Holds(s', u, o) && IsActiveOwner(s'.people, o) { assert Holds(s, u, o); }
    }
    if x.Ready? {
      forall o | o in x.others ensures Holds(s', u, o) && IsActiveOwner(s'.people, o) { assert Holds(s, u, o); }
    }
  }

  lemma OnlyKeeps(s: System, s': System, t: Tid)
    requires Inv(s) && Only(s, s', t) && TxnInv(s', t, s'.txns[t])
    ensures Inv(s')
  {
    forall u | u in s'.txns ensures TxnInv(s', u, s'.txns[u]) {
      if u != t { OtherTxnKept(s, s', t, u); }
    }
  }

  lemma EndKeeps(s: System, t: Tid, outcome: Outcome)
    requires Inv(s)
    ensures Inv(End(s, t, outcome))
  {
    OnlyKeeps(s, End(s, t, outcome), t);
  }

  lemma LockTargetKeeps(s: System, t: Tid)
    requires Inv(s) && t in s.txns && s.txns[t].Begun?
    ensures Inv(LockTheTarget(s, t, s.txns[t]))
  {
    var s' := LockTheTarget(s, t, s.txns[t]);
    if s.txns[t].id !in s.people { EndKeeps(s, t, NotFound); }
    else if s' != s { OnlyKeeps(s, s', t); }
  }

  lemma LockOwnerKeeps(s: System, t: Tid, c: Candidate, keeps: bool)
    requires Inv(s) && t in s.txns && s.txns[t].Sweeping?
    ensures Inv(LockAnOwner(s, t, s.txns[t], c, keeps))
  {
    var x := s.txns[t];
    var s' := LockAnOwner(s, t, x, c, keeps);
    assert TxnInv(s, t, x);
    if s' != s {
      assert Only(s, s', t);
      forall o | o in s'.txns[t].found ensures Holds(s', t, o) && IsActiveOwner(s'.people, o) {
        if o in x.found { assert Holds(s, t, o); } else { QualifiesOwner(s.people, c); }
      }
      OnlyKeeps(s, s', t);
    }
  }

  lemma QualifiesOwner(people: People, c: Candidate)
    requires Qualifies(people, c)
    ensures IsActiveOwner(people, c.user)
  {
    var i :| 0 <= i < |people[c.user].roles| && people[c.user].roles[i] == RoleRow(c.row, Owner);
    assert people[c.user].roles[i].role == Owner;
  }

  lemma SweepKeeps(s: System, t: Tid)
    requires Inv(s) && t in s.txns
    ensures s.txns[t].Decided? ==> Inv(OpenTheSweep(s, t, s.txns[t]))
    ensures s.txns[t].Sweeping? ==> Inv(CloseTheSweep(s, t, s.txns[t]))
  {
    var x := s.txns[t];
    assert TxnInv(s, t, x);
    if x.Decided? {
      var s' := OpenTheSweep(s, t, x);
      assert Only(s, s', t);
      OnlyKeeps(s, s', t);
    } else if x.Sweeping? && x.todo == {} {
      if x.found - {x.id} == {} {
        EndKeeps(s, t, Outcome.LastOwner);
      } else {
        var s' := CloseTheSweep(s, t, x);
        assert Only(s, s', t);
        OnlyKeeps(s, s', t);
      }
    }
  }

  lemma CommitKeeps(s: System, t: Tid, newRow: Id)
    requires Inv(s) && t in s.txns && s.txns[t].Ready?
    ensures Inv(CommitUpdate(s, t, s.txns[t], newRow))
  {
    var x := s.txns[t];
    assert TxnInv(s, t, x);
    assert Holds(s, t, x.id);
    OnlyKeeps(s, CommitUpdate(s, t, x, newRow), t);
  }

  lemma AddKeeps(s: System, people: People)
    requires Inv(s) && forall id :: id in s.people ==> id in people && people[id] == s.people[id]
    ensures Inv(s.(people := people))
  {
    var s' := s.(people := people);
    forall u | u in s'.txns ensures TxnInv(s', u, s'.txns[u]) {
      var x := s.txns[u];
      assert TxnInv(s, u, x);
    }
  }

  /** Every step of every transaction keeps the invariant. */
  lemma StepKeeps(s: System, step: Step)
    requires Inv(s)
    ensures Inv(Apply(s, step))
  {
    match step
    case Begin(t, id, input) => if t !in s.txns { OnlyKeeps(s, Apply(s, step), t); }
    case LockTarget(t) => if t in s.txns && s.txns[t].Begun? { LockTargetKeeps(s, t); }
    case ReadRoles(t) =>
      if t in s.txns && s.txns[t].Locked? {
        assert TxnInv(s, t, s.txns[t]);
        OnlyKeeps(s, Apply(s, step), t);
      }
    case OpenSweep(t) => if t in s.txns { SweepKeeps(s, t); }
    case LockOwner(t, c, keeps) => if t in s.txns && s.txns[t].Sweeping? { LockOwnerKeeps(s, t, c, keeps); }
    case CloseSweep(t) => if t in s.txns { SweepKeeps(s, t); }
    case Commit(t, newRow) => if t in s.txns && s.txns[t].Ready? { CommitKeeps(s, t, newRow); }
    case Abort(t) => if t in s.txns { EndKeeps(s, t, Aborted); }
    case Create(id, emailHash, role, password, row) => AddKeeps(s, Apply(s, step).people);
    case ProvisionFirstAdmin(id, reference, row) => AddKeeps(s, Apply(s, step).people);
  }

  // ---- the property ------------------------------------------------------------------------------

  /** What commits is what an update on the rows as they are now would write. */
  lemma CommitIsChange(s: System, t: Tid, newRow: Id)
    requires Inv(s) && t in s.txns && s.txns[t].Ready?
    ensures var x := s.txns[t];
            && x.id in s.people
            && CommitUpdate(s, t, x, newRow).people == s.people[x.id := Changed(s.people[x.id], x.input, newRow)]
            && CommitUpdate(s, t, x, newRow).txns[t] == Done(After(s.people[x.id], x.input))
            && (Removing(CurrentRole(s.people[x.id]), x.input) ==> OtherOwner(s.people, x.id))
  {
    var x := s.txns[t];
    assert TxnInv(s, t, x);
    if Removing(x.role, x.input) {
      var o :| o in x.others;
      assert IsActiveOwner(s.people, o);
    }
  }

  lemma StepKeepsOwner(s: System, step: Step)
    requires Inv(s) && HasOwner(s.people)
    ensures HasOwner(Apply(s, step).people)
  {
    var o :| IsActiveOwner(s.people, o);
    if step.Commit? && step.t in s.txns && s.txns[step.t].Ready? {
      var x := s.txns[step.t];
      CommitIsChange(s, step.t, step.newRow);
      if Removing(CurrentRole(s.people[x.id]), x.input) {
        var w :| w != x.id && IsActiveOwner(s.people, w);
        assert IsActiveOwner(Apply(s, step).people, w);
      } else {
        ChangedIsReported(s.people[x.id], x.input, step.newRow);
        assert IsActiveOwner(Apply(s, step).people, o);
      }
    } else {
      assert IsActiveOwner(Apply(s, step).people, o);
    }
  }

  ghost predicate IsRun(trace: seq<System>, steps: seq<Step>) {
    && |trace| == |steps| + 1
    && forall i :: 0 <= i < |steps| ==> trace[i + 1] == Apply(trace[i], steps[i])
  }

  lemma {:induction false} RunKeeps(trace: seq<System>, steps: seq<Step>, n: nat)
    requires IsRun(trace, steps) && Quiet(trace[0]) && n <= |steps|
    ensures Inv(trace[n])
  {
    if n > 0 {
      RunKeeps(trace, steps, n - 1);
      StepKeeps(trace[n - 1], steps[n - 1]);
    }
  }

  /** No interleaving of updates, creations and provisionings takes a tenant from at least one active
      owner to none. */
  lemma {:induction false} NeverOwnerless(trace: seq<System>, steps: seq<Step>, i: nat, j: nat)
    requires IsRun(trace, steps) && Quiet(trace[0]) && i <= j <= |steps|
    requires HasOwner(trace[i].people)
    ensures HasOwner(trace[j].people)
    decreases j
  {
    if i < j {
      NeverOwnerless(trace, steps, i, j - 1);
      RunKeeps(trace, steps, j - 1);
      StepKeepsOwner(trace[j - 1], steps[j - 1]);
    }
  }

  // ---- every commit is a serial update -----------------------------------------------------------

  /** At the moment it commits, a transaction does what it would have done alone: no interleaving
      yields a result that running the updates one after the other, in commit order, would not. */
  lemma CommitIsSerial(trace: seq<System>, steps: seq<Step>, n: nat)
    requires IsRun(trace, steps) && Quiet(trace[0]) && n < |steps|
    requires steps[n].Commit? && steps[n].t in trace[n].txns && trace[n].txns[steps[n].t].Ready?
    ensures var s, s', t := trace[n], trace[n + 1], steps[n].t;
            var x := s.txns[t];
            var (people, outcome) := AfterUpdate(s.people, x.id, x.input, steps[n].newRow);
            s'.people == people && s'.txns[t] == Done(outcome) && outcome.Updated?
  {
    RunKeeps(trace, steps, n);
    CommitIsChange(trace[n], steps[n].t, steps[n].newRow);
  }

  // ---- refusals ----------------------------------------------------------------------------------

  /** An active owner the sweep has neither counted nor still before it does not exist. */
  ghost predicate Covers(people: People, x: Txn)
    requires x.Sweeping?
  {
    forall o :: IsActiveOwner(people, o) ==> o in x.found || exists c :: c in x.todo && c.user == o && Qualifies(people, c)
  }

  lemma OpenCovers(people: People, x: Txn)
    requires x.Sweeping? && x.todo == Candidates(people)
    ensures Covers(people, x)
  {
    forall o | IsActiveOwner(people, o) ensures exists c :: c in x.todo && c.user == o && Qualifies(people, c) {
      var i :| 0 <= i < |people[o].roles| && people[o].roles[i].role == Owner;
      var c := Candidate(o, people[o].roles[i].id);
      assert people[o].roles[i] == RoleRow(c.row, Owner);
      assert c in x.todo;
    }
  }

  lemma LockCovers(s: System, t: Tid, x: Txn, c: Candidate, keeps: bool)
    requires x.Sweeping? && Covers(s.people, x) && t in s.txns && s.txns[t] == x
    ensures LockAnOwner(s, t, x, c, keeps).txns[t].Sweeping? && Covers(s.people, LockAnOwner(s, t, x, c, keeps).txns[t])
  {
    var x' := LockAnOwner(s, t, x, c, keeps).txns[t];
    forall o | IsActiveOwner(s.people, o) && o !in x'.found
      ensures exists d :: d in x'.todo && d.user == o && Qualifies(s.people, d)
    {
      var d :| d in x.todo && d.user == o && Qualifies(s.people, d);
      assert d in x'.todo;
    }
  }

  lemma {:induction false} SweepCovers(trace: seq<System>, steps: seq<Step>, t: Tid, i: nat, n: nat)
    requires IsRun(trace, steps) && i <= n <= |steps| && t in trace[i].txns && !trace[i].txns[t].Sweeping?
    requires forall k :: i <= k <= n ==> trace[k].people == trace[i].people
    ensures t in trace[n].txns
    ensures trace[n].txns[t].Sweeping? ==> Covers(trace[n].people, trace[n].txns[t])
    decreases n
  {
    if i < n {
      SweepCovers(trace, steps, t, i, n - 1);
      var s, s', step := trace[n - 1], trace[n], steps[n - 1];
      var x := s.txns[t];
      if s'.txns[t].Sweeping? && s'.txns[t] != x {
        if x.Decided? {
          OpenCovers(s.people, s'.txns[t]);
        } else if step.LockOwner? && step.t == t && x.Sweeping? {
          LockCovers(s, t, x, step.c, step.keeps);
        }
      }
    }
  }

  /** A refusal is right: if nobody changed the users while the owners were being locked, the update is
      refused exactly when the target is the only active owner, or there is none at all. */
  lemma RefusalIsRight(trace: seq<System>, steps: seq<Step>, t: Tid, i: nat, n: nat)
    requires IsRun(trace, steps) && Quiet(trace[0]) && i <= n < |steps|
    requires t in trace[i].txns && !trace[i].txns[t].Sweeping?
    requires forall k :: i <= k <= n ==> trace[k].people == trace[i].people
    requires steps[n] == CloseSweep(t) && t in trace[n].txns && trace[n].txns[t].Sweeping? && trace[n].txns[t].todo == {}
    ensures trace[n + 1].txns[t] == Done(Outcome.LastOwner) <==> !OtherOwner(trace[n].people, trace[n].txns[t].id)
  {
    SweepCovers(trace, steps, t, i, n);
    RunKeeps(trace, steps, n);
    var s := trace[n];
    var x := s.txns[t];
    assert TxnInv(s, t, x);
    var others := x.found - {x.id};
    if others != {} {
      var o :| o in others;
      assert IsActiveOwner(s.people, o);
    }
    if OtherOwner(s.people, x.id) {
      var o :| o != x.id && IsActiveOwner(s.people, o);
      assert o in others;
    }
  }

  /** In no interleaving is an update refused that takes ownership from nobody: one that is refused meets a target
      with an owner row, and gives it another role or deactivates it. */
  lemma RefusedOnlyRemovals(trace: seq<System>, steps: seq<Step>, n: nat, t: Tid)
    requires IsRun(trace, steps) && Quiet(trace[0]) && n < |steps|
    requires t in trace[n].txns && !trace[n].txns[t].Done? && trace[n + 1].txns[t] == Done(Outcome.LastOwner)
    ensures var x := trace[n].txns[t];
            && x.Sweeping? && x.id in trace[n].people
            && TakesOwnership(trace[n].people[x.id], x.input)
  {
    hide Written, Candidates, Qualifies, WithUser, Released, FreeFor, Users.CurrentRole;
    RunKeeps(trace, steps, n);
    var s, x := trace[n], trace[n].txns[t];
    assert TxnInv(s, t, x);
    if x.Sweeping? { CurrentRoleIsHighest(s.people[x.id]); }
  }
}
