/** Whole runs: any sequence of deliveries, worker steps, prunes and admin actions. */
module BillingRuns {
  import opened Tables
  import opened BillingEvents
  import opened BillingInvariant
  import opened BillingSpec

  datatype Step =
    | Webhook(d: Delivery)
    | GraceTick(key: SubKey, at: int)
    | Reconcile(deps: Deps, key: SubKey, auth: Snapshot, conn: Option<Connection>, at: int)
    | Prune(config: BillingConfig, at: int)
    | AdminIssue(deps: Deps, planId: string, customer: string, expiresAt: Option<int>)
    | AdminRevoke(id: Id)
    | AdminSuspend(id: Id)
    | AdminReinstate(id: Id)
    | AdminTransfer(id: Id, limit: nat, customer: string)

  function Apply(db: Db, step: Step): Db {
    match step
    case Webhook(d) => Deliver(db, d).0
    case GraceTick(key, at) => SuspendElapsed(db, key, at)
    case Reconcile(deps, key, auth, conn, at) => ReconcileOne(db, deps, key, auth, conn, at).0
    case Prune(config, at) => PruneLedger(db, config, at)
    case AdminIssue(deps, planId, customer, expiresAt) => IssueLicense(db, deps, planId, customer, expiresAt).0
    case AdminRevoke(id) => RevokeLicense(db, id).0
    case AdminSuspend(id) => SuspendLicense(db, id).0
    case AdminReinstate(id) => ReinstateLicense(db, id).0
    case AdminTransfer(id, limit, customer) => TransferLicense(db, id, limit, customer).0
  }

  /** A run: the tables before the first step, and after each of them. */
  ghost predicate IsRun(trace: seq<Db>, steps: seq<Step>) {
    && |trace| == |steps| + 1
    && forall i :: 0 <= i < |steps| ==> trace[i + 1] == Apply(trace[i], steps[i])
  }

  // ---- every step keeps the invariant and evolves ----------------------------------------------

  lemma SetStateKeeps(db: Db, key: SubKey, state: BillingState, grace: Option<int>, occurredAt: int)
    requires Valid(db)
    requires grace.Some? <==> state in {PastDue, Grace}
    requires key in db.subs ==> var id := db.subs[key].licenseId;
             (db.licenses[id].status == LicRevoked <==> state == Refunded)
    ensures Valid(SetState(db, key, state, grace, occurredAt))
    ensures Evolves(db, SetState(db, key, state, grace, occurredAt))
  {
  }

  lemma LicenseUpdateKeeps(db: Db, id: Id, lic: License)
    requires Valid(db) && id in db.licenses && LicenseEvolves(db.licenses[id], lic)
    ensures var db' := db.(licenses := db.licenses[id := lic]); Valid(db') && Evolves(db, db')
  {
  }

  /** A step that touches neither links nor licenses. */
  lemma SameTablesKeep(db: Db, db': Db)
    requires Valid(db) && db'.subs == db.subs && db'.licenses == db.licenses && db'.nextId == db.nextId
    ensures Valid(db') && Evolves(db, db')
  {
  }

  lemma EvolvesTransitive(a: Db, b: Db, c: Db)
    requires Evolves(a, b) && Evolves(b, c)
    ensures Evolves(a, c)
  {
    forall k | k in a.subs ensures k in c.subs && SubEvolves(a.subs[k], c.subs[k]) {
      assert SubEvolves(a.subs[k], b.subs[k]) && SubEvolves(b.subs[k], c.subs[k]);
    }
    forall id | id in a.licenses ensures id in c.licenses && LicenseEvolves(a.licenses[id], c.licenses[id]) {
      assert LicenseEvolves(a.licenses[id], b.licenses[id]) && LicenseEvolves(b.licenses[id], c.licenses[id]);
    }
  }

  lemma RenewKeeps(db: Db, deps: Deps, key: SubKey, e: Event)
    requires Valid(db) && key in db.subs
    ensures ApplyRenew(db, deps, key, e).Some?
    ensures var db' := ApplyRenew(db, deps, key, e).value; Valid(db') && Evolves(db, db')
  {
    var id := db.subs[key].licenseId;
    if db.licenses[id].status != LicRevoked {
      var db1 := db.(licenses := db.licenses[id := RenewedLicense(db.licenses[id], deps, e.periodEnd)]);
      LicenseUpdateKeeps(db, id, RenewedLicense(db.licenses[id], deps, e.periodEnd));
      SetStateKeeps(db1, key, Active, None, e.occurredAt);
      EvolvesTransitive(db, db1, SetState(db1, key, Active, None, e.occurredAt));
    } else {
      SameTablesKeep(db, db);
    }
  }

  lemma GraceKeeps(db: Db, config: BillingConfig, policy: GracePolicy, key: SubKey, e: Event, cancel: bool, now: int)
    requires Valid(db) && key in db.subs
    ensures ApplyGrace(db, config, policy, key, e, cancel, now).Some?
    ensures var db' := ApplyGrace(db, config, policy, key, e, cancel, now).value; Valid(db') && Evolves(db, db')
  {
    var id := db.subs[key].licenseId;
    if db.licenses[id].status != LicRevoked {
      SetStateKeeps(db, key, if cancel then Grace else PastDue,
                    Some(GraceDeadline(config, policy, e.planKey, now)), e.occurredAt);
    } else {
      SameTablesKeep(db, db);
    }
  }

  lemma RevokeKeeps(db: Db, key: SubKey, e: Event)
    requires Valid(db) && key in db.subs
    ensures ApplyRevoke(db, key, e).Some?
    ensures var db' := ApplyRevoke(db, key, e).value; Valid(db') && Evolves(db, db')
  {
    var id := db.subs[key].licenseId;
    var db1 := SetStatus(db, id, LicRevoked);
    LicenseUpdateKeeps(db, id, db.licenses[id].(status := LicRevoked));
    SetStateKeeps(db1, key, Refunded, None, e.occurredAt);
    EvolvesTransitive(db, db1, SetState(db1, key, Refunded, None, e.occurredAt));
  }

  lemma ActionKeeps(db: Db, deps: Deps, policy: GracePolicy, key: SubKey, e: Event, action: Action, now: int)
    requires Valid(db) && key in db.subs && action in {Renew, PastDueAction, Cancel, Revoke}
    ensures ApplyAction(db, deps, policy, key, e, action, now).Some?
    ensures var db' := ApplyAction(db, deps, policy, key, e, action, now).value; Valid(db') && Evolves(db, db')
  {
    if action == Renew {
      RenewKeeps(db, deps, key, e);
    } else if action == Revoke {
      RevokeKeeps(db, key, e);
    } else {
      GraceKeeps(db, deps.config, policy, key, e, action == Cancel, now);
    }
  }

  lemma CreateKeeps(db: Db, deps: Deps, e: Event, key: SubKey, planId: string, customer: string)
    requires Valid(db) && planId in deps.effective && key !in db.subs
    ensures var db' := CreateLinked(db, deps, e, key, planId, customer); Valid(db') && Evolves(db, db')
  {
  }

  lemma CreationKeeps(db: Db, d: Delivery, conn: Connection, e: Event)
    requires Valid(db) && e.kind == Created
    ensures var db' := Dispatch(db, d, conn, e).0; Valid(db') && Evolves(db, db')
  {
    var db' := Dispatch(db, d, conn, e).0;
    var plan := PlanProvision(db, d.deps, conn, e);
    if Resolve(db, e, d.resolveMissed).None? && plan.Grant? && plan.key !in db.subs && e.LedgerKey() !in db.ledger {
      var created := CreateLinked(db, d.deps, e, plan.key, plan.planId, plan.customer);
      CreateKeeps(db, d.deps, e, plan.key, plan.planId, plan.customer);
      SameTablesKeep(created, db');
      EvolvesTransitive(db, created, db');
    } else {
      SameTablesKeep(db, db');
    }
  }

  lemma DispatchKeeps(db: Db, d: Delivery, conn: Connection, e: Event)
    requires Valid(db)
    ensures var db' := Dispatch(db, d, conn, e).0; Valid(db') && Evolves(db, db')
  {
    var sub := Resolve(db, e, d.resolveMissed);
    if e.kind == Created {
      CreationKeeps(db, d, conn, e);
    } else if Acts(db, e, sub) {
      ActingKeeps(db, d, conn, e, sub.value);
    } else {
      RestKeeps(db, d, conn, e);
    }
  }

  lemma ActingKeeps(db: Db, d: Delivery, conn: Connection, e: Event, key: SubKey)
    requires Valid(db) && Resolve(db, e, d.resolveMissed) == Some(key) && Acts(db, e, Some(key))
    ensures var db' := Dispatch(db, d, conn, e).0; Valid(db') && Evolves(db, db')
  {
    var claimed := Record(db, e.LedgerKey(), Row(e, Some(key), d.dbNow, Applied, None));
    SameTablesKeep(db, claimed);
    ActionKeeps(claimed, d.deps, conn.grace, key, e, MapEventToAction(e.kind), d.now);
    EvolvesTransitive(db, claimed, Dispatch(db, d, conn, e).0);
  }

  lemma RestKeeps(db: Db, d: Delivery, conn: Connection, e: Event)
    requires Valid(db) && e.kind != Created && !Acts(db, e, Resolve(db, e, d.resolveMissed))
    ensures var db' := Dispatch(db, d, conn, e).0; Valid(db') && Evolves(db, db')
  {
    SameTablesKeep(db, Dispatch(db, d, conn, e).0);
  }

  /** The branch of a dispatch that runs a side effect on a linked subscription. */
  predicate Acts(db: Db, e: Event, sub: Option<SubKey>) {
    && MapEventToAction(e.kind) in {Renew, PastDueAction, Cancel, Revoke}
    && sub.Some? && sub.value in db.subs
    && !IsStaleEvent(e.occurredAt, db.subs[sub.value].lastAppliedAt)
    && e.LedgerKey() !in db.ledger
  }

  lemma DeliverKeeps(db: Db, d: Delivery)
    requires Valid(db)
    ensures var db' := Deliver(db, d).0; Valid(db') && Evolves(db, db')
  {
    if d.conn.Some? && d.signature.SigOk? && d.body.Some? && d.conn.value.enabled {
      DispatchKeeps(db, d, d.conn.value, Stamp(d.conn.value, d.body.value));
    } else {
      SameTablesKeep(db, Deliver(db, d).0);
    }
  }

  lemma GraceTickKeeps(db: Db, key: SubKey, at: int)
    requires Valid(db)
    ensures var db' := SuspendElapsed(db, key, at); Valid(db') && Evolves(db, db')
  {
    SameTablesKeep(db, db);
    if key in db.subs && Elapsed(db.subs[key], at) && db.licenses[db.subs[key].licenseId].status != LicRevoked {
      var id := db.subs[key].licenseId;
      var db1 := if db.licenses[id].status == LicActive then SetStatus(db, id, LicSuspended) else db;
      if db.licenses[id].status == LicActive { LicenseUpdateKeeps(db, id, db.licenses[id].(status := LicSuspended)); }
      CancelKeeps(db1, key);
      EvolvesTransitive(db, db1, SuspendElapsed(db, key, at));
    }
  }

  lemma CancelKeeps(db: Db, key: SubKey)
    requires Valid(db) && key in db.subs && db.licenses[db.subs[key].licenseId].status != LicRevoked
    ensures var db' := db.(subs := db.subs[key := db.subs[key].(state := Canceled, graceExpiresAt := None)]);
            Valid(db') && Evolves(db, db')
  {
  }

  lemma ReconcileKeeps(db: Db, deps: Deps, key: SubKey, auth: Snapshot, conn: Option<Connection>, at: int)
    requires Valid(db)
    ensures var db' := ReconcileOne(db, deps, key, auth, conn, at).0; Valid(db') && Evolves(db, db')
  {
    SameTablesKeep(db, db);
    if key in db.subs {
      var e := SynthEvent(key, auth, at);
      var policy := if conn.Some? then conn.value.grace else GracePolicy(None, map[]);
      ActionKeeps(db, deps, policy, key, e, MapEventToAction(e.kind), at);
    }
  }

  lemma AdminKeeps(db: Db, step: Step)
    requires Valid(db) && (step.AdminIssue? || step.AdminRevoke? || step.AdminSuspend? || step.AdminReinstate? || step.AdminTransfer?)
    ensures Valid(Apply(db, step)) && Evolves(db, Apply(db, step))
  {
    SameTablesKeep(db, db);
    if step.AdminIssue? {
    } else if step.id in db.licenses {
      var lic := db.licenses[step.id];
      var db' := Apply(db, step);
      if db' != db {
        LicenseUpdateKeeps(db, step.id, db'.licenses[step.id]);
        assert db' == db.(licenses := db.licenses[step.id := db'.licenses[step.id]]);
      }
    }
  }

  lemma StepKeeps(db: Db, step: Step)
    requires Valid(db)
    ensures Valid(Apply(db, step)) && Evolves(db, Apply(db, step))
  {
    if step.Webhook? {
      DeliverKeeps(db, step.d);
    } else if step.GraceTick? {
      GraceTickKeeps(db, step.key, step.at);
    } else if step.Reconcile? {
      ReconcileKeeps(db, step.deps, step.key, step.auth, step.conn, step.at);
    } else if step.Prune? {
      SameTablesKeep(db, PruneLedger(db, step.config, step.at));
    } else {
      AdminKeeps(db, step);
    }
  }

  /** In every run from valid tables, at every point: the overlay invariant holds, links are never
      lost or re-pointed, anchors never go back, and refunded and revoked are final. */
  lemma {:induction false} RunKeeps(trace: seq<Db>, steps: seq<Step>, i: nat, j: nat)
    requires IsRun(trace, steps) && Valid(trace[0]) && i <= j <= |steps|
    ensures Valid(trace[i]) && Valid(trace[j]) && Evolves(trace[i], trace[j])
    decreases j
  {
    if j == 0 {
      SameTablesKeep(trace[0], trace[0]);
    } else if i == j {
      RunKeeps(trace, steps, j - 1, j - 1);
      StepKeeps(trace[j - 1], steps[j - 1]);
      SameTablesKeep(trace[j], trace[j]);
    } else {
      RunKeeps(trace, steps, i, j - 1);
      StepKeeps(trace[j - 1], steps[j - 1]);
      EvolvesTransitive(trace[i], trace[j - 1], trace[j]);
    }
  }
}
