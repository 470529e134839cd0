/** The time-driven workers: when the grace worker may suspend, and what a reconcile pass repairs. */
module BillingWorkers {
  import opened Tables
  import opened BillingEvents
  import opened BillingInvariant
  import opened BillingSpec
  import opened BillingRuns
  import opened BillingExactlyOnce
  import Billing

  // ---- timed suspension ------------------------------------------------------------------------

  /** The clock of a step that can open a grace window. */
  function StepClock(step: Step): int {
    match step
    case Webhook(d) => d.now
    case Reconcile(_, _, _, _, at) => at
    case _ => 0
  }

  /** The event a step applies to this subscription, the policy it resolves grace by, and the config. */
  ghost predicate OpensGrace(step: Step, key: SubKey, sub: Subscription, secs: PosSecs) {
    && sub.state in {PastDue, Grace}
    && sub.graceExpiresAt == Some(StepClock(step) + secs)
    && match step
       case Webhook(d) =>
         && d.conn.Some? && d.signature.SigOk? && d.body.Some? && d.conn.value.enabled
         && var e := Stamp(d.conn.value, d.body.value);
            && e.externalId == Some(key.externalId) && e.provider == key.provider
            && e.kind == (if sub.state == Grace then CanceledEvent else PaymentFailed)
            && sub.lastAppliedAt == Some(e.occurredAt)
            && secs == ResolveGraceSeconds(d.deps.config, d.conn.value.grace, e.planKey)
       case Reconcile(deps, k, auth, conn, at) =>
         && k == key && conn.Some?
         && auth.status == (if sub.state == Grace then AuthCanceled else AuthPastDue)
         && sub.lastAppliedAt == Some(SnapshotTime(auth, at))
         && secs == ResolveGraceSeconds(deps.config, conn.value.grace, auth.planKey)
       case _ => false
  }

  function WebhookGraceSecs(d: Delivery): PosSecs
    requires d.conn.Some? && d.body.Some?
  {
    ResolveGraceSeconds(d.deps.config, d.conn.value.grace, d.body.value.planKey)
  }

  function StateAfter(action: Action): BillingState
    requires action in {Renew, PastDueAction, Cancel, Revoke}
  {
    match action case Renew => Active case PastDueAction => PastDue case Cancel => Grace case Revoke => Refunded
  }

  function GraceAfter(deps: Deps, policy: GracePolicy, e: Event, action: Action, now: int): Option<int> {
    if action in {PastDueAction, Cancel} then Some(now + ResolveGraceSeconds(deps.config, policy, e.planKey)) else None
  }

  /** What a newer event's action does to the overlay: the whole row, or nothing on a revoked license. */
  lemma ActionOutcome(db: Db, deps: Deps, policy: GracePolicy, key: SubKey, e: Event, action: Action, now: int)
    requires Valid(db) && key in db.subs && action in {Renew, PastDueAction, Cancel, Revoke}
    requires UpdateAllowed(e.occurredAt, db.subs[key].lastAppliedAt)
    ensures ApplyAction(db, deps, policy, key, e, action, now).Some?
    ensures var db' := ApplyAction(db, deps, policy, key, e, action, now).value;
            if db.licenses[db.subs[key].licenseId].status == LicRevoked && action != Revoke then db' == db
            else db'.subs == db.subs[key := Subscription(db.subs[key].licenseId, StateAfter(action),
                                                         GraceAfter(deps, policy, e, action, now), Some(e.occurredAt))]
  {
  }

  lemma WebhookOpens(db: Db, d: Delivery, key: SubKey)
    requires Valid(db)
    requires key in Deliver(db, d).0.subs && Deliver(db, d).0.subs[key].state in {PastDue, Grace}
    requires key !in db.subs || db.subs[key] != Deliver(db, d).0.subs[key]
    ensures d.conn.Some? && d.body.Some?
    ensures OpensGrace(Webhook(d), key, Deliver(db, d).0.subs[key], WebhookGraceSecs(d))
  {
    assert d.conn.Some? && d.signature.SigOk? && d.body.Some? && d.conn.value.enabled;
    var conn := d.conn.value;
    var e := Stamp(conn, d.body.value);
    var sub := Resolve(db, e, d.resolveMissed);
    if e.kind == Created {
      CreationOpensNothing(db, d, conn, e, key);
    } else if Acts(db, e, sub) {
      DispatchedAction(db, d, conn, e, sub.value);
    } else {
      RestCommits(db, d, conn, e);
    }
  }

  /** The overlay after a dispatch that acts on a linked subscription. */
  lemma DispatchedAction(db: Db, d: Delivery, conn: Connection, e: Event, k: SubKey)
    requires Valid(db) && Resolve(db, e, d.resolveMissed) == Some(k) && Acts(db, e, Some(k))
    ensures var db' := Dispatch(db, d, conn, e).0; var action := MapEventToAction(e.kind);
            db'.subs == db.subs || db'.subs == db.subs[k := Subscription(db.subs[k].licenseId, StateAfter(action),
                                                                        GraceAfter(d.deps, conn.grace, e, action, d.now), Some(e.occurredAt))]
  {
    var claimed := Record(db, e.LedgerKey(), Row(e, Some(k), d.dbNow, Applied, None));
    SameTablesKeep(db, claimed);
    ActionOutcome(claimed, d.deps, conn.grace, k, e, MapEventToAction(e.kind), d.now);
  }

  lemma CreationOpensNothing(db: Db, d: Delivery, conn: Connection, e: Event, key: SubKey)
    requires Valid(db) && e.kind == Created
    requires key in Dispatch(db, d, conn, e).0.subs && Dispatch(db, d, conn, e).0.subs[key].state in {PastDue, Grace}
    ensures key in db.subs && db.subs[key] == Dispatch(db, d, conn, e).0.subs[key]
  {
  }

  lemma ReconcileOpens(db: Db, step: Step, key: SubKey)
    requires Valid(db) && step.Reconcile?
    requires var db' := ReconcileOne(db, step.deps, step.key, step.auth, step.conn, step.at).0;
             key in db'.subs && db'.subs[key].state in {PastDue, Grace} && (key !in db.subs || db.subs[key] != db'.subs[key])
    ensures step.conn.Some?
    ensures OpensGrace(step, key, ReconcileOne(db, step.deps, step.key, step.auth, step.conn, step.at).0.subs[key],
                       ResolveGraceSeconds(step.deps.config, step.conn.value.grace, step.auth.planKey))
  {
    var k, auth, at := step.key, step.auth, step.at;
    assert k in db.subs;
    var policy := if step.conn.Some? then step.conn.value.grace else GracePolicy(None, map[]);
    var e := SynthEvent(k, auth, at);
    ActionOutcome(db, step.deps, policy, k, e, MapEventToAction(e.kind), at);
  }

  lemma OtherStepsOpenNothing(db: Db, step: Step, key: SubKey)
    requires !step.Webhook? && !step.Reconcile?
    requires key in Apply(db, step).subs && Apply(db, step).subs[key].state in {PastDue, Grace}
    ensures key in db.subs && db.subs[key] == Apply(db, step).subs[key]
  {
  }

  /** A step after which a grace window runs that did not run before is one that opens it. */
  lemma NewGraceIsOpened(db: Db, step: Step, key: SubKey) returns (secs: PosSecs)
    requires Valid(db)
    requires key in Apply(db, step).subs && Apply(db, step).subs[key].state in {PastDue, Grace}
    requires key !in db.subs || db.subs[key] != Apply(db, step).subs[key]
    ensures OpensGrace(step, key, Apply(db, step).subs[key], secs)
  {
    secs := 1;
    if step.Webhook? {
      WebhookOpens(db, step.d, key);
      secs := WebhookGraceSecs(step.d);
    } else if step.Reconcile? {
      ReconcileOpens(db, step, key);
      secs := ResolveGraceSeconds(step.deps.config, step.conn.value.grace, step.auth.planKey);
    } else {
      OtherStepsOpenNothing(db, step, key);
    }
  }

  /** The overlay row has been this one ever since point `j` of the run. */
  ghost predicate Since(trace: seq<Db>, key: SubKey, sub: Subscription, j: nat, n: nat)
    requires n < |trace|
  {
    forall m :: j < m <= n ==> key in trace[m].subs && trace[m].subs[key] == sub
  }

  /** In a run that starts without subscriptions, a running grace window was opened by some earlier
      step and the overlay has not been touched since. */
  lemma {:induction false} GraceOrigin(trace: seq<Db>, steps: seq<Step>, key: SubKey, n: nat) returns (j: nat, secs: PosSecs)
    requires IsRun(trace, steps) && Valid(trace[0]) && trace[0].subs == map[]
    requires n <= |steps| && key in trace[n].subs && trace[n].subs[key].state in {PastDue, Grace}
    ensures j < n && OpensGrace(steps[j], key, trace[n].subs[key], secs)
    ensures Since(trace, key, trace[n].subs[key], j, n)
  {
    RunKeeps(trace, steps, n - 1, n - 1);
    if key in trace[n - 1].subs && trace[n - 1].subs[key] == trace[n].subs[key] {
      j, secs := GraceOrigin(trace, steps, key, n - 1);
    } else {
      j := n - 1;
      secs := NewGraceIsOpened(trace[n - 1], steps[n - 1], key);
    }
  }

  lemma TickSuspendsElapsed(db: Db, key: SubKey, at: int, id: Id)
    requires id in db.licenses && id in SuspendElapsed(db, key, at).licenses
    requires db.licenses[id].status != LicSuspended && SuspendElapsed(db, key, at).licenses[id].status == LicSuspended
    ensures key in db.subs && db.subs[key].licenseId == id && Elapsed(db.subs[key], at)
    ensures SuspendElapsed(db, key, at).subs[key] == db.subs[key].(state := Canceled, graceExpiresAt := None)
  {
  }

  /** The grace worker suspends a license only when the positive grace window resolved for the latest
      applied cancellation or payment failure has fully passed since that step's clock, and nothing
      (in particular no renewal) has been applied to the subscription in between. */
  lemma TimedSuspension(trace: seq<Db>, steps: seq<Step>, n: nat, id: Id) returns (j: nat, secs: PosSecs)
    requires IsRun(trace, steps) && Valid(trace[0]) && trace[0].subs == map[]
    requires n < |steps| && steps[n].GraceTick?
    requires id in trace[n].licenses && id in trace[n + 1].licenses
    requires trace[n].licenses[id].status != LicSuspended && trace[n + 1].licenses[id].status == LicSuspended
    ensures j < n && steps[n].key in trace[n].subs && trace[n].subs[steps[n].key].licenseId == id
    ensures OpensGrace(steps[j], steps[n].key, trace[n].subs[steps[n].key], secs)
    ensures StepClock(steps[j]) + secs <= steps[n].at
    ensures Since(trace, steps[n].key, trace[n].subs[steps[n].key], j, n)
    ensures trace[n + 1].subs[steps[n].key].lastAppliedAt == trace[n].subs[steps[n].key].lastAppliedAt
  {
    var key := steps[n].key;
    TickSuspendsElapsed(trace[n], key, steps[n].at, id);
    j, secs := GraceOrigin(trace, steps, key, n);
  }

  // ---- a sweep misses nothing ------------------------------------------------------------------

  lemma TickFrame(db: Db, key: SubKey, now: int, other: SubKey)
    requires Valid(db) && other in db.subs
    ensures var db' := SuspendElapsed(db, key, now);
            && other in db'.subs && db'.subs[other].licenseId == db.subs[other].licenseId
            && (other != key ==> db'.subs[other] == db.subs[other])
            && (db'.licenses[db.subs[other].licenseId].status == LicRevoked <==> db.licenses[db.subs[other].licenseId].status == LicRevoked)
            && (other == key && Elapsed(db.subs[key], now) && db.licenses[db.subs[key].licenseId].status != LicRevoked ==>
                db'.subs[key].state == Canceled && db'.licenses[db.subs[key].licenseId].status == LicSuspended)
  {
  }

  /** Whatever stale list a sweep starts from, afterwards a listed subscription whose window had run
      out by every clock of the sweep is canceled, unless its license is revoked. */
  lemma {:induction false} SweepClears(db: Db, listed: seq<SubKey>, clock: seq<int>, key: SubKey, t: int)
    requires Valid(db) && |clock| == |listed| && key in db.subs
    requires forall i :: 0 <= i < |clock| ==> t <= clock[i]
    ensures var db' := Billing.Swept(db, listed, clock);
            && key in db'.subs && db'.subs[key].licenseId == db.subs[key].licenseId
            && (key !in listed ==> db'.subs[key] == db.subs[key])
            && (key in listed && (db'.subs[key].state == PastDue || db'.subs[key].state == Grace) && db'.subs[key].graceExpiresAt.Some?
                && db'.subs[key].graceExpiresAt.value <= t
                ==> db.licenses[db.subs[key].licenseId].status == LicRevoked)
    decreases |listed|
  {
    if listed != [] {
      var db1 := SuspendElapsed(db, listed[0], clock[0]);
      TickFrame(db, listed[0], clock[0], key);
      GraceTickKeeps(db, listed[0], clock[0]);
      SweepClears(db1, listed[1..], clock[1..], key, t);
      assert key in listed <==> key == listed[0] || key in listed[1..];
      if key == listed[0] && key !in listed[1..] {
        assert Billing.Swept(db, listed, clock).subs[key] == db1.subs[key];
      }
    }
  }

  // ---- reconciliation --------------------------------------------------------------------------

  /** Whether the correction can take hold: a revoked license is corrected only to refunded. */
  predicate Repairable(db: Db, key: SubKey, auth: Snapshot)
    requires Valid(db) && key in db.subs
  {
    db.licenses[db.subs[key].licenseId].status != LicRevoked || auth.status == AuthRefunded
  }

  /** What a pass leaves: the overlay of the action it took, or everything as it was. */
  lemma ReconcileOutcome(db: Db, deps: Deps, key: SubKey, auth: Snapshot, conn: Option<Connection>, now: int)
    requires Valid(db) && key in db.subs
    ensures var (db', corrected) := ReconcileOne(db, deps, key, auth, conn, now);
            var e := SynthEvent(key, auth, now);
            && (!corrected ==> db' == db)
            && (corrected ==> DriftsTo(db.subs[key].state, auth.status) && UpdateAllowed(e.occurredAt, db.subs[key].lastAppliedAt))
            && (corrected && !Repairable(db, key, auth) ==> db' == db)
            && (corrected && Repairable(db, key, auth) ==>
                key in db'.subs && db'.subs[key].state == StateAfter(MapEventToAction(e.kind)) &&
                db'.subs[key].lastAppliedAt == Some(e.occurredAt))
            && db'.ledger == db.ledger
  {
    var e := SynthEvent(key, auth, now);
    var policy := if conn.Some? then conn.value.grace else GracePolicy(None, map[]);
    if UpdateAllowed(e.occurredAt, db.subs[key].lastAppliedAt) {
      ActionOutcome(db, deps, policy, key, e, MapEventToAction(e.kind), now);
      ActionKeepsLedger(db, deps, policy, key, e, MapEventToAction(e.kind), now);
    }
  }

  /** A pass that corrects leaves no drift exactly when the license is not revoked (or the provider
      says refunded); one that does not correct changes nothing. Anchors never go back. */
  lemma ReconcileRepairs(db: Db, deps: Deps, key: SubKey, auth: Snapshot, conn: Option<Connection>, now: int)
    requires Valid(db) && key in db.subs
    ensures var (db', corrected) := ReconcileOne(db, deps, key, auth, conn, now);
            && Valid(db') && key in db'.subs
            && (!corrected ==> db' == db)
            && (corrected ==> (Repairable(db, key, auth) <==> !DriftsTo(db'.subs[key].state, auth.status)))
            && (corrected && !Repairable(db, key, auth) ==> db' == db)
            && AnchorLe(db.subs[key].lastAppliedAt, db'.subs[key].lastAppliedAt)
            && db'.ledger == db.ledger
  {
    ReconcileKeeps(db, deps, key, auth, conn, now);
    ReconcileOutcome(db, deps, key, auth, conn, now);
  }

  /** Repeating a pass with the same snapshot changes nothing. It also reports nothing, except on a
      revoked license whose overlay can never follow: there every pass reports a correction again. */
  lemma ReconcileTwice(db: Db, deps: Deps, key: SubKey, auth: Snapshot, conn: Option<Connection>, now: int)
    requires Valid(db) && key in db.subs
    ensures var (db1, first) := ReconcileOne(db, deps, key, auth, conn, now);
            var (db2, second) := ReconcileOne(db1, deps, key, auth, conn, now);
            db2 == db1 && (second <==> first && !Repairable(db, key, auth))
  {
    ReconcileRepairs(db, deps, key, auth, conn, now);
  }

  /** Where a pass acts, overlay and license end as they would after the corresponding webhook
      event with a new id, delivered at the same time. */
  lemma ReconcileEqualsWebhook(db: Db, d: Delivery, key: SubKey, auth: Snapshot, eventId: string)
    requires Valid(db) && key in db.subs && key.externalId != ""
    requires d.conn.Some? && d.conn.value.enabled && d.conn.value.provider == key.provider
    requires d.signature.SigOk? && !d.resolveMissed
    requires d.body == Some(SynthEvent(key, auth, d.now).(eventId := eventId))
    requires LedgerKey(key.provider, eventId) !in db.ledger
    requires ReconcileOne(db, d.deps, key, auth, d.conn, d.now).1
    ensures Deliver(db, d).1 == Ack(AckApplied)
    ensures Deliver(db, d).0.subs == ReconcileOne(db, d.deps, key, auth, d.conn, d.now).0.subs
    ensures Deliver(db, d).0.licenses == ReconcileOne(db, d.deps, key, auth, d.conn, d.now).0.licenses
  {
    var conn := d.conn.value;
    var e := Stamp(conn, d.body.value);
    assert e == d.body.value;
    assert Acts(db, e, Some(key));
    ActsCommits(db, d, conn, e, Some(key));
    ActionIgnoresLedger(db, Record(db, e.LedgerKey(), Row(e, Some(key), d.dbNow, Applied, None)), d.deps, conn.grace, key,
                        e, SynthEvent(key, auth, d.now), MapEventToAction(e.kind), d.now);
  }

  /** An action reads neither the ledger nor the event id. */
  lemma ActionIgnoresLedger(a: Db, b: Db, deps: Deps, policy: GracePolicy, key: SubKey, e: Event, f: Event, action: Action, now: int)
    requires Valid(a) && key in a.subs && action in {Renew, PastDueAction, Cancel, Revoke}
    requires b == a.(ledger := b.ledger) && f == e.(eventId := f.eventId)
    ensures var x := ApplyAction(a, deps, policy, key, f, action, now);
            var y := ApplyAction(b, deps, policy, key, e, action, now);
            x.Some? && y.Some? && x.value.subs == y.value.subs && x.value.licenses == y.value.licenses
  {
  }
}
