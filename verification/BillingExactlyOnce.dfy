/** At-most-once effect, what an acknowledgement commits, and the agreement of the two recency guards. */
module BillingExactlyOnce {
  import opened Tables
  import opened BillingEvents
  import opened BillingInvariant
  import opened BillingSpec
  import opened BillingRuns

  /** A step has an effect when it changes an overlay row or a license. Ledger rows do not count. */
  predicate Changes(db: Db, db': Db) {
    db'.subs != db.subs || db'.licenses != db.licenses
  }

  /** The step carries this event, whatever its connection state, clocks and catalog are. */
  predicate Carries(step: Step, e: Event) {
    step.Webhook? && step.d.conn.Some? && step.d.body.Some? && Stamp(step.d.conn.value, step.d.body.value) == e
  }

  /** Nothing the event asks for can happen any more: its subscription exists and, unless the event
      is a creation, the anchor has reached it. */
  predicate Settled(db: Db, e: Event) {
    && Present(e.externalId)
    && var key := SubKey(e.provider, e.externalId.value);
       && key in db.subs
       && (e.kind == Created || !UpdateAllowed(e.occurredAt, db.subs[key].lastAppliedAt))
  }

  lemma ChangeSettles(db: Db, step: Step, e: Event)
    requires Valid(db) && Carries(step, e) && Changes(db, Apply(db, step))
    ensures Settled(Apply(db, step), e)
  {
    var d := step.d;
    assert d.signature.SigOk? && d.conn.value.enabled;
    if e.kind == Created {
      CreationSettles(db, d, d.conn.value, e);
    } else {
      ActionSettles(db, d, d.conn.value, e);
    }
  }

  lemma CreationSettles(db: Db, d: Delivery, conn: Connection, e: Event)
    requires e.kind == Created && e.provider == conn.provider && Changes(db, Dispatch(db, d, conn, e).0)
    ensures Settled(Dispatch(db, d, conn, e).0, e)
  {
  }

  lemma ActionSettles(db: Db, d: Delivery, conn: Connection, e: Event)
    requires Valid(db) && e.kind != Created && Changes(db, Dispatch(db, d, conn, e).0)
    ensures Settled(Dispatch(db, d, conn, e).0, e)
  {
    hide PlanProvision, CreateLinked, ResolveGraceSeconds, RenewedLicense;
    var sub := Resolve(db, e, d.resolveMissed);
    assert Acts(db, e, sub);
    var claimed := Record(db, e.LedgerKey(), Row(e, sub, d.dbNow, Applied, None));
    assert claimed.subs == db.subs && claimed.licenses == db.licenses;
  }

  lemma SettledStays(db: Db, db': Db, e: Event)
    requires Evolves(db, db') && Settled(db, e)
    ensures Settled(db', e)
  {
    var key := SubKey(e.provider, e.externalId.value);
    assert SubEvolves(db.subs[key], db'.subs[key]);
  }

  lemma SettledInert(db: Db, step: Step, e: Event)
    requires Valid(db) && Carries(step, e) && Settled(db, e)
    ensures !Changes(db, Apply(db, step))
  {
  }

  /** Two deliveries of one event, with anything in between that only evolves the tables. */
  lemma LaterDeliveryInert(a: Db, first: Step, b: Db, second: Step, e: Event)
    requires Valid(a) && Valid(b) && Carries(first, e) && Carries(second, e)
    requires Changes(a, Apply(a, first)) && Evolves(Apply(a, first), b)
    ensures !Changes(b, Apply(b, second))
  {
    ChangeSettles(a, first, e);
    SettledStays(Apply(a, first), b, e);
    SettledInert(b, second, e);
  }

  /** Step `i` of the run carries the event and has an effect. */
  predicate EffectAt(trace: seq<Db>, steps: seq<Step>, e: Event, i: nat)
    requires |trace| == |steps| + 1 && i < |steps|
  {
    Carries(steps[i], e) && Changes(trace[i], trace[i + 1])
  }

  /** In every run, of two deliveries of one event the later changes nothing once the earlier has
      changed something, even if the event's ledger row was pruned in between. */
  lemma SecondDeliveryInert(trace: seq<Db>, steps: seq<Step>, i: nat, j: nat, e: Event)
    requires IsRun(trace, steps) && Valid(trace[0]) && i < j < |steps|
    requires EffectAt(trace, steps, e, i) && Carries(steps[j], e)
    ensures !EffectAt(trace, steps, e, j)
  {
    RunKeeps(trace, steps, i, j);
    RunKeeps(trace, steps, i + 1, j);
    LaterDeliveryInert(trace[i], steps[i], trace[j], steps[j], e);
  }

  /** How many of the first `n` steps carry the event and have an effect. */
  function EffectCount(trace: seq<Db>, steps: seq<Step>, e: Event, n: nat): nat
    requires |trace| == |steps| + 1 && n <= |steps|
  {
    if n == 0 then 0
    else EffectCount(trace, steps, e, n - 1) + (if EffectAt(trace, steps, e, n - 1) then 1 else 0)
  }

  lemma {:induction false} EarlierEffect(trace: seq<Db>, steps: seq<Step>, e: Event, n: nat) returns (i: nat)
    requires |trace| == |steps| + 1 && n <= |steps| && 0 < EffectCount(trace, steps, e, n)
    ensures i < n && EffectAt(trace, steps, e, i)
  {
    if EffectAt(trace, steps, e, n - 1) {
      i := n - 1;
    } else {
      i := EarlierEffect(trace, steps, e, n - 1);
    }
  }

  /** At most once, over every run of deliveries, sweeps, reconcile passes, prunes and admin actions. */
  lemma {:induction false} AtMostOnce(trace: seq<Db>, steps: seq<Step>, e: Event, n: nat)
    requires IsRun(trace, steps) && Valid(trace[0]) && n <= |steps|
    ensures EffectCount(trace, steps, e, n) <= 1
  {
    if n != 0 {
      AtMostOnce(trace, steps, e, n - 1);
      if 0 < EffectCount(trace, steps, e, n - 1) && EffectAt(trace, steps, e, n - 1) {
        var i := EarlierEffect(trace, steps, e, n - 1);
        SecondDeliveryInert(trace, steps, i, n - 1, e);
      }
    }
  }

  // ---- the ledger ----------------------------------------------------------------------------

  /** Delivering an event whose row is still in the ledger leaves every table as it is. It is
      acknowledged as a duplicate unless it is refused before the ledger is reached. */
  lemma RetainedRedelivery(db: Db, d: Delivery, e: Event)
    requires Carries(Webhook(d), e) && e.LedgerKey() in db.ledger
    ensures Deliver(db, d).0 == db
    ensures Deliver(db, d).1 != Ack(AckDuplicate) <==>
            (|| !d.signature.SigOk?
             || (&& d.conn.value.enabled && e.kind == Created && Resolve(db, e, d.resolveMissed).None?
                 && PlanProvision(db, d.deps, d.conn.value, e).Refused?))
  {
  }

  ghost predicate OneNewRow(db: Db, db': Db, key: LedgerKey, outcome: EventOutcome) {
    && key !in db.ledger && key in db'.ledger
    && db'.ledger == db.ledger[key := db'.ledger[key]]
    && db'.ledger[key].outcome == outcome
    && (db'.ledger[key].reason.None? <==> outcome == Applied)
  }

  ghost predicate Committed(db: Db, db': Db, key: LedgerKey, reply: Reply) {
    match reply
    case Failed(_) => db' == db
    case Ack(AckApplied) => OneNewRow(db, db', key, Applied)
    case Ack(AckDeadLetter) => OneNewRow(db, db', key, DeadLetter) && !Changes(db, db')
    case Ack(AckDuplicate) => !Changes(db, db') && (db' == db || OneNewRow(db, db', key, Rejected))
  }

  lemma ActsCommits(db: Db, d: Delivery, conn: Connection, e: Event, sub: Option<SubKey>)
    requires Valid(db) && sub == Resolve(db, e, d.resolveMissed) && Acts(db, e, sub)
    ensures var (db', reply) := Dispatch(db, d, conn, e);
            reply == Ack(AckApplied) && Committed(db, db', e.LedgerKey(), reply)
  {
    var claimed := Record(db, e.LedgerKey(), Row(e, sub, d.dbNow, Applied, None));
    SameTablesKeep(db, claimed);
    ActionKeeps(claimed, d.deps, conn.grace, sub.value, e, MapEventToAction(e.kind), d.now);
    ActionKeepsLedger(claimed, d.deps, conn.grace, sub.value, e, MapEventToAction(e.kind), d.now);
  }

  lemma CreationCommits(db: Db, d: Delivery, conn: Connection, e: Event)
    requires e.kind == Created
    ensures var (db', reply) := Dispatch(db, d, conn, e); Committed(db, db', e.LedgerKey(), reply)
  {
  }

  lemma RestCommits(db: Db, d: Delivery, conn: Connection, e: Event)
    requires e.kind != Created && !Acts(db, e, Resolve(db, e, d.resolveMissed))
    ensures var (db', reply) := Dispatch(db, d, conn, e);
            reply != Ack(AckApplied) && Committed(db, db', e.LedgerKey(), reply)
  {
  }

  /** What each reply commits: a fault nothing at all, `applied` and `deadletter` exactly one row,
      `duplicate` at most one row (a rejected one); only `applied` may touch overlay or license. */
  lemma AckCommits(db: Db, d: Delivery, key: LedgerKey)
    requires Valid(db)
    requires d.conn.Some? && d.body.Some? ==> key == Stamp(d.conn.value, d.body.value).LedgerKey()
    ensures Committed(db, Deliver(db, d).0, key, Deliver(db, d).1)
  {
    if d.conn.Some? && d.signature.SigOk? && d.body.Some? && d.conn.value.enabled {
      var conn := d.conn.value;
      var e := Stamp(conn, d.body.value);
      var sub := Resolve(db, e, d.resolveMissed);
      if e.kind == Created {
        CreationCommits(db, d, conn, e);
      } else if Acts(db, e, sub) {
        ActsCommits(db, d, conn, e, sub);
      } else {
        RestCommits(db, d, conn, e);
      }
    }
  }

  lemma ActionKeepsLedger(db: Db, deps: Deps, policy: GracePolicy, key: SubKey, e: Event, action: Action, now: int)
    requires key in db.subs && action in {Renew, PastDueAction, Cancel, Revoke}
    requires ApplyAction(db, deps, policy, key, e, action, now).Some?
    ensures ApplyAction(db, deps, policy, key, e, action, now).value.ledger == db.ledger
  {
  }

  /** A row is pruned exactly when it is older than the horizon, hence only after the redelivery floor. */
  lemma PrunedIsBeyondFloor(db: Db, config: BillingConfig, at: int, key: LedgerKey)
    requires key in db.ledger
    ensures key !in PruneLedger(db, config, at).ledger <==>
            db.ledger[key].receivedAt + ResolveLedgerRetentionSecs(config.ledgerRetentionSecs) < at
    ensures key !in PruneLedger(db, config, at).ledger ==> db.ledger[key].receivedAt + IDEMPOTENCY_FLOOR_SECS < at
    ensures key in PruneLedger(db, config, at).ledger ==> PruneLedger(db, config, at).ledger[key] == db.ledger[key]
  {
  }

  lemma StepKeepsRow(db: Db, step: Step, key: LedgerKey)
    requires Valid(db) && key in db.ledger
    requires step.Prune? ==> step.at <= db.ledger[key].receivedAt + IDEMPOTENCY_FLOOR_SECS
    ensures key in Apply(db, step).ledger && Apply(db, step).ledger[key] == db.ledger[key]
  {
    match step
    case Webhook(d) =>
      AckCommits(db, d, if d.conn.Some? && d.body.Some? then Stamp(d.conn.value, d.body.value).LedgerKey() else key);
    case Prune(config, at) => PrunedIsBeyondFloor(db, config, at, key);
    case Reconcile(deps, k, auth, conn, at) =>
      if k in db.subs {
        var policy := if conn.Some? then conn.value.grace else GracePolicy(None, map[]);
        var e := SynthEvent(k, auth, at);
        ActionKeeps(db, deps, policy, k, e, MapEventToAction(e.kind), at);
        ActionKeepsLedger(db, deps, policy, k, e, MapEventToAction(e.kind), at);
      }
    case _ =>
  }

  /** Within the redelivery floor of its receipt a row outlives every prune, so a redelivery at any
      later point of the run changes no table at all. */
  lemma {:induction false} RedeliveryWithinFloor(trace: seq<Db>, steps: seq<Step>, i: nat, j: nat, e: Event)
    requires IsRun(trace, steps) && Valid(trace[0]) && i <= j <= |steps| && e.LedgerKey() in trace[i].ledger
    requires forall m :: i <= m < j && steps[m].Prune? ==>
             steps[m].at <= trace[i].ledger[e.LedgerKey()].receivedAt + IDEMPOTENCY_FLOOR_SECS
    ensures e.LedgerKey() in trace[j].ledger
    ensures trace[j].ledger[e.LedgerKey()] == trace[i].ledger[e.LedgerKey()]
    ensures j < |steps| && Carries(steps[j], e) ==> trace[j + 1] == trace[j]
    decreases j
  {
    if i < j {
      RedeliveryWithinFloor(trace, steps, i, j - 1, e);
      RunKeeps(trace, steps, j - 1, j - 1);
      StepKeepsRow(trace[j - 1], steps[j - 1], e.LedgerKey());
    }
    if j < |steps| && Carries(steps[j], e) {
      RetainedRedelivery(trace[j], steps[j].d, e);
    }
  }

  // ---- the two recency guards ----------------------------------------------------------------

  function StateFor(kind: EventKind): BillingState
    requires kind !in {Created, Unknown}
  {
    match kind
    case Renewed => Active
    case PaymentFailed => PastDue
    case CanceledEvent => Grace
    case RefundedEvent => Refunded
  }

  /** Behind an `applied` acknowledgement of anything but a creation, the guard of the SQL update
      never disagrees with the stale check. The overlay takes the event's state and the anchor its
      time exactly when the license is not revoked or the event is a refund; otherwise the row says
      `applied` and nothing moved. */
  lemma GuardsAgree(db: Db, d: Delivery, e: Event)
    requires Valid(db) && Carries(Webhook(d), e)
    requires Deliver(db, d).1 == Ack(AckApplied) && e.kind != Created
    ensures Present(e.externalId) && SubKey(e.provider, e.externalId.value) in db.subs && e.kind != Unknown
    ensures var key := SubKey(e.provider, e.externalId.value);
            var db' := Deliver(db, d).0;
            var live := db.licenses[db.subs[key].licenseId].status != LicRevoked || e.kind == RefundedEvent;
            && key in db'.subs
            && (live <==> db'.subs[key].lastAppliedAt == Some(e.occurredAt))
            && (live ==> db'.subs[key].state == StateFor(e.kind))
            && (!live ==> !Changes(db, db'))
  {
    var sub := Resolve(db, e, d.resolveMissed);
    assert Acts(db, e, sub);
  }
}
