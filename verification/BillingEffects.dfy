/** What each billing operation does to the rows, field by field: which deliveries, passes and
    actions take effect, and the license, overlay and customer they leave. */
module BillingEffects {
  import opened Tables
  import opened BillingEvents
  import opened BillingInvariant
  import opened BillingSpec
  import opened BillingRuns
  import opened BillingExactlyOnce

  // ---- deliveries ------------------------------------------------------------------------------------

  /** The delivery reaches the tables: connection known and enabled, signature good, body parsed. */
  predicate Reaches(d: Delivery) { d.conn.Some? && d.conn.value.enabled && d.signature == SigOk && d.body.Some? }

  /** The subscription that a body is about, by the key the connection gives it. */
  function About(d: Delivery): SubKey
    requires d.conn.Some? && d.body.Some? && d.body.value.externalId.Some?
  {
    SubKey(d.conn.value.provider, d.body.value.externalId.value)
  }

  function Claim(d: Delivery): LedgerKey
    requires d.conn.Some? && d.body.Some?
  {
    LedgerKey(d.conn.value.provider, d.body.value.eventId)
  }

  /** An event other than a creation is applied exactly when it reaches the tables, is of a known kind, names a
      linked subscription that the transaction sees, is later than everything applied to it, and is new. */
  lemma AppliedIff(db: Db, d: Delivery)
    requires Valid(db) && d.body.Some? && d.body.value.kind != Created
    ensures Deliver(db, d).1 == Ack(AckApplied) <==>
            && Reaches(d) && d.body.value.kind != Unknown
            && d.body.value.externalId.Some? && d.body.value.externalId.value != ""
            && About(d) in db.subs && !d.resolveMissed
            && (db.subs[About(d)].lastAppliedAt.Some? ==> db.subs[About(d)].lastAppliedAt.value < d.body.value.occurredAt)
            && Claim(d) !in db.ledger
  {
    if Reaches(d) {
      var e := Stamp(d.conn.value, d.body.value);
      if Acts(db, e, Resolve(db, e, d.resolveMissed)) {
        ActsCommits(db, d, d.conn.value, e, Resolve(db, e, d.resolveMissed));
      } else {
        RestCommits(db, d, d.conn.value, e);
      }
    }
  }

  /** What keeps a request from being looked at, in the order of the checks; nothing is written. */
  lemma FaultsInOrder(db: Db, d: Delivery)
    ensures d.conn.None? ==> Deliver(db, d) == (db, Failed(ConnectionNotFound))
    ensures d.conn.Some? && d.signature == SigStale ==> Deliver(db, d) == (db, Failed(StaleTimestamp))
    ensures d.conn.Some? && d.signature == SigBad ==> Deliver(db, d) == (db, Failed(InvalidSignature))
    ensures d.conn.Some? && d.signature == SigOk && d.body.None? ==> Deliver(db, d) == (db, Failed(MalformedBody))
  {
  }

  /** The transaction finds the subscription that the body is about. */
  predicate Sees(db: Db, d: Delivery)
    requires d.conn.Some? && d.body.Some?
  {
    d.body.value.externalId.Some? && d.body.value.externalId.value != "" && About(d) in db.subs && !d.resolveMissed
  }

  /** A verified event of a disabled connection, and one other than a creation that is not applied, leaves its
      ledger row at most: a stale one is rejected, any other is a dead letter, and a claimed one nothing. */
  lemma OtherwiseRecorded(db: Db, d: Delivery)
    requires Valid(db) && d.conn.Some? && d.signature == SigOk && d.body.Some?
    requires !d.conn.value.enabled || (d.body.value.kind != Created && Deliver(db, d).1 != Ack(AckApplied))
    ensures var e, enabled := d.body.value, d.conn.value.enabled;
            var stale := enabled && Sees(db, d) && db.subs[About(d)].lastAppliedAt.Some? &&
                         e.occurredAt <= db.subs[About(d)].lastAppliedAt.value;
            var row := LedgerRow(e.kind, if enabled && Sees(db, d) then Some(About(d)) else None, e.occurredAt, d.dbNow,
                                 if stale then Rejected else DeadLetter,
                                 Some(if stale then "stale_event" else if enabled then "unmapped_event" else "connection_disabled"));
            if Claim(d) in db.ledger then Deliver(db, d) == (db, Ack(AckDuplicate))
            else Deliver(db, d) == (db.(ledger := db.ledger[Claim(d) := row]), Ack(if stale then AckDuplicate else AckDeadLetter))
  {
    if d.conn.value.enabled { AppliedIff(db, d); }
  }

  /** A renewed license: active, with the entitlements and seats of the plan in force, to the end of the paid
      period if one is given. Where the catalog no longer knows the plan, only the status changes. */
  predicate IsRenewal(before: License, after: License, effective: map<string, PlanDef>, periodEnd: Option<int>) {
    && after.status == LicActive
    && after.productId == before.productId && after.planId == before.planId && after.customerId == before.customerId
    && after.transferCount == before.transferCount
    && (if before.planId in effective then
          && after.entitlements == effective[before.planId].entitlements
          && after.maxActivations == effective[before.planId].maxActivations
          && after.expiresAt == (if periodEnd.Some? then periodEnd else before.expiresAt)
        else
          && after.entitlements == before.entitlements && after.maxActivations == before.maxActivations
          && after.expiresAt == before.expiresAt)
  }

  /** Every other row of the table is as it was. */
  ghost predicate OnlyLicense(db: Db, db': Db, id: Id) {
    && db'.licenses.Keys == db.licenses.Keys
    && forall i :: i in db.licenses && i != id ==> db'.licenses[i] == db.licenses[i]
  }

  ghost predicate OnlySub(db: Db, db': Db, key: SubKey) {
    && db'.subs.Keys == db.subs.Keys
    && forall k :: k in db.subs && k != key ==> db'.subs[k] == db.subs[k]
  }

  lemma RenewEffect(db: Db, deps: Deps, key: SubKey, e: Event)
    requires Valid(db) && key in db.subs && db.licenses[db.subs[key].licenseId].status != LicRevoked
    requires UpdateAllowed(e.occurredAt, db.subs[key].lastAppliedAt)
    ensures ApplyRenew(db, deps, key, e).Some?
    ensures var db', id := ApplyRenew(db, deps, key, e).value, db.subs[key].licenseId;
            && OnlyLicense(db, db', id) && OnlySub(db, db', key) && db'.customers == db.customers
            && IsRenewal(db.licenses[id], db'.licenses[id], deps.effective, e.periodEnd)
            && db'.subs[key] == Subscription(id, Active, None, Some(e.occurredAt))
  {
  }

  lemma GraceEffect(db: Db, config: BillingConfig, policy: GracePolicy, key: SubKey, e: Event, cancel: bool, now: int)
    requires Valid(db) && key in db.subs && db.licenses[db.subs[key].licenseId].status != LicRevoked
    requires UpdateAllowed(e.occurredAt, db.subs[key].lastAppliedAt)
    ensures ApplyGrace(db, config, policy, key, e, cancel, now).Some?
    ensures var db', id := ApplyGrace(db, config, policy, key, e, cancel, now).value, db.subs[key].licenseId;
            && db'.licenses == db.licenses && OnlySub(db, db', key) && db'.customers == db.customers
            && db'.subs[key] == Subscription(id, if cancel then Grace else PastDue,
                                             Some(now + ResolveGraceSeconds(config, policy, e.planKey)), Some(e.occurredAt))
  {
  }

  lemma RefundEffect(db: Db, key: SubKey, e: Event)
    requires Valid(db) && key in db.subs && UpdateAllowed(e.occurredAt, db.subs[key].lastAppliedAt)
    ensures ApplyRevoke(db, key, e).Some?
    ensures var db', id := ApplyRevoke(db, key, e).value, db.subs[key].licenseId;
            && OnlyLicense(db, db', id) && OnlySub(db, db', key) && db'.customers == db.customers
            && db'.licenses[id] == db.licenses[id].(status := LicRevoked)
            && db'.subs[key] == Subscription(id, Refunded, None, Some(e.occurredAt))
  {
  }

  /** What an event of this kind makes of a license that is not revoked, or a refund of any. */
  ghost predicate Effect(db: Db, db': Db, key: SubKey, kind: EventKind, deps: Deps, policy: GracePolicy,
                         planKey: Option<string>, periodEnd: Option<int>, occurredAt: int, now: int)
    requires key in db.subs && db.subs[key].licenseId in db.licenses
  {
    var id := db.subs[key].licenseId;
    && OnlyLicense(db, db', id) && OnlySub(db, db', key) && db'.customers == db.customers
    && (match kind
        case Renewed =>
          && IsRenewal(db.licenses[id], db'.licenses[id], deps.effective, periodEnd)
          && db'.subs[key] == Subscription(id, Active, None, Some(occurredAt))
        case PaymentFailed =>
          && db'.licenses[id] == db.licenses[id]
          && db'.subs[key] == Subscription(id, PastDue, Some(now + ResolveGraceSeconds(deps.config, policy, planKey)), Some(occurredAt))
        case CanceledEvent =>
          && db'.licenses[id] == db.licenses[id]
          && db'.subs[key] == Subscription(id, Grace, Some(now + ResolveGraceSeconds(deps.config, policy, planKey)), Some(occurredAt))
        case RefundedEvent =>
          && db'.licenses[id] == db.licenses[id].(status := LicRevoked)
          && db'.subs[key] == Subscription(id, Refunded, None, Some(occurredAt))
        case _ => false)
  }

  lemma ActionEffect(db: Db, deps: Deps, policy: GracePolicy, key: SubKey, e: Event, now: int)
    requires Valid(db) && key in db.subs && e.kind !in {Created, Unknown}
    requires db.licenses[db.subs[key].licenseId].status != LicRevoked || e.kind == RefundedEvent
    requires UpdateAllowed(e.occurredAt, db.subs[key].lastAppliedAt)
    ensures ApplyAction(db, deps, policy, key, e, MapEventToAction(e.kind), now).Some?
    ensures Effect(db, ApplyAction(db, deps, policy, key, e, MapEventToAction(e.kind), now).value, key, e.kind, deps, policy,
                   e.planKey, e.periodEnd, e.occurredAt, now)
  {
    if e.kind == RefundedEvent {
      RefundEffect(db, key, e);
    } else if e.kind == Renewed {
      RenewEffect(db, deps, key, e);
    } else {
      GraceEffect(db, deps.config, policy, key, e, e.kind == CanceledEvent, now);
    }
  }

  /** Every applied delivery that can take effect leaves exactly the rows its kind calls for, and one claim. */
  lemma DeliveredEffect(db: Db, d: Delivery)
    requires Valid(db) && d.body.Some? && d.body.value.kind != Created && Deliver(db, d).1 == Ack(AckApplied)
    requires db.licenses[db.subs[About(d)].licenseId].status != LicRevoked || d.body.value.kind == RefundedEvent
    ensures var e := d.body.value;
            && Effect(db, Deliver(db, d).0, About(d), e.kind, d.deps, d.conn.value.grace, e.planKey, e.periodEnd, e.occurredAt, d.now)
            && Deliver(db, d).0.ledger ==
               db.ledger[Claim(d) := LedgerRow(e.kind, Some(About(d)), e.occurredAt, d.dbNow, Applied, None)]
  {
    hide PlanProvision, ResolveGraceSeconds, RenewedLicense, CreateLinked, IsRenewal;
    AppliedIff(db, d);
    var conn := d.conn.value;
    var e := Stamp(conn, d.body.value);
    var key := About(d);
    var claimed := Record(db, e.LedgerKey(), Row(e, Some(key), d.dbNow, Applied, None));
    SameTablesKeep(db, claimed);
    ActionEffect(claimed, d.deps, conn.grace, key, e, d.now);
    ActionKeepsLedger(claimed, d.deps, conn.grace, key, e, MapEventToAction(e.kind), d.now);
  }

  /** After an applied renewal of a license that was not revoked the customer is not locked out. */
  lemma RenewalActivates(db: Db, d: Delivery)
    requires Valid(db) && d.body.Some? && d.body.value.kind == Renewed && Deliver(db, d).1 == Ack(AckApplied)
    ensures About(d) in db.subs
    ensures var id := db.subs[About(d)].licenseId;
            db.licenses[id].status != LicRevoked ==>
              id in Deliver(db, d).0.licenses &&
              IsRenewal(db.licenses[id], Deliver(db, d).0.licenses[id], d.deps.effective, d.body.value.periodEnd)
  {
    AppliedIff(db, d);
    if db.licenses[db.subs[About(d)].licenseId].status != LicRevoked { DeliveredEffect(db, d); }
  }

  // ---- the grace worker --------------------------------------------------------------------------------

  /** The worker acts on a row exactly when its window has run out and its license is not revoked. */
  lemma SuspendEffect(db: Db, key: SubKey, now: int)
    requires Valid(db) && key in db.subs
    ensures var id, sub := db.subs[key].licenseId, db.subs[key];
            var db' := SuspendElapsed(db, key, now);
            if (sub.state == PastDue || sub.state == Grace) && sub.graceExpiresAt.Some? && sub.graceExpiresAt.value <= now
               && db.licenses[id].status != LicRevoked
            then
              && OnlyLicense(db, db', id) && OnlySub(db, db', key)
              && db'.licenses[id] == db.licenses[id].(status := LicSuspended)
              && db'.subs[key] == Subscription(id, Canceled, None, sub.lastAppliedAt)
              && db'.ledger == db.ledger && db'.customers == db.customers
            else db' == db
  {
  }

  /** A suspension by the worker does not outlast the next applied renewal. */
  lemma SuspendedThenRenewed(db: Db, key: SubKey, now: int, d: Delivery)
    requires Valid(db) && key in db.subs && db.licenses[db.subs[key].licenseId].status != LicRevoked
    requires d.conn.Some? && d.body.Some? && d.body.value.kind == Renewed && d.body.value.externalId.Some? && About(d) == key
    requires Deliver(SuspendElapsed(db, key, now), d).1 == Ack(AckApplied)
    ensures var db' := Deliver(SuspendElapsed(db, key, now), d).0;
            && key in db'.subs && db'.subs[key].state == Active
            && db.subs[key].licenseId in db'.licenses && db'.licenses[db.subs[key].licenseId].status == LicActive
  {
    GraceTickKeeps(db, key, now);
    SuspendEffect(db, key, now);
    DeliveredEffect(SuspendElapsed(db, key, now), d);
  }

  // ---- reconciliation ----------------------------------------------------------------------------------

  /** The provider's view contradicts the overlay, in the cases that a pass corrects. */
  predicate Contradicts(state: BillingState, status: AuthStatus) {
    || (status == AuthRefunded && state != Refunded)
    || (status == AuthActive && state != Active)
    || (status == AuthCanceled && (state == Active || state == PastDue))
    || (status == AuthPastDue && state == Active)
  }

  /** A pass reports a correction exactly when the provider contradicts the overlay, its snapshot is later than
      everything applied, and a grace policy is at hand where one is needed. */
  lemma CorrectedIff(db: Db, deps: Deps, key: SubKey, auth: Snapshot, conn: Option<Connection>, now: int)
    requires Valid(db) && key in db.subs
    ensures ReconcileOne(db, deps, key, auth, conn, now).1 <==>
            && Contradicts(db.subs[key].state, auth.status)
            && (db.subs[key].lastAppliedAt.Some? ==>
                db.subs[key].lastAppliedAt.value < (if auth.occurredAt.Some? then auth.occurredAt.value else now))
            && (auth.status == AuthPastDue || auth.status == AuthCanceled ==> conn.Some?)
  {
    var e := SynthEvent(key, auth, now);
    var policy := if conn.Some? then conn.value.grace else GracePolicy(None, map[]);
    if e.kind == RefundedEvent {
      assert ApplyRevoke(db, key, e).Some?;
    } else if e.kind == Renewed {
      assert ApplyRenew(db, deps, key, e).Some?;
    } else {
      assert ApplyGrace(db, deps.config, policy, key, e, e.kind == CanceledEvent, now).Some?;
    }
  }

  function KindOf(status: AuthStatus): EventKind {
    match status case AuthActive => Renewed case AuthPastDue => PaymentFailed case AuthCanceled => CanceledEvent case AuthRefunded => RefundedEvent
  }

  /** A correction that can take effect leaves exactly the rows that the provider's view calls for. */
  lemma CorrectedEffect(db: Db, deps: Deps, key: SubKey, auth: Snapshot, conn: Option<Connection>, now: int)
    requires Valid(db) && key in db.subs && ReconcileOne(db, deps, key, auth, conn, now).1
    requires db.licenses[db.subs[key].licenseId].status != LicRevoked || auth.status == AuthRefunded
    ensures Effect(db, ReconcileOne(db, deps, key, auth, conn, now).0, key, KindOf(auth.status), deps,
                   if conn.Some? then conn.value.grace else GracePolicy(None, map[]), auth.planKey, auth.periodEnd,
                   if auth.occurredAt.Some? then auth.occurredAt.value else now, now)
  {
    CorrectedIff(db, deps, key, auth, conn, now);
    ActionEffect(db, deps, if conn.Some? then conn.value.grace else GracePolicy(None, map[]), key, SynthEvent(key, auth, now), now);
  }

  // ---- creations -----------------------------------------------------------------------------------------

  /** The plan a creation asks for, through the connection's map. */
  predicate AsksFor(d: Delivery, planId: string)
    requires d.conn.Some? && d.body.Some?
  {
    && d.body.value.planKey.Some? && d.body.value.planKey.value != ""
    && d.body.value.planKey.value in d.conn.value.planMap && d.conn.value.planMap[d.body.value.planKey.value] == planId
  }

  /** A creation grants a license exactly when it is new, names a subscription that is not linked yet, a plan that
      is mapped, known and issuable, and a customer who has not been erased, and the signer works. */
  lemma GrantedIff(db: Db, d: Delivery)
    requires Valid(db) && Reaches(d) && d.body.value.kind == Created
    ensures Deliver(db, d).0.licenses != db.licenses <==>
            && d.body.value.externalId.Some? && d.body.value.externalId.value != "" && About(d) !in db.subs
            && Claim(d) !in db.ledger && d.deps.signer == ReadySigner
            && (exists planId :: AsksFor(d, planId) && planId in d.deps.effective && d.deps.effective[planId].issuable)
            && d.body.value.customerId.Some? && d.body.value.customerId.value != ""
            && (CustomerRef(d.conn.value.provider, d.body.value.customerId.value) in db.customers ==>
                db.customers[CustomerRef(d.conn.value.provider, d.body.value.customerId.value)] == CustomerActive)
  {
    var conn := d.conn.value;
    var e := Stamp(conn, d.body.value);
    if PlanProvision(db, d.deps, conn, e).Grant? {
      var planId := PlanProvision(db, d.deps, conn, e).planId;
      assert AsksFor(d, planId);
      assert db.nextId !in db.licenses;
    }
  }

  /** What it grants: a fresh active license of the mapped plan for the pseudonymous customer, with the plan's
      product, seats and entitlements, linked to the subscription from the event's time on. */
  lemma GrantedEffect(db: Db, d: Delivery, planId: string)
    requires Valid(db) && Reaches(d) && d.body.value.kind == Created && Deliver(db, d).0.licenses != db.licenses
    requires AsksFor(d, planId)
    ensures var e, plan := d.body.value, if planId in d.deps.effective then d.deps.effective[planId] else PlanDef("", false, 0, map[]);
            var db' := Deliver(db, d).0;
            && Deliver(db, d).1 == Ack(AckApplied) && e.customerId.Some? && e.externalId.Some?
            && var ref := CustomerRef(d.conn.value.provider, e.customerId.value);
            && db.nextId !in db.licenses
            && db'.licenses == db.licenses[db.nextId := License(plan.productId, planId, ref, LicActive,
                 if e.periodEnd == Some(0) then None else e.periodEnd, plan.maxActivations, plan.entitlements, 0)]
            && db'.subs == db.subs[About(d) := Subscription(db.nextId, Active, None, Some(e.occurredAt))]
            && db'.customers == (if ref in db.customers then db.customers else db.customers[ref := CustomerActive])
  {
    var e := Stamp(d.conn.value, d.body.value);
    assert PlanProvision(db, d.deps, d.conn.value, e).Grant?;
  }

  /** Distinct customers of a provider, and of different providers, never share a pseudonym. */
  lemma PseudonymsApart(p: Provider, c: string, q: Provider, d: string)
    ensures CustomerRef(p, c) == CustomerRef(q, d) <==> p == q && c == d
  {
    PseudonymTail(p, c);
    PseudonymTail(q, d);
  }

  function TagLength(p: Provider): nat { match p case Stripe => 15 case Paddle => 15 case Generic => 16 }

  lemma PseudonymTail(p: Provider, c: string)
    ensures |CustomerRef(p, c)| == TagLength(p) + |c| && CustomerRef(p, c)[TagLength(p)..] == c
    ensures CustomerRef(p, c)[8] == (match p case Stripe => 's' case Paddle => 'p' case Generic => 'g')
  {
  }

  /** An administrator's issue is refused for the first of five reasons, or adds one active license of the plan,
      with its product, seats and entitlements, for the customer named. */
  lemma IssuedEffect(db: Db, deps: Deps, planId: string, customer: string, expiresAt: Option<int>)
    ensures var (db', fault) := IssueLicense(db, deps, planId, customer, expiresAt);
            if planId !in deps.effective then db' == db && fault == Some(PlanNotFound)
            else if !deps.effective[planId].issuable then db' == db && fault == Some(PlanNotIssuable)
            else if customer !in db.customers then db' == db && fault == Some(CustomerNotFound)
            else if db.customers[customer] != CustomerActive then db' == db && fault == Some(CustomerErased)
            else if deps.signer != ReadySigner then db' == db && fault == Some(SignerUnavailable)
            else
              var plan := deps.effective[planId];
              && fault == None
              && db' == db.(nextId := db.nextId + 1, licenses := db.licenses[db.nextId :=
                   License(plan.productId, planId, customer, LicActive, if expiresAt == Some(0) then None else expiresAt,
                           plan.maxActivations, plan.entitlements, 0)])
  {
  }

  // ---- administrators ------------------------------------------------------------------------------------

  /** Each action, its condition and its whole effect. */
  lemma AdminEffects(db: Db, id: Id, limit: nat, customer: string)
    ensures RevokeLicense(db, id) == if id !in db.licenses then (db, NotFound)
              else (db.(licenses := db.licenses[id := db.licenses[id].(status := LicRevoked)]), Done)
    ensures SuspendLicense(db, id) == if id !in db.licenses then (db, NotFound)
              else if db.licenses[id].status == LicSuspended || db.licenses[id].status == LicRevoked then (db, InvalidTransition)
              else (db.(licenses := db.licenses[id := db.licenses[id].(status := LicSuspended)]), Done)
    ensures ReinstateLicense(db, id) == if id !in db.licenses then (db, NotFound)
              else if db.licenses[id].status == LicActive || db.licenses[id].status == LicRevoked then (db, InvalidTransition)
              else (db.(licenses := db.licenses[id := db.licenses[id].(status := LicActive)]), Done)
    ensures TransferLicense(db, id, limit, customer) ==
              if id !in db.licenses then (db, NotFound)
              else if db.licenses[id].status == LicRevoked then (db, InvalidTransition)
              else if limit <= db.licenses[id].transferCount then (db, TransferLimitExceeded)
              else if customer !in db.customers then (db, NotFound)
              else
                var moved := db.licenses[id].(customerId := customer, transferCount := db.licenses[id].transferCount + 1);
                (db.(licenses := db.licenses[id := moved]), Done)
  {
  }

  /** A suspension undone leaves the tables as they were, and so does a reinstatement undone. */
  lemma SuspendReinstateRoundTrip(db: Db, id: Id)
    ensures SuspendLicense(db, id).1 == Done ==> ReinstateLicense(SuspendLicense(db, id).0, id) == (db, Done)
    ensures ReinstateLicense(db, id).1 == Done ==> SuspendLicense(ReinstateLicense(db, id).0, id) == (db, Done)
  {
    if id in db.licenses {
      var lic := db.licenses[id];
      assert db.licenses[id := lic.(status := LicSuspended)][id := lic] == db.licenses;
      assert db.licenses[id := lic.(status := LicActive)][id := lic] == db.licenses;
    }
  }

  /** Over any number of transfers, to whomever, a license never passes its limit. */
  function TransferAll(db: Db, id: Id, limit: nat, customers: seq<string>): Db
    decreases |customers|
  {
    if customers == [] then db else TransferAll(TransferLicense(db, id, limit, customers[0]).0, id, limit, customers[1..])
  }

  lemma {:induction false} TransfersBounded(db: Db, id: Id, limit: nat, customers: seq<string>)
    requires id in db.licenses
    ensures var db' := TransferAll(db, id, limit, customers);
            && id in db'.licenses
            && db'.licenses[id].transferCount <= (if db.licenses[id].transferCount < limit then limit else db.licenses[id].transferCount)
            && db.licenses[id].transferCount <= db'.licenses[id].transferCount <= db.licenses[id].transferCount + |customers|
            && db'.licenses[id].(customerId := "", transferCount := 0) == db.licenses[id].(customerId := "", transferCount := 0)
            && (db'.licenses[id].customerId != db.licenses[id].customerId ==>
                db'.licenses[id].customerId in db.customers && db'.licenses[id].transferCount > db.licenses[id].transferCount)
            && db'.customers == db.customers
    decreases |customers|
  {
    if customers != [] { TransfersBounded(TransferLicense(db, id, limit, customers[0]).0, id, limit, customers[1..]); }
  }
}
