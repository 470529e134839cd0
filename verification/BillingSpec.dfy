/** What one transaction does to the tables: the functions the methods of `Billing.Tenant` are
    proved against, and the ones every statement about runs is made over. */
module BillingSpec {
  import opened Tables
  import opened BillingEvents

  // ---- issuance/lifecycle.ts -----------------------------------------------------------------

  datatype Transition = Done | NotFound | InvalidTransition | TransferLimitExceeded

  function SetStatus(db: Db, id: Id, status: LicenseStatus): Db
    requires id in db.licenses
  {
    db.(licenses := db.licenses[id := db.licenses[id].(status := status)])
  }

  function RevokeLicense(db: Db, id: Id): (Db, Transition) {
    if id !in db.licenses then (db, NotFound) else (SetStatus(db, id, LicRevoked), Done)
  }

  function SuspendLicense(db: Db, id: Id): (Db, Transition) {
    if id !in db.licenses then (db, NotFound)
    else if db.licenses[id].status != LicActive then (db, InvalidTransition)
    else (SetStatus(db, id, LicSuspended), Done)
  }

  function ReinstateLicense(db: Db, id: Id): (Db, Transition) {
    if id !in db.licenses then (db, NotFound)
    else if db.licenses[id].status != LicSuspended then (db, InvalidTransition)
    else (SetStatus(db, id, LicActive), Done)
  }

  function TransferLicense(db: Db, id: Id, limit: nat, customer: string): (Db, Transition) {
    if id !in db.licenses then (db, NotFound)
    else
      var lic := db.licenses[id];
      if lic.status == LicRevoked then (db, InvalidTransition)
      else if lic.transferCount >= limit then (db, TransferLimitExceeded)
      else if customer !in db.customers then (db, NotFound)
      else (db.(licenses := db.licenses[id := lic.(customerId := customer, transferCount := lic.transferCount + 1)]), Done)
  }

  // ---- issuance/licenses.ts ------------------------------------------------------------------

  datatype Fault =
    | ConnectionNotFound | InvalidSignature | StaleTimestamp | MalformedBody
    | SignerUnavailable | PlanNotFound | PlanNotIssuable | CustomerNotFound | CustomerErased | LicenseMissing

  /** Why an issue would be refused, in the order the source checks. */
  function IssueFault(db: Db, deps: Deps, planId: string, customer: string): Option<Fault> {
    if planId !in deps.effective then Some(PlanNotFound)
    else if !deps.effective[planId].issuable then Some(PlanNotIssuable)
    else if customer !in db.customers then Some(CustomerNotFound)
    else if db.customers[customer] != CustomerActive then Some(CustomerErased)
    else if !deps.signer.ReadySigner? then Some(SignerUnavailable)
    else None
  }

  /** The issue path treats an expiry of zero seconds as no expiry. */
  function IssuedExpiry(expiresAt: Option<int>): Option<int> {
    if expiresAt == Some(0) then None else expiresAt
  }

  function FreshLicense(def: PlanDef, planId: string, customer: string, expiresAt: Option<int>): License {
    License(def.productId, planId, customer, LicActive, IssuedExpiry(expiresAt), def.maxActivations, def.entitlements, 0)
  }

  function IssueLicense(db: Db, deps: Deps, planId: string, customer: string, expiresAt: Option<int>): (r: (Db, Option<Fault>)) {
    var fault := IssueFault(db, deps, planId, customer);
    if fault.Some? then (db, fault)
    else
      var lic := FreshLicense(deps.effective[planId], planId, customer, expiresAt);
      (db.(licenses := db.licenses[db.nextId := lic], nextId := db.nextId + 1), None)
  }

  // ---- ledger-repo.ts ------------------------------------------------------------------------

  function Row(e: Event, sub: Option<SubKey>, receivedAt: int, outcome: EventOutcome, reason: Option<string>): LedgerRow {
    LedgerRow(e.kind, sub, e.occurredAt, receivedAt, outcome, reason)
  }

  function Record(db: Db, key: LedgerKey, row: LedgerRow): Db {
    if key in db.ledger then db else db.(ledger := db.ledger[key := row])
  }

  function PruneEvents(db: Db, olderThan: int): Db {
    db.(ledger := map key | key in db.ledger && olderThan <= db.ledger[key].receivedAt :: db.ledger[key])
  }

  function PruneLedger(db: Db, config: BillingConfig, now: int): Db {
    PruneEvents(db, now - ResolveLedgerRetentionSecs(config.ledgerRetentionSecs))
  }

  // ---- subscription-repo.ts ------------------------------------------------------------------

  /** The overlay moves only under the recency guard, and the link never does. */
  function SetState(db: Db, key: SubKey, state: BillingState, grace: Option<int>, occurredAt: int): Db {
    if key in db.subs && UpdateAllowed(occurredAt, db.subs[key].lastAppliedAt) then
      db.(subs := db.subs[key := db.subs[key].(state := state, graceExpiresAt := grace, lastAppliedAt := Some(occurredAt))])
    else db
  }

  predicate Linkable(db: Db, key: SubKey, licenseId: Id) {
    key !in db.subs && forall k :: k in db.subs ==> db.subs[k].licenseId != licenseId
  }

  // ---- billing/lifecycle.ts ------------------------------------------------------------------

  /** The customer a provisioned license is issued under. */
  function CustomerRef(provider: Provider, customerId: string): string {
    var tag := match provider case Stripe => "stripe" case Paddle => "paddle" case Generic => "generic";
    "billing:" + tag + ":" + customerId
  }

  function WithCustomer(db: Db, ref: string): Db {
    if ref in db.customers then db else db.(customers := db.customers[ref := CustomerActive])
  }

  datatype Provisioning = Unmapped | Refused(fault: Fault) | Grant(key: SubKey, planId: string, customer: string)

  /** What a creation event asks for when no subscription is linked yet. */
  function PlanProvision(db: Db, deps: Deps, conn: Connection, e: Event): Provisioning {
    if !Present(e.externalId) || !Present(e.planKey) || e.planKey.value !in conn.planMap then Unmapped
    else if deps.signer.NoSigner? then Refused(SignerUnavailable)
    else if !Present(e.customerId) then Unmapped
    else
      var planId := conn.planMap[e.planKey.value];
      var ref := CustomerRef(conn.provider, e.customerId.value);
      var fault := IssueFault(WithCustomer(db, ref), deps, planId, ref);
      if fault.Some? then Refused(fault.value)
      else Grant(SubKey(conn.provider, e.externalId.value), planId, ref)
  }

  /** A granted creation: the customer, the license and the one-to-one link. */
  function CreateLinked(db: Db, deps: Deps, e: Event, key: SubKey, planId: string, customer: string): Db
    requires planId in deps.effective
  {
    var lic := FreshLicense(deps.effective[planId], planId, customer, e.periodEnd);
    WithCustomer(db, customer).(
      licenses := db.licenses[db.nextId := lic],
      subs := db.subs[key := Subscription(db.nextId, Active, None, Some(e.occurredAt))],
      nextId := db.nextId + 1)
  }

  /** The status a renewal leaves behind: a suspended license recovers. */
  function RenewedLicense(lic: License, deps: Deps, periodEnd: Option<int>): License {
    var awake := lic.(status := LicActive);
    if lic.planId !in deps.effective then awake
    else
      var def := deps.effective[lic.planId];
      awake.(entitlements := def.entitlements,
             maxActivations := def.maxActivations,
             expiresAt := if periodEnd.Some? then periodEnd else lic.expiresAt)
  }

  /** None: the linked license is gone and the call throws. */
  function ApplyRenew(db: Db, deps: Deps, key: SubKey, e: Event): Option<Db>
    requires key in db.subs
  {
    var id := db.subs[key].licenseId;
    if id !in db.licenses then None
    else if db.licenses[id].status == LicRevoked then Some(db)
    else
      var db1 := db.(licenses := db.licenses[id := RenewedLicense(db.licenses[id], deps, e.periodEnd)]);
      Some(SetState(db1, key, Active, None, e.occurredAt))
  }

  function GraceDeadline(config: BillingConfig, policy: GracePolicy, planKey: Option<string>, now: int): int {
    now + ResolveGraceSeconds(config, policy, planKey)
  }

  function ApplyGrace(db: Db, config: BillingConfig, policy: GracePolicy, key: SubKey, e: Event, cancel: bool, now: int): Option<Db>
    requires key in db.subs
  {
    var id := db.subs[key].licenseId;
    if id !in db.licenses then None
    else if db.licenses[id].status == LicRevoked then Some(db)
    else Some(SetState(db, key, if cancel then Grace else PastDue,
                       Some(GraceDeadline(config, policy, e.planKey, now)), e.occurredAt))
  }

  function ApplyRevoke(db: Db, key: SubKey, e: Event): Option<Db>
    requires key in db.subs
  {
    var id := db.subs[key].licenseId;
    if id !in db.licenses then None
    else Some(SetState(SetStatus(db, id, LicRevoked), key, Refunded, None, e.occurredAt))
  }

  /** The side effect of an action other than provision and ignore. */
  function ApplyAction(db: Db, deps: Deps, policy: GracePolicy, key: SubKey, e: Event, action: Action, now: int): Option<Db>
    requires key in db.subs
    requires action in {Renew, PastDueAction, Cancel, Revoke}
  {
    match action
    case Renew => ApplyRenew(db, deps, key, e)
    case Revoke => ApplyRevoke(db, key, e)
    case _ => ApplyGrace(db, deps.config, policy, key, e, action == Cancel, now)
  }

  // ---- webhook.ts ----------------------------------------------------------------------------

  datatype AckOutcome = AckApplied | AckDuplicate | AckDeadLetter
  datatype Reply = Ack(outcome: AckOutcome) | Failed(fault: Fault)

  datatype SignatureCheck = SigOk | SigBad | SigStale

  /** One HTTP delivery. `resolveMissed` says that the read which looks the subscription up ran
      before a concurrent creation of it committed, as read-committed isolation allows. */
  datatype Delivery = Delivery(
    conn: Option<Connection>,
    signature: SignatureCheck,
    body: Option<Event>,
    deps: Deps,
    now: int,
    dbNow: int,
    resolveMissed: bool)

  /** The adapter of a connection stamps its own provider on what it parses. */
  function Stamp(conn: Connection, e: Event): Event { e.(provider := conn.provider) }

  function DeadLettered(db: Db, e: Event, sub: Option<SubKey>, dbNow: int, reason: string): (Db, Reply) {
    if e.LedgerKey() in db.ledger then (db, Ack(AckDuplicate))
    else (Record(db, e.LedgerKey(), Row(e, sub, dbNow, DeadLetter, Some(reason))), Ack(AckDeadLetter))
  }

  /** The subscription the event is about, as the transaction sees it. */
  function Resolve(db: Db, e: Event, missed: bool): Option<SubKey> {
    if Present(e.externalId) && SubKey(e.provider, e.externalId.value) in db.subs && !missed
    then Some(SubKey(e.provider, e.externalId.value))
    else None
  }

  function Dispatch(db: Db, d: Delivery, conn: Connection, e: Event): (Db, Reply) {
    var sub := Resolve(db, e, d.resolveMissed);
    var key := e.LedgerKey();
    var applied := Row(e, sub, d.dbNow, Applied, None);
    var action := MapEventToAction(e.kind);
    if action == Provision then
      if sub.Some? then
        if key in db.ledger then (db, Ack(AckDuplicate)) else (Record(db, key, applied), Ack(AckApplied))
      else
        match PlanProvision(db, d.deps, conn, e)
        case Unmapped => DeadLettered(db, e, None, d.dbNow, "unmapped_event")
        case Refused(fault) => (db, Failed(fault))
        case Grant(subKey, planId, customer) =>
          if subKey in db.subs || key in db.ledger then (db, Ack(AckDuplicate))
          else
            var created := CreateLinked(db, d.deps, e, subKey, planId, customer);
            (Record(created, key, Row(e, Some(subKey), d.dbNow, Applied, None)), Ack(AckApplied))
    else if sub.None? then DeadLettered(db, e, None, d.dbNow, "unmapped_event")
    else if IsStaleEvent(e.occurredAt, db.subs[sub.value].lastAppliedAt) then
      (Record(db, key, Row(e, sub, d.dbNow, Rejected, Some("stale_event"))), Ack(AckDuplicate))
    else if action == Ignore then DeadLettered(db, e, sub, d.dbNow, "unmapped_event")
    else if key in db.ledger then (db, Ack(AckDuplicate))
    else
      match ApplyAction(Record(db, key, applied), d.deps, conn.grace, sub.value, e, action, d.now)
      case None => (db, Failed(LicenseMissing))
      case Some(db') => (db', Ack(AckApplied))
  }

  function Deliver(db: Db, d: Delivery): (Db, Reply) {
    if d.conn.None? then (db, Failed(ConnectionNotFound))
    else if d.signature.SigStale? then (db, Failed(StaleTimestamp))
    else if d.signature.SigBad? then (db, Failed(InvalidSignature))
    else if d.body.None? then (db, Failed(MalformedBody))
    else
      var conn := d.conn.value;
      var e := Stamp(conn, d.body.value);
      if !conn.enabled then DeadLettered(db, e, None, d.dbNow, "connection_disabled")
      else Dispatch(db, d, conn, e)
  }

  // ---- grace-worker.ts -----------------------------------------------------------------------

  predicate Elapsed(sub: Subscription, now: int) {
    sub.state in {PastDue, Grace} && sub.graceExpiresAt.Some? && sub.graceExpiresAt.value <= now
  }

  function SuspendElapsed(db: Db, key: SubKey, now: int): Db {
    if key !in db.subs || !Elapsed(db.subs[key], now) then db
    else
      var sub := db.subs[key];
      if sub.licenseId !in db.licenses || db.licenses[sub.licenseId].status == LicRevoked then db
      else
        var db1 := if db.licenses[sub.licenseId].status == LicActive then SetStatus(db, sub.licenseId, LicSuspended) else db;
        db1.(subs := db1.subs[key := sub.(state := Canceled, graceExpiresAt := None)])
  }

  // ---- reconcile-worker.ts -------------------------------------------------------------------

  /** True: the pass counts a correction. */
  function ReconcileOne(db: Db, deps: Deps, key: SubKey, auth: Snapshot, conn: Option<Connection>, now: int): (Db, bool) {
    if key !in db.subs then (db, false)
    else if IsStaleEvent(SnapshotTime(auth, now), db.subs[key].lastAppliedAt) then (db, false)
    else if !DriftsTo(db.subs[key].state, auth.status) then (db, false)
    else
      var e := SynthEvent(key, auth, now);
      var action := MapEventToAction(e.kind);
      if action in {PastDueAction, Cancel} && conn.None? then (db, false)
      else
        var policy := if conn.Some? then conn.value.grace else GracePolicy(None, map[]);
        match ApplyAction(db, deps, policy, key, e, action, now)
        case None => (db, false)
        case Some(db') => (db', true)
  }
}
