/** Canonical billing events, the decisions that depend on nothing but their arguments, and the
    configuration clamps (events.ts, config.ts and the pure half of reconcile-worker.ts). */
module BillingEvents {
  import opened Tables

  /** A window that the configuration loader has already forced to be positive. */
  type PosSecs = n: int | 0 < n witness 1

  datatype Event = Event(
    provider: Provider,
    eventId: string,
    kind: EventKind,
    externalId: Option<string>,
    planKey: Option<string>,
    customerId: Option<string>,
    periodEnd: Option<int>,
    occurredAt: int)
  {
    function LedgerKey(): LedgerKey { Tables.LedgerKey(provider, eventId) }
  }

  datatype Action = Provision | Renew | PastDueAction | Cancel | Revoke | Ignore

  function MapEventToAction(kind: EventKind): Action {
    match kind
    case Created => Provision
    case Renewed => Renew
    case PaymentFailed => PastDueAction
    case CanceledEvent => Cancel
    case RefundedEvent => Revoke
    case Unknown => Ignore
  }

  /** The source tests optional strings for truthiness, so the empty string counts as absent. */
  predicate Present(s: Option<string>) { s.Some? && s.value != "" }

  predicate IsStaleEvent(occurredAt: int, anchor: Option<int>) {
    anchor.Some? && occurredAt <= anchor.value
  }

  /** The guard of the SQL update in `applySubscriptionState`. */
  predicate UpdateAllowed(occurredAt: int, anchor: Option<int>) {
    anchor.None? || anchor.value < occurredAt
  }

  datatype GracePolicy = GracePolicy(defaultGrace: Option<int>, overrides: map<string, int>)

  const IDEMPOTENCY_FLOOR_SECS := 172_800

  datatype BillingConfig = BillingConfig(defaultGraceSeconds: PosSecs, ledgerRetentionSecs: int)

  /** Never zero or negative: the plan's own positive override, else the connection's positive default, else
      the server's. */
  function ResolveGraceSeconds(config: BillingConfig, policy: GracePolicy, planKey: Option<string>): (r: PosSecs)
    ensures (exists key :: planKey == Some(key) && key != "" && key in policy.overrides && 0 < policy.overrides[key] && r == policy.overrides[key])
         || ((planKey.None? || planKey.value == "" || planKey.value !in policy.overrides || policy.overrides[planKey.value] <= 0)
             && (if policy.defaultGrace.Some? && 0 < policy.defaultGrace.value then r == policy.defaultGrace.value
                 else r == config.defaultGraceSeconds))
  {
    if Present(planKey) && planKey.value in policy.overrides && 0 < policy.overrides[planKey.value] then
      policy.overrides[planKey.value]
    else if policy.defaultGrace.Some? && 0 < policy.defaultGrace.value then policy.defaultGrace.value
    else config.defaultGraceSeconds
  }

  /** The retention horizon is always strictly above the redelivery floor, and no longer than that
      or what was asked for. */
  function ResolveLedgerRetentionSecs(requested: int): (r: int)
    ensures IDEMPOTENCY_FLOOR_SECS < r
    ensures requested <= r
    ensures r == requested || r == IDEMPOTENCY_FLOOR_SECS + 1
  {
    var floor := IDEMPOTENCY_FLOOR_SECS + 1;
    if requested > floor then requested else floor
  }

  /** The provider's authoritative view of one subscription, as a reconcile pass fetches it. */
  datatype AuthStatus = AuthActive | AuthPastDue | AuthCanceled | AuthRefunded
  datatype Snapshot = Snapshot(
    status: AuthStatus,
    occurredAt: Option<int>,
    periodEnd: Option<int>,
    planKey: Option<string>)

  function StatusToKind(status: AuthStatus): EventKind {
    match status
    case AuthActive => Renewed
    case AuthPastDue => PaymentFailed
    case AuthCanceled => CanceledEvent
    case AuthRefunded => RefundedEvent
  }

  predicate DriftsTo(local: BillingState, status: AuthStatus) {
    match status
    case AuthRefunded => local != Refunded
    case AuthActive => local != Active
    case AuthCanceled => local == Active || local == PastDue
    case AuthPastDue => local == Active
  }

  function SnapshotTime(auth: Snapshot, now: int): int {
    if auth.occurredAt.Some? then auth.occurredAt.value else now
  }

  /** The event that drives a correction. It never reaches the ledger. */
  function SynthEvent(key: SubKey, auth: Snapshot, now: int): Event {
    Event(key.provider, "reconcile:" + key.externalId, StatusToKind(auth.status), Some(key.externalId),
          auth.planKey, None, auth.periodEnd, SnapshotTime(auth, now))
  }

  datatype Connection = Connection(
    provider: Provider,
    enabled: bool,
    planMap: map<string, string>,
    grace: GracePolicy)

  datatype Signer = NoSigner | FaultySigner | ReadySigner

  /** What the server was started with, and what the catalog says at the moment of the call. */
  datatype Deps = Deps(signer: Signer, effective: map<string, PlanDef>, config: BillingConfig)
}
