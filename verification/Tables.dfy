/** The rows of one tenant's database that billing, issuance and enforcement share.

    A table is a map from its unique key to its row, so the unique constraints of the schema are
    the map's own. Identifiers that the server draws at random are drawn from a counter here;
    only their freshness matters. All times are whole epoch seconds. */
module Tables {

  datatype Option<+T> = None | Some(value: T)

  type Id = nat

  datatype EntValue = Flag(on: bool) | Limit(n: int)

  datatype LicenseStatus = LicActive | LicSuspended | LicRevoked

  datatype License = License(
    productId: string,
    planId: string,
    customerId: string,
    status: LicenseStatus,
    expiresAt: Option<int>,
    maxActivations: nat,
    entitlements: map<string, EntValue>,
    transferCount: nat)

  datatype CustomerStatus = CustomerActive | CustomerAnonymized

  /** What the catalog currently says about a plan (`getEffectivePlanDefinition`). */
  datatype PlanDef = PlanDef(
    productId: string,
    issuable: bool,
    maxActivations: nat,
    entitlements: map<string, EntValue>)

  datatype BillingState = Active | PastDue | Grace | Canceled | Refunded

  datatype Provider = Stripe | Paddle | Generic

  /** The unique key of a subscription: provider and the provider's own subscription id. */
  datatype SubKey = SubKey(provider: Provider, externalId: string)

  datatype Subscription = Subscription(
    licenseId: Id,
    state: BillingState,
    graceExpiresAt: Option<int>,
    lastAppliedAt: Option<int>)

  /** The idempotency key of the billing-event ledger. */
  datatype LedgerKey = LedgerKey(provider: Provider, eventId: string)

  datatype EventOutcome = Applied | DeadLetter | Rejected

  datatype LedgerRow = LedgerRow(
    kind: EventKind,
    subscription: Option<SubKey>,
    occurredAt: int,
    receivedAt: int,
    outcome: EventOutcome,
    reason: Option<string>)

  datatype EventKind = Created | Renewed | PaymentFailed | CanceledEvent | RefundedEvent | Unknown

  datatype Db = Db(
    licenses: map<Id, License>,
    subs: map<SubKey, Subscription>,
    ledger: map<LedgerKey, LedgerRow>,
    customers: map<string, CustomerStatus>,
    nextId: Id)
}
