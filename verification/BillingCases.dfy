/** Concrete tables for behaviour that the general statements only allow for, and what an expiry of zero
    does on its way through issuing, provisioning and renewing. */
module BillingCases {
  import opened Tables
  import opened BillingEvents
  import opened BillingInvariant
  import opened BillingSpec
  import opened BillingExactlyOnce
  import Enforcement
  import Lic1
  import Seats
  import Verifier

  // ---- an expiry of zero ---------------------------------------------------------------------------

  /** The claims that are signed for a license: here the requested expiry is taken as it is. */
  function IssuedClaims(licenseId: string, def: PlanDef, planId: string, customer: string, expiresAt: Option<int>, now: int, nonce: string): Lic1.Claims {
    Lic1.Claims(1, licenseId, def.productId, planId, customer, now, expiresAt, def.maxActivations,
                None, None, None, def.entitlements, None, None, "", nonce)
  }

  /** The issued row expires when the request says, and when its own token does, exactly when the request is
      not the epoch itself. */
  lemma IssuedExpiryIff(db: Db, deps: Deps, planId: string, customer: string, expiresAt: Option<int>, licenseId: string, now: int, nonce: string)
    requires IssueFault(db, deps, planId, customer).None?
    ensures var row := IssueLicense(db, deps, planId, customer, expiresAt).0.licenses[db.nextId];
            var token := IssuedClaims(licenseId, deps.effective[planId], planId, customer, expiresAt, now, nonce);
            && (row.expiresAt == expiresAt <==> expiresAt != Some(0))
            && (row.expiresAt == token.expiresAt <==> expiresAt != Some(0))
  {
  }

  /** At the epoch the two part for good: the server never calls the license expired, the verifier always does. */
  lemma ZeroExpiryParts(db: Db, deps: Deps, planId: string, customer: string, licenseId: string, now: int, nonce: string,
                        act: Seats.Activation, clock: int, opts: Verifier.Options)
    requires IssueFault(db, deps, planId, customer).None?
    ensures var row := IssueLicense(db, deps, planId, customer, Some(0)).0.licenses[db.nextId];
            var token := IssuedClaims(licenseId, deps.effective[planId], planId, customer, Some(0), now, nonce);
            && Enforcement.EvaluateEnforcement(row, act, clock) != Enforcement.ExpiredVerdict
            && (opts.now > 0 && Verifier.InRange(token) ==> Verifier.CheckClaims(token, opts).Refused?)
  {
  }

  /** The same for a license provisioned by an event, while a renewal stores the period end it is given. */
  lemma ProvisionedExpiryIff(db: Db, deps: Deps, conn: Connection, e: Event)
    requires PlanProvision(db, deps, conn, e).Grant?
    ensures var grant := PlanProvision(db, deps, conn, e);
            CreateLinked(db, deps, e, grant.key, grant.planId, grant.customer).licenses[db.nextId].expiresAt == e.periodEnd <==> e.periodEnd != Some(0)
  {
  }

  lemma RenewedExpiry(db: Db, deps: Deps, key: SubKey, e: Event)
    requires Valid(db) && key in db.subs && db.licenses[db.subs[key].licenseId].status != LicRevoked
    requires db.licenses[db.subs[key].licenseId].planId in deps.effective && e.periodEnd.Some?
    ensures var id := db.subs[key].licenseId;
            ApplyRenew(db, deps, key, e).Some? && id in ApplyRenew(db, deps, key, e).value.licenses &&
            ApplyRenew(db, deps, key, e).value.licenses[id].expiresAt == e.periodEnd
  {
  }

  // ---- concrete tables -----------------------------------------------------------------------------

  const PLAN: PlanDef := PlanDef("product", true, 3, map[])
  const CONFIG: BillingConfig := BillingConfig(3600, 604800)
  const DEPS: Deps := Deps(ReadySigner, map["plan" := PLAN], CONFIG)
  const CONN: Connection := Connection(Stripe, true, map["pro" := "plan"], GracePolicy(None, map[]))
  const KEY: SubKey := SubKey(Stripe, "sub")

  function Sample(id: string, kind: EventKind, periodEnd: Option<int>, at: int): Event {
    Event(Stripe, id, kind, Some("sub"), Some("pro"), Some("cus"), periodEnd, at)
  }

  function Sent(e: Event): Delivery { Delivery(Some(CONN), SigOk, Some(e), DEPS, 1000, 1000, false) }

  const EMPTY: Db := Db(map[], map[], map[], map[], 0)

  /** A creation and a renewal with one period end, the epoch: the first grants a license without end, the
      second ends it. */
  lemma ZeroPeriodEnd()
    ensures var created := Deliver(EMPTY, Sent(Sample("a", Created, Some(0), 10)));
            var renewed := Deliver(created.0, Sent(Sample("b", Renewed, Some(0), 20)));
            && created.1 == Ack(AckApplied) && 0 in created.0.licenses && created.0.licenses[0].expiresAt == None
            && renewed.1 == Ack(AckApplied) && 0 in renewed.0.licenses && renewed.0.licenses[0].expiresAt == Some(0)
  {
    CreatedState(Some(0));
  }

  function Linked(expiresAt: Option<int>, status: LicenseStatus): Db {
    Db(map[0 := License("product", "plan", "billing:stripe:cus", status, expiresAt, 3, map[], 0)],
       map[KEY := Subscription(0, Active, None, Some(10))],
       map[LedgerKey(Stripe, "a") := LedgerRow(Created, Some(KEY), 10, 1000, Applied, None)],
       map["billing:stripe:cus" := CustomerActive], 1)
  }

  lemma CreatedState(periodEnd: Option<int>)
    ensures Deliver(EMPTY, Sent(Sample("a", Created, periodEnd, 10))) == (Linked(IssuedExpiry(periodEnd), LicActive), Ack(AckApplied))
  {
    var e := Sample("a", Created, periodEnd, 10);
    assert Stamp(CONN, e) == e;
    assert CustomerRef(Stripe, "cus") == "billing:stripe:cus";
    assert PlanProvision(EMPTY, DEPS, CONN, e) == Grant(KEY, "plan", "billing:stripe:cus");
  }

  /** An event can be acknowledged as applied and change nothing: the license was revoked by hand. */
  lemma AppliedInVain()
    ensures var db := RevokeLicense(Deliver(EMPTY, Sent(Sample("a", Created, None, 10))).0, 0).0;
            var (db', reply) := Deliver(db, Sent(Sample("b", Renewed, None, 20)));
            && Valid(db) && reply == Ack(AckApplied) && db'.ledger[LedgerKey(Stripe, "b")].outcome == Applied
            && db'.subs == db.subs && db'.licenses == db.licenses
  {
    CreatedState(None);
  }

  /** A reconciliation pass can report a correction that it cannot make, again and again. */
  lemma CorrectedInVain()
    ensures var db := RevokeLicense(Deliver(EMPTY, Sent(Sample("a", Created, None, 10))).0, 0).0;
            var auth := Snapshot(AuthPastDue, Some(20), None, Some("pro"));
            var (db1, first) := ReconcileOne(db, DEPS, KEY, auth, Some(CONN), 1000);
            var (db2, second) := ReconcileOne(db1, DEPS, KEY, auth, Some(CONN), 2000);
            Valid(db) && first && second && db1 == db && db2 == db
  {
    CreatedState(None);
  }
}
