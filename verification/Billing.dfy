/** The billing, issuance and worker services over one tenant's tables, as they update them. */
module Billing {
  import opened Tables
  import opened BillingEvents
  import opened BillingInvariant
  import Spec = BillingSpec

  /** What a step of a webhook transaction ends with: it goes on to commit, or it throws. */
  datatype Tx<+T> = Ok(value: T) | DuplicateRollback | Throws(fault: Spec.Fault)

  datatype ProvisionResult = ProvisionedAs(key: SubKey) | ProvisionUnmapped | ProvisionDuplicate

  /** What the provider answered about one reconcile candidate. */
  datatype Fetch = Found(auth: Snapshot) | NoRecord | Unreachable

  class Tenant {
    var licenses: map<Id, License>
    var subs: map<SubKey, Subscription>
    var ledger: map<LedgerKey, LedgerRow>
    var customers: map<string, CustomerStatus>
    var nextId: Id

    function View(): Db
      reads this
    {
      Db(licenses, subs, ledger, customers, nextId)
    }

    constructor ()
      ensures View() == Db(map[], map[], map[], map[], 0)
    {
      licenses, subs, ledger, customers, nextId := map[], map[], map[], map[], 0;
    }

    /** Undo every write since `saved` was taken, as an aborted transaction does. */
    method Restore(saved: Db)
      modifies this
      ensures View() == saved
    {
      licenses, subs, ledger := saved.licenses, saved.subs, saved.ledger;
      customers, nextId := saved.customers, saved.nextId;
    }

    // ---- issuance/lifecycle.ts ---------------------------------------------------------------

    method RevokeLicense(id: Id) returns (r: Spec.Transition)
      modifies this`licenses
      ensures (View(), r) == Spec.RevokeLicense(old(View()), id)
    {
      if id !in licenses { return Spec.NotFound; }
      var cur := licenses[id];
      if cur.status == LicRevoked {
        assert licenses[id := cur] == licenses;
        return Spec.Done;
      }
      licenses := licenses[id := cur.(status := LicRevoked)];
      r := Spec.Done;
    }

    method SuspendLicense(id: Id) returns (r: Spec.Transition)
      modifies this`licenses
      ensures (View(), r) == Spec.SuspendLicense(old(View()), id)
    {
      if id !in licenses { return Spec.NotFound; }
      if licenses[id].status != LicActive { return Spec.InvalidTransition; }
      licenses := licenses[id := licenses[id].(status := LicSuspended)];
      r := Spec.Done;
    }

    method ReinstateLicense(id: Id) returns (r: Spec.Transition)
      modifies this`licenses
      ensures (View(), r) == Spec.ReinstateLicense(old(View()), id)
    {
      if id !in licenses { return Spec.NotFound; }
      if licenses[id].status != LicSuspended { return Spec.InvalidTransition; }
      licenses := licenses[id := licenses[id].(status := LicActive)];
      r := Spec.Done;
    }

    method TransferLicense(id: Id, limit: nat, customer: string) returns (r: Spec.Transition)
      modifies this`licenses
      ensures (View(), r) == Spec.TransferLicense(old(View()), id, limit, customer)
    {
      if id !in licenses { return Spec.NotFound; }
      var cur := licenses[id];
      if cur.status == LicRevoked { return Spec.InvalidTransition; }
      if cur.transferCount >= limit { return Spec.TransferLimitExceeded; }
      if customer !in customers { return Spec.NotFound; }
      licenses := licenses[id := cur.(customerId := customer, transferCount := cur.transferCount + 1)];
      r := Spec.Done;
    }

    // ---- issuance/licenses.ts ----------------------------------------------------------------

    method IssueLicense(deps: Deps, planId: string, customer: string, expiresAt: Option<int>)
      returns (r: Tx<Id>)
      modifies this`licenses, this`nextId
      ensures var (db, fault) := Spec.IssueLicense(old(View()), deps, planId, customer, expiresAt);
              View() == db && r == if fault.Some? then Throws(fault.value) else Ok(old(nextId))
    {
      if planId !in deps.effective { return Throws(Spec.PlanNotFound); }
      var eff := deps.effective[planId];
      if !eff.issuable { return Throws(Spec.PlanNotIssuable); }
      if customer !in customers { return Throws(Spec.CustomerNotFound); }
      if customers[customer] != CustomerActive { return Throws(Spec.CustomerErased); }
      if !deps.signer.ReadySigner? { return Throws(Spec.SignerUnavailable); }
      var id := nextId;
      nextId := nextId + 1;
      licenses := licenses[id := Spec.FreshLicense(eff, planId, customer, expiresAt)];
      r := Ok(id);
    }

    // ---- ledger-repo.ts ----------------------------------------------------------------------

    /** Insert unless the event id is already there; true means it was. */
    method RecordEvent(key: LedgerKey, row: LedgerRow) returns (duplicate: bool)
      modifies this`ledger
      ensures duplicate == (key in old(ledger))
      ensures View() == Spec.Record(old(View()), key, row)
    {
      duplicate := key in ledger;
      if !duplicate {
        ledger := ledger[key := row];
      }
    }

    method PruneBillingEvents(olderThan: int) returns (deleted: nat)
      modifies this`ledger
      ensures View() == Spec.PruneEvents(old(View()), olderThan)
      ensures deleted == |old(ledger)| - |ledger|
    {
      var kept := map key | key in ledger && olderThan <= ledger[key].receivedAt :: ledger[key];
      MapSubsetSize(kept, ledger);
      deleted := |ledger| - |kept|;
      ledger := kept;
    }

    method PruneBillingLedger(config: BillingConfig, now: int) returns (deleted: nat)
      modifies this`ledger
      ensures View() == Spec.PruneLedger(old(View()), config, now)
      ensures deleted == |old(ledger)| - |ledger|
    {
      var retention := ResolveLedgerRetentionSecs(config.ledgerRetentionSecs);
      deleted := PruneBillingEvents(now - retention);
    }

    // ---- subscription-repo.ts ----------------------------------------------------------------

    /** Insert the link; true means one of its two unique keys was taken. */
    method LinkSubscription(key: SubKey, licenseId: Id, occurredAt: int) returns (duplicate: bool)
      modifies this`subs
      ensures duplicate == !Spec.Linkable(old(View()), key, licenseId)
      ensures subs == if duplicate then old(subs)
                      else old(subs)[key := Subscription(licenseId, Active, None, Some(occurredAt))]
    {
      duplicate := key in subs || exists k | k in subs :: subs[k].licenseId == licenseId;
      if !duplicate {
        subs := subs[key := Subscription(licenseId, Active, None, Some(occurredAt))];
      }
    }

    method ApplySubscriptionState(key: SubKey, state: BillingState, grace: Option<int>, occurredAt: int)
      returns (updated: bool)
      modifies this`subs
      ensures View() == Spec.SetState(old(View()), key, state, grace, occurredAt)
      ensures updated == (key in old(subs) && UpdateAllowed(occurredAt, old(subs)[key].lastAppliedAt))
    {
      updated := key in subs && (subs[key].lastAppliedAt.None? || subs[key].lastAppliedAt.value < occurredAt);
      if updated {
        var row := subs[key];
        subs := subs[key := Subscription(row.licenseId, state, grace, Some(occurredAt))];
      }
    }

    // ---- billing/lifecycle.ts ----------------------------------------------------------------

    /** Upsert the pseudonymous customer of a provisioned license. */
    method ResolveCustomer(provider: Provider, customerId: string) returns (ref: string)
      modifies this`customers
      ensures ref == Spec.CustomerRef(provider, customerId)
      ensures View() == Spec.WithCustomer(old(View()), ref)
    {
      ref := Spec.CustomerRef(provider, customerId);
      if ref !in customers {
        customers := customers[ref := CustomerActive];
      }
    }

    /** Create the license and the link for a subscription that is not linked yet. */
    method ApplyProvision(deps: Deps, conn: Connection, e: Event) returns (r: Tx<ProvisionResult>)
      requires Valid(View())
      modifies this
      ensures match Spec.PlanProvision(old(View()), deps, conn, e)
              case Unmapped => r == Ok(ProvisionUnmapped) && View() == old(View())
              case Refused(fault) => r == Throws(fault)
              case Grant(key, planId, customer) =>
                r == Ok(if key in old(subs) then ProvisionDuplicate else ProvisionedAs(key)) &&
                (key !in old(subs) ==> View() == Spec.CreateLinked(old(View()), deps, e, key, planId, customer))
    {
      if !Present(e.externalId) || !Present(e.planKey) || e.planKey.value !in conn.planMap {
        return Ok(ProvisionUnmapped);
      }
      if deps.signer.NoSigner? { return Throws(Spec.SignerUnavailable); }
      if !Present(e.customerId) { return Ok(ProvisionUnmapped); }
      var ref := ResolveCustomer(conn.provider, e.customerId.value);
      var issued := IssueLicense(deps, conn.planMap[e.planKey.value], ref, e.periodEnd);
      match issued
      case Throws(fault) => return Throws(fault);
      case DuplicateRollback => return DuplicateRollback;
      case Ok(id) =>
        var key := SubKey(conn.provider, e.externalId.value);
        var duplicate := LinkSubscription(key, id, e.occurredAt);
        return Ok(if duplicate then ProvisionDuplicate else ProvisionedAs(key));
    }

    method ApplyRenew(deps: Deps, key: SubKey, e: Event) returns (r: Tx<()>)
      requires key in subs
      modifies this`licenses, this`subs
      ensures match Spec.ApplyRenew(old(View()), deps, key, e)
              case None => r == Throws(Spec.LicenseMissing) && View() == old(View())
              case Some(db) => r == Ok(()) && View() == db
    {
      var id := subs[key].licenseId;
      if id !in licenses { return Throws(Spec.LicenseMissing); }
      var lic := licenses[id];
      if lic.status == LicRevoked { return Ok(()); }
      if lic.status == LicSuspended {
        var _ := ReinstateLicense(id);
      }
      if lic.planId in deps.effective {
        var eff := deps.effective[lic.planId];
        var expiresAt := licenses[id].expiresAt;
        if e.periodEnd.Some? { expiresAt := e.periodEnd; }
        licenses := licenses[id := licenses[id].(entitlements := eff.entitlements,
                                                 maxActivations := eff.maxActivations,
                                                 expiresAt := expiresAt)];
      }
      assert licenses == old(licenses)[id := Spec.RenewedLicense(lic, deps, e.periodEnd)];
      var _ := ApplySubscriptionState(key, Active, None, e.occurredAt);
      r := Ok(());
    }

    method ApplyGrace(config: BillingConfig, policy: GracePolicy, key: SubKey, e: Event, cancel: bool, now: int)
      returns (r: Tx<()>)
      requires key in subs
      modifies this`subs
      ensures match Spec.ApplyGrace(old(View()), config, policy, key, e, cancel, now)
              case None => r == Throws(Spec.LicenseMissing) && View() == old(View())
              case Some(db) => r == Ok(()) && View() == db
    {
      var id := subs[key].licenseId;
      if id !in licenses { return Throws(Spec.LicenseMissing); }
      if licenses[id].status == LicRevoked { return Ok(()); }
      var graceSeconds := ResolveGraceSeconds(config, policy, e.planKey);
      var _ := ApplySubscriptionState(key, if cancel then Grace else PastDue, Some(now + graceSeconds), e.occurredAt);
      r := Ok(());
    }

    method ApplyRevoke(key: SubKey, e: Event) returns (r: Tx<()>)
      requires key in subs
      modifies this`licenses, this`subs
      ensures match Spec.ApplyRevoke(old(View()), key, e)
              case None => r == Throws(Spec.LicenseMissing) && View() == old(View())
              case Some(db) => r == Ok(()) && View() == db
    {
      var id := subs[key].licenseId;
      if id !in licenses { return Throws(Spec.LicenseMissing); }
      if licenses[id].status != LicRevoked {
        var _ := RevokeLicense(id);
      }
      assert licenses == Spec.SetStatus(old(View()), id, LicRevoked).licenses;
      var _ := ApplySubscriptionState(key, Refunded, None, e.occurredAt);
      r := Ok(());
    }

    // ---- webhook.ts --------------------------------------------------------------------------

    method Dead(e: Event, sub: Option<SubKey>, dbNow: int, reason: string) returns (ack: Spec.AckOutcome)
      modifies this`ledger
      ensures (View(), Spec.Ack(ack)) == Spec.DeadLettered(old(View()), e, sub, dbNow, reason)
    {
      var duplicate := RecordEvent(e.LedgerKey(), Spec.Row(e, sub, dbNow, DeadLetter, Some(reason)));
      ack := if duplicate then Spec.AckDuplicate else Spec.AckDeadLetter;
    }

    /** Claim and apply one verified event. The tables are meaningful only when the result is Ok. */
    method Dispatch(d: Spec.Delivery, conn: Connection, e: Event) returns (r: Tx<Spec.AckOutcome>)
      requires Valid(View()) && e.provider == conn.provider
      modifies this
      ensures var (db, reply) := Spec.Dispatch(old(View()), d, conn, e);
              match r
              case Ok(ack) => reply == Spec.Ack(ack) && View() == db
              case DuplicateRollback => reply == Spec.Ack(Spec.AckDuplicate) && db == old(View())
              case Throws(fault) => reply == Spec.Failed(fault) && db == old(View())
    {
      var action := MapEventToAction(e.kind);
      var sub: Option<SubKey> := None;
      if Present(e.externalId) {
        var resolved := SubKey(conn.provider, e.externalId.value);
        if resolved in subs && !d.resolveMissed { sub := Some(resolved); }
      }
      if action == Provision {
        if sub.Some? {
          var claimed := RecordEvent(e.LedgerKey(), Spec.Row(e, sub, d.dbNow, Applied, None));
          return Ok(if claimed then Spec.AckDuplicate else Spec.AckApplied);
        }
        var result := ApplyProvision(d.deps, conn, e);
        match result
        case Throws(fault) => return Throws(fault);
        case DuplicateRollback => return DuplicateRollback;
        case Ok(ProvisionDuplicate) => return DuplicateRollback;
        case Ok(ProvisionUnmapped) =>
          var ack := Dead(e, None, d.dbNow, "unmapped_event");
          return Ok(ack);
        case Ok(ProvisionedAs(key)) =>
          var claimed := RecordEvent(e.LedgerKey(), Spec.Row(e, Some(key), d.dbNow, Applied, None));
          if claimed { return DuplicateRollback; }
          return Ok(Spec.AckApplied);
      }
      if sub.None? {
        var ack := Dead(e, None, d.dbNow, "unmapped_event");
        return Ok(ack);
      }
      if IsStaleEvent(e.occurredAt, subs[sub.value].lastAppliedAt) {
        var _ := RecordEvent(e.LedgerKey(), Spec.Row(e, sub, d.dbNow, Rejected, Some("stale_event")));
        return Ok(Spec.AckDuplicate);
      }
      if action == Ignore {
        var ack := Dead(e, sub, d.dbNow, "unmapped_event");
        return Ok(ack);
      }
      var claimed := RecordEvent(e.LedgerKey(), Spec.Row(e, sub, d.dbNow, Applied, None));
      if claimed { return Ok(Spec.AckDuplicate); }
      var done: Tx<()>;
      if action == Renew {
        done := ApplyRenew(d.deps, sub.value, e);
      } else if action == Revoke {
        done := ApplyRevoke(sub.value, e);
      } else {
        done := ApplyGrace(d.deps.config, conn.grace, sub.value, e, action == Cancel, d.now);
      }
      match done
      case Ok(_) => return Ok(Spec.AckApplied);
      case DuplicateRollback => return DuplicateRollback;
      case Throws(fault) => return Throws(fault);
    }

    /** One delivery in one transaction: nothing is read from the body before the signature holds,
        and a thrown fault or a duplicate found late leaves the tables as they were. */
    method HandleWebhook(d: Spec.Delivery) returns (reply: Spec.Reply)
      requires Valid(View())
      modifies this
      ensures (View(), reply) == Spec.Deliver(old(View()), d)
    {
      if d.conn.None? { return Spec.Failed(Spec.ConnectionNotFound); }
      if d.signature.SigStale? { return Spec.Failed(Spec.StaleTimestamp); }
      if d.signature.SigBad? { return Spec.Failed(Spec.InvalidSignature); }
      if d.body.None? { return Spec.Failed(Spec.MalformedBody); }
      var conn := d.conn.value;
      var e := Spec.Stamp(conn, d.body.value);
      if !conn.enabled {
        var ack := Dead(e, None, d.dbNow, "connection_disabled");
        return Spec.Ack(ack);
      }
      var saved := View();
      var r := Dispatch(d, conn, e);
      match r
      case Ok(ack) => reply := Spec.Ack(ack);
      case DuplicateRollback =>
        Restore(saved);
        reply := Spec.Ack(Spec.AckDuplicate);
      case Throws(fault) =>
        Restore(saved);
        reply := Spec.Failed(fault);
    }

    // ---- grace-worker.ts ---------------------------------------------------------------------

    method SuspendElapsed(key: SubKey, now: int)
      modifies this`licenses, this`subs
      ensures View() == Spec.SuspendElapsed(old(View()), key, now)
    {
      if key !in subs || !Spec.Elapsed(subs[key], now) { return; }
      var sub := subs[key];
      if sub.licenseId !in licenses { return; }
      var status := licenses[sub.licenseId].status;
      if status == LicRevoked { return; }
      if status == LicActive {
        var _ := SuspendLicense(sub.licenseId);
      }
      subs := subs[key := sub.(state := Canceled, graceExpiresAt := None)];
    }

    /** One sweep over a list that was read earlier; each row is re-checked in its own transaction
        at that transaction's own clock. */
    method SweepGrace(listed: seq<SubKey>, clock: seq<int>)
      requires |clock| == |listed|
      modifies this`licenses, this`subs
      ensures View() == Swept(old(View()), listed, clock)
    {
      var i := 0;
      while i < |listed|
        invariant 0 <= i <= |listed|
        invariant Swept(old(View()), listed, clock) == Swept(View(), listed[i..], clock[i..])
      {
        SuspendElapsed(listed[i], clock[i]);
        assert listed[i..][1..] == listed[i + 1..] && clock[i..][1..] == clock[i + 1..];
        i := i + 1;
      }
    }

    // ---- reconcile-worker.ts -----------------------------------------------------------------

    method ReconcileOne(deps: Deps, key: SubKey, auth: Snapshot, conn: Option<Connection>, now: int)
      returns (corrected: bool)
      modifies this`licenses, this`subs
      ensures (View(), corrected) == Spec.ReconcileOne(old(View()), deps, key, auth, conn, now)
    {
      if key !in subs { return false; }
      var current := subs[key];
      if IsStaleEvent(SnapshotTime(auth, now), current.lastAppliedAt) { return false; }
      if !DriftsTo(current.state, auth.status) { return false; }
      var e := SynthEvent(key, auth, now);
      var done: Tx<()>;
      match auth.status {
        case AuthActive => done := ApplyRenew(deps, key, e);
        case AuthRefunded => done := ApplyRevoke(key, e);
        case _ =>
          if conn.None? { return false; }
          done := ApplyGrace(deps.config, conn.value.grace, key, e, auth.status == AuthCanceled, now);
      }
      corrected := done.Ok?;
    }

    /** A whole pass: every candidate is examined, a fault on one never stops the rest. */
    method Reconcile(deps: Deps, candidates: seq<SubKey>, fetches: seq<Fetch>, conns: map<Provider, Connection>, now: int)
      returns (examined: nat, corrected: nat)
      requires |fetches| == |candidates|
      modifies this`licenses, this`subs
      ensures examined == |candidates|
      ensures (View(), corrected) == Reconciled(old(View()), deps, candidates, fetches, conns, now)
    {
      examined, corrected := 0, 0;
      while examined < |candidates|
        invariant 0 <= examined <= |candidates|
        invariant Reconciled(old(View()), deps, candidates, fetches, conns, now) ==
                  (var (db, more) := Reconciled(View(), deps, candidates[examined..], fetches[examined..], conns, now);
                   (db, corrected + more))
      {
        var key, fetch := candidates[examined], fetches[examined];
        if fetch.Found? {
          var conn := if key.provider in conns then Some(conns[key.provider]) else None;
          var fixedIt := ReconcileOne(deps, key, fetch.auth, conn, now);
          if fixedIt { corrected := corrected + 1; }
        }
        assert candidates[examined..][1..] == candidates[examined + 1..];
        assert fetches[examined..][1..] == fetches[examined + 1..];
        examined := examined + 1;
      }
    }
  }

  function Swept(db: Db, listed: seq<SubKey>, clock: seq<int>): Db
    requires |clock| == |listed|
    decreases |listed|
  {
    if listed == [] then db
    else Swept(Spec.SuspendElapsed(db, listed[0], clock[0]), listed[1..], clock[1..])
  }

  function Reconciled(db: Db, deps: Deps, candidates: seq<SubKey>, fetches: seq<Fetch>, conns: map<Provider, Connection>, now: int): (Db, nat)
    requires |fetches| == |candidates|
    decreases |candidates|
  {
    if candidates == [] then (db, 0)
    else
      var key := candidates[0];
      var (db1, corrected) :=
        if fetches[0].Found? then
          Spec.ReconcileOne(db, deps, key, fetches[0].auth,
                            if key.provider in conns then Some(conns[key.provider]) else None, now)
        else (db, false);
      var (db2, more) := Reconciled(db1, deps, candidates[1..], fetches[1..], conns, now);
      (db2, (if corrected then 1 else 0) + more)
  }

  lemma MapSubsetSize<K, V>(a: map<K, V>, b: map<K, V>)
    requires a.Keys <= b.Keys
    ensures |a| <= |b|
  {
    var rest := b.Keys - a.Keys;
    assert b.Keys == a.Keys + rest;
  }
}
