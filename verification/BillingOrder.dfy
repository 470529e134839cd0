/** Out-of-order delivery: when the final overlay depends on the set of events and not on the order
    in which they arrive. */
module BillingOrder {
  import opened Tables
  import opened BillingEvents
  import opened BillingInvariant
  import opened BillingSpec
  import opened BillingRuns
  import opened BillingExactlyOnce

  /** Webhooks delivered one after the other, with no other step between them. */
  function DeliverAll(db: Db, ds: seq<Delivery>): Db
    decreases |ds|
  {
    if ds == [] then db else DeliverAll(Deliver(db, ds[0]).0, ds[1..])
  }

  /** A verified delivery of an event of this subscription over an enabled connection. Clocks,
      catalog, grace policy and period ends may differ between deliveries. */
  predicate Genuine(d: Delivery, key: SubKey) {
    && d.conn.Some? && d.conn.value.enabled && d.conn.value.provider == key.provider
    && d.signature.SigOk? && d.body.Some? && !d.resolveMissed && d.body.value.provider == key.provider
  }

  predicate About(e: Event, key: SubKey) {
    && e.provider == key.provider && e.externalId == Some(key.externalId) && key.externalId != ""
    && e.kind in {Renewed, PaymentFailed, CanceledEvent, RefundedEvent}
  }

  /** The deliveries are of exactly these events, each at least once. */
  ghost predicate Covers(ds: seq<Delivery>, key: SubKey, events: set<Event>) {
    && (forall i :: 0 <= i < |ds| ==> Genuine(ds[i], key) && ds[i].body.value in events)
    && (forall e :: e in events ==> exists i :: 0 <= i < |ds| && ds[i].body.Some? && ds[i].body.value == e)
  }

  /** Events of one linked subscription, told apart by id and by time, none of them seen before. */
  ghost predicate Pending(db: Db, key: SubKey, events: set<Event>) {
    && Valid(db) && key in db.subs
    && db.licenses[db.subs[key].licenseId].status != LicRevoked
    && (forall e :: e in events ==>
          About(e, key) && UpdateAllowed(e.occurredAt, db.subs[key].lastAppliedAt) && e.LedgerKey() !in db.ledger)
    && (forall e1, e2 :: e1 in events && e2 in events && (e1.eventId == e2.eventId || e1.occurredAt == e2.occurredAt) ==> e1 == e2)
  }

  ghost predicate IsNewest(events: set<Event>, newest: Event) {
    newest in events && forall e :: e in events ==> e.occurredAt <= newest.occurredAt
  }

  ghost predicate RefundFree(events: set<Event>) {
    forall e :: e in events ==> e.kind != RefundedEvent
  }

  /** The overlay carries this event's state and time. */
  predicate Carried(db: Db, key: SubKey, e: Event)
    requires e.kind !in {Created, Unknown}
  {
    key in db.subs && db.subs[key].state == StateFor(e.kind) && db.subs[key].lastAppliedAt == Some(e.occurredAt)
  }

  // ---- one delivery ----------------------------------------------------------------------------

  /** An event no newer than the anchor is rejected. */
  lemma OldEventRejected(db: Db, d: Delivery, key: SubKey)
    requires key in db.subs && Genuine(d, key) && About(d.body.value, key)
    requires !UpdateAllowed(d.body.value.occurredAt, db.subs[key].lastAppliedAt)
    ensures !Changes(db, Deliver(db, d).0)
  {
    assert Stamp(d.conn.value, d.body.value) == d.body.value;
  }

  /** A new event on a license that is not revoked, or any new refund, takes the overlay. */
  lemma NewEventTakes(db: Db, d: Delivery, key: SubKey)
    requires Valid(db) && key in db.subs && Genuine(d, key) && About(d.body.value, key)
    requires UpdateAllowed(d.body.value.occurredAt, db.subs[key].lastAppliedAt)
    requires d.body.value.LedgerKey() !in db.ledger
    requires db.licenses[db.subs[key].licenseId].status != LicRevoked || d.body.value.kind == RefundedEvent
    ensures Carried(Deliver(db, d).0, key, d.body.value)
  {
    var e := d.body.value;
    assert Stamp(d.conn.value, e) == e;
    assert Acts(db, e, Some(key));
    ActsCommits(db, d, d.conn.value, e, Some(key));
    GuardsAgree(db, d, e);
  }

  /** What one delivery leaves alone: the link, other ids' ledger absence, an unrevoked license
      (unless it is a refund), and anchors beyond the event's own time. */
  lemma DeliveryFrame(db: Db, d: Delivery, key: SubKey)
    requires Valid(db) && key in db.subs && Genuine(d, key) && About(d.body.value, key)
    ensures var db' := Deliver(db, d).0; var e := d.body.value;
            && Valid(db') && key in db'.subs && db'.subs[key].licenseId == db.subs[key].licenseId
            && (forall k :: k in db'.ledger ==> k in db.ledger || k == e.LedgerKey())
            && (db'.subs[key].lastAppliedAt == db.subs[key].lastAppliedAt || db'.subs[key].lastAppliedAt == Some(e.occurredAt))
            && (e.kind != RefundedEvent && db.licenses[db.subs[key].licenseId].status != LicRevoked ==>
                db'.licenses[db.subs[key].licenseId].status != LicRevoked)
  {
    hide PlanProvision, ResolveGraceSeconds;
    var e := d.body.value;
    assert Stamp(d.conn.value, e) == e;
    DeliverKeeps(db, d);
    assert SubEvolves(db.subs[key], Deliver(db, d).0.subs[key]);
    AckCommits(db, d, e.LedgerKey());
  }

  // ---- many deliveries -------------------------------------------------------------------------

  /** Once the newest event is carried, nothing delivered later moves the overlay. */
  lemma {:induction false} NewestSticks(db: Db, ds: seq<Delivery>, key: SubKey, newest: Event)
    requires Valid(db) && newest.kind !in {Created, Unknown} && Carried(db, key, newest)
    requires forall i :: 0 <= i < |ds| ==>
             Genuine(ds[i], key) && About(ds[i].body.value, key) && ds[i].body.value.occurredAt <= newest.occurredAt
    ensures Carried(DeliverAll(db, ds), key, newest)
    decreases |ds|
  {
    if ds != [] {
      OldEventRejected(db, ds[0], key);
      DeliverKeeps(db, ds[0]);
      NewestSticks(Deliver(db, ds[0]).0, ds[1..], key, newest);
    }
  }

  /** Last writer wins: whatever the order and the redeliveries, the newest event decides, provided
      it is a refund or no refund is among the events. */
  lemma {:induction false} LastWriterWins(db: Db, ds: seq<Delivery>, key: SubKey, events: set<Event>, newest: Event)
    requires Valid(db) && key in db.subs
    requires forall e :: e in events ==> About(e, key)
    requires forall e1, e2 :: e1 in events && e2 in events && (e1.eventId == e2.eventId || e1.occurredAt == e2.occurredAt) ==> e1 == e2
    requires IsNewest(events, newest) && About(newest, key)
    requires UpdateAllowed(newest.occurredAt, db.subs[key].lastAppliedAt) && newest.LedgerKey() !in db.ledger
    requires newest.kind == RefundedEvent ||
             (RefundFree(events) && db.licenses[db.subs[key].licenseId].status != LicRevoked)
    requires forall i :: 0 <= i < |ds| ==> Genuine(ds[i], key) && ds[i].body.value in events
    requires exists i :: 0 <= i < |ds| && ds[i].body.Some? && ds[i].body.value == newest
    ensures Carried(DeliverAll(db, ds), key, newest)
    decreases |ds|
  {
    var d := ds[0];
    var db1 := Deliver(db, d).0;
    DeliveryFrame(db, d, key);
    if d.body.value == newest {
      NewEventTakes(db, d, key);
      NewestSticks(db1, ds[1..], key, newest);
    } else {
      assert exists i :: 0 <= i < |ds[1..]| && ds[1..][i].body.Some? && ds[1..][i].body.value == newest by {
        var i :| 0 <= i < |ds| && ds[i].body.Some? && ds[i].body.value == newest;
        assert ds[1..][i - 1] == ds[i];
      }
      LastWriterWins(db1, ds[1..], key, events, newest);
    }
  }

  // ---- order independence, both directions -------------------------------------------------------

  /** Any two deliveries of the same events, in any order and with any redeliveries, end with the
      same overlay state and the same anchor. */
  ghost predicate OrderIndependent(db: Db, key: SubKey, events: set<Event>) {
    forall ds1: seq<Delivery>, ds2: seq<Delivery> :: Covers(ds1, key, events) && Covers(ds2, key, events) ==>
      SameOverlay(DeliverAll(db, ds1), DeliverAll(db, ds2), key)
  }

  predicate SameOverlay(a: Db, b: Db, key: SubKey) {
    && key in a.subs && key in b.subs
    && a.subs[key].state == b.subs[key].state && a.subs[key].lastAppliedAt == b.subs[key].lastAppliedAt
  }

  lemma {:induction false} DeliverAllKeeps(db: Db, ds: seq<Delivery>)
    requires Valid(db)
    ensures Valid(DeliverAll(db, ds)) && Evolves(db, DeliverAll(db, ds))
    decreases |ds|
  {
    if ds == [] {
      SameTablesKeep(db, db);
    } else {
      DeliverKeeps(db, ds[0]);
      DeliverAllKeeps(Deliver(db, ds[0]).0, ds[1..]);
      EvolvesTransitive(db, Deliver(db, ds[0]).0, DeliverAll(db, ds));
    }
  }

  /** Deliveries of all the events, one each, over one connection, starting with a chosen one. */
  lemma {:induction false} SomeOrder(template: Delivery, key: SubKey, events: set<Event>, first: Event) returns (ds: seq<Delivery>)
    requires Genuine(template, key) && first in events
    requires forall e :: e in events ==> About(e, key)
    ensures Covers(ds, key, events) && ds[0].body == Some(first)
    decreases |events|
  {
    var d := template.(body := Some(first));
    var rest := events - {first};
    assert Genuine(d, key);
    if rest == {} {
      ds := [d];
      assert events == {first};
      assert ds[0].body.value == first;
    } else {
      var next :| next in rest;
      var tail := SomeOrder(template, key, rest, next);
      ds := [d] + tail;
      forall e | e in events ensures exists i :: 0 <= i < |ds| && ds[i].body.Some? && ds[i].body.value == e {
        if e == first {
          assert ds[0].body.value == e;
        } else {
          assert e in rest;
          var i :| 0 <= i < |tail| && tail[i].body.Some? && tail[i].body.value == e;
          assert ds[i + 1] == tail[i];
        }
      }
    }
  }

  lemma ATemplate(key: SubKey, e: Event) returns (d: Delivery)
    requires About(e, key)
    ensures Genuine(d, key)
  {
    var conn := Connection(key.provider, true, map[], GracePolicy(None, map[]));
    d := Delivery(Some(conn), SigOk, Some(e), Deps(NoSigner, map[], BillingConfig(1, 0)), 0, 0, false);
  }

  /** A refund that is not the newest event makes the outcome depend on the order: delivered first
      it revokes for good, delivered after the newest it is dropped as stale. */
  lemma LateRefundBreaksOrder(db: Db, key: SubKey, events: set<Event>, newest: Event, refund: Event)
    requires Pending(db, key, events) && IsNewest(events, newest) && newest.kind != RefundedEvent
    requires refund in events && refund.kind == RefundedEvent
    ensures !OrderIndependent(db, key, events)
  {
    var template := ATemplate(key, newest);
    var ds1 := SomeOrder(template, key, events, newest);
    var ds2 := SomeOrder(template, key, events, refund);
    NewEventTakes(db, ds1[0], key);
    DeliverKeeps(db, ds1[0]);
    NewestSticks(Deliver(db, ds1[0]).0, ds1[1..], key, newest);
    NewEventTakes(db, ds2[0], key);
    DeliverKeeps(db, ds2[0]);
    DeliverAllKeeps(Deliver(db, ds2[0]).0, ds2[1..]);
    var a, b := DeliverAll(db, ds1), DeliverAll(db, ds2);
    assert SubEvolves(Deliver(db, ds2[0]).0.subs[key], b.subs[key]);
    assert a.subs[key].state == StateFor(newest.kind) != Refunded == b.subs[key].state;
    assert !SameOverlay(a, b, key);
  }

  /** Exactly when arrival order does not matter. */
  lemma OrderIndependentIff(db: Db, key: SubKey, events: set<Event>, newest: Event)
    requires Pending(db, key, events) && IsNewest(events, newest)
    ensures OrderIndependent(db, key, events) <==> (newest.kind == RefundedEvent || RefundFree(events))
  {
    if newest.kind == RefundedEvent || RefundFree(events) {
      forall ds1: seq<Delivery>, ds2: seq<Delivery> | Covers(ds1, key, events) && Covers(ds2, key, events)
        ensures SameOverlay(DeliverAll(db, ds1), DeliverAll(db, ds2), key)
      {
        LastWriterWins(db, ds1, key, events, newest);
        LastWriterWins(db, ds2, key, events, newest);
      }
    } else {
      var refund :| refund in events && refund.kind == RefundedEvent;
      LateRefundBreaksOrder(db, key, events, newest, refund);
    }
  }
}
