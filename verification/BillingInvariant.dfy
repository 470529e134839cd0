/** The invariant of the tables, and what no step may ever undo. */
module BillingInvariant {
  import opened Tables

  /** Every link names an issued license. */
  ghost predicate LinksResolve(db: Db) {
    forall k :: k in db.subs ==> db.subs[k].licenseId in db.licenses
  }

  /** A license is managed by at most one subscription. */
  ghost predicate OneToOne(db: Db) {
    forall k1, k2 :: k1 in db.subs && k2 in db.subs && db.subs[k1].licenseId == db.subs[k2].licenseId ==> k1 == k2
  }

  /** A grace deadline is set exactly while a grace window runs. */
  ghost predicate GraceShape(db: Db) {
    forall k :: k in db.subs ==> (db.subs[k].graceExpiresAt.Some? <==> db.subs[k].state in {PastDue, Grace})
  }

  ghost predicate RefundedIsRevoked(db: Db) {
    forall k :: k in db.subs && db.subs[k].state == Refunded && db.subs[k].licenseId in db.licenses
             ==> db.licenses[db.subs[k].licenseId].status == LicRevoked
  }

  ghost predicate Anchored(db: Db) {
    forall k :: k in db.subs ==> db.subs[k].lastAppliedAt.Some?
  }

  ghost predicate IdsBelow(db: Db) {
    forall id :: id in db.licenses ==> id < db.nextId
  }

  ghost predicate Valid(db: Db) {
    LinksResolve(db) && OneToOne(db) && GraceShape(db) && RefundedIsRevoked(db) && Anchored(db) && IdsBelow(db)
  }

  // ---- two-state relation --------------------------------------------------------------------

  predicate AnchorLe(a: Option<int>, b: Option<int>) {
    a.None? || (b.Some? && a.value <= b.value)
  }

  ghost predicate SubEvolves(s: Subscription, t: Subscription) {
    && t.licenseId == s.licenseId
    && AnchorLe(s.lastAppliedAt, t.lastAppliedAt)
    && (s.state == Refunded ==> t.state == Refunded)
  }

  ghost predicate LicenseEvolves(a: License, b: License) {
    b.productId == a.productId && b.planId == a.planId && (a.status == LicRevoked ==> b.status == LicRevoked)
  }

  ghost predicate SubsEvolve(db: Db, db': Db) {
    forall k :: k in db.subs ==> k in db'.subs && SubEvolves(db.subs[k], db'.subs[k])
  }

  ghost predicate LicensesEvolve(db: Db, db': Db) {
    forall id :: id in db.licenses ==> id in db'.licenses && LicenseEvolves(db.licenses[id], db'.licenses[id])
  }

  /** Links are never removed or re-pointed, anchors never go back, refunded and revoked are final. */
  ghost predicate Evolves(db: Db, db': Db) {
    SubsEvolve(db, db') && LicensesEvolve(db, db')
  }
}
