/** Who is on the revocation lists, in terms of the tables: everyone revoked once the product has been
    swept, in every later list and with every client that follows one; and nobody else. */
module CrlCoverage {
  import opened Tables
  import opened Platform
  import opened CrlRuns
  import BillingInvariant
  import Seats

  /** A revoked license of the product. */
  predicate RevokedLicense(s: Server, product: string, id: Id) {
    id in s.db.licenses && s.db.licenses[id].status == LicRevoked && s.db.licenses[id].productId == product
  }

  /** A deactivated seat of a license of the product. */
  predicate ReleasedSeat(s: Server, product: string, a: Id) {
    && a in s.acts && s.acts[a].status == Seats.Deactivated
    && s.acts[a].licenseId in s.db.licenses && s.db.licenses[s.acts[a].licenseId].productId == product
  }

  /** Both are for good. */
  lemma RevokedStays(trace: seq<Server>, steps: seq<Step>, i: nat, j: nat, product: string)
    requires IsRun(trace, steps) && Platform.Valid(trace[0]) && i <= j <= |steps|
    ensures forall id :: RevokedLicense(trace[i], product, id) ==> RevokedLicense(trace[j], product, id)
    ensures forall a :: ReleasedSeat(trace[i], product, a) ==> ReleasedSeat(trace[j], product, a)
  {
    RunKeeps(trace, steps, i, j);
    var s, t := trace[i], trace[j];
    forall id | id in s.db.licenses ensures id in t.db.licenses && BillingInvariant.LicenseEvolves(s.db.licenses[id], t.db.licenses[id]) {}
  }

  // ---- one sweep -----------------------------------------------------------------------------------------

  /** A record says exactly what is revoked. */
  ghost predicate Says(r: CrlRecord, s: Server, product: string) {
    && (forall id :: id in r.revoked.licenses <==> RevokedLicense(s, product, id))
    && (forall a :: a in r.revoked.activations <==> ReleasedSeat(s, product, a))
  }

  ghost predicate NobodyRevoked(s: Server, product: string) {
    (forall id :: !RevokedLicense(s, product, id)) && forall a :: !ReleasedSeat(s, product, a)
  }

  /** What a sweep of the product does: it publishes the next version exactly when someone is revoked and there
      is no list, or the latest list says something else or has run out by the sweep's clock; the new list says
      what is revoked and runs out when it should. */
  lemma SweepPublishes(s: Server, step: Step)
    requires LogInv(s) && step.Publish?
    ensures var before, after := Published(s.crls, step.product), Published(Apply(s, step).crls, step.product);
            var due := if before == [] then !NobodyRevoked(s, step.product)
                       else !Says(before[|before| - 1], s, step.product) || before[|before| - 1].nextUpdate <= step.clock;
            if due then
              && |after| == |before| + 1 && after[..|before|] == before
              && after[|before|].version == |before| + 1 && Says(after[|before|], s, step.product)
              && after[|before|].generatedAt == step.now && after[|before|].nextUpdate == step.now + step.nextUpdateSecs
            else after == before
  {
    var before := Published(s.crls, step.product);
    assert Ascending(before);
    MaxOfLog(before);
    if before != [] {
      var last := before[|before| - 1];
      assert IsLatest(before, last);
      SaysIff(last, s, step.product);
    } else {
      EmptyProjection(s, step.product);
    }
    SaysIff(GenerateCrl(s.db.licenses, s.acts, s.crls, step.product, step.now, step.nextUpdateSecs), s, step.product);
  }

  lemma SaysIff(r: CrlRecord, s: Server, product: string)
    ensures Says(r, s, product) <==> r.revoked == ProjectRevokedIds(s.db.licenses, s.acts, product)
  {
    var current := ProjectRevokedIds(s.db.licenses, s.acts, product);
    assert forall id :: id in current.licenses <==> RevokedLicense(s, product, id);
    assert forall a :: a in current.activations <==> ReleasedSeat(s, product, a);
    if Says(r, s, product) {
      assert r.revoked.licenses == current.licenses && r.revoked.activations == current.activations;
    }
  }

  lemma EmptyProjection(s: Server, product: string)
    ensures var current := ProjectRevokedIds(s.db.licenses, s.acts, product);
            current.licenses == {} && current.activations == {} <==> NobodyRevoked(s, product)
  {
    var current := ProjectRevokedIds(s.db.licenses, s.acts, product);
    assert forall id :: id in current.licenses <==> RevokedLicense(s, product, id);
    assert forall a :: a in current.activations <==> ReleasedSeat(s, product, a);
  }

  /** After it, the latest list says what is revoked, and there is one if anyone is. */
  lemma SweepSays(s: Server, step: Step)
    requires LogInv(s) && step.Publish?
    ensures var after := Published(Apply(s, step).crls, step.product);
            if after == [] then NobodyRevoked(s, step.product) else Says(after[|after| - 1], s, step.product)
  {
    SweepPublishes(s, step);
  }

  // ---- whole runs ----------------------------------------------------------------------------------------

  /** Lists from the one that a sweep at step `j` left as the latest. */
  predicate SinceSweep(trace: seq<Server>, j: nat, product: string, k: int)
    requires j + 1 < |trace|
  {
    |Published(trace[j + 1].crls, product)| - 1 <= k
  }

  lemma LaterListsContain(trace: seq<Server>, steps: seq<Step>, j: nat, n: nat, k: nat)
    requires IsRun(trace, steps) && Platform.Valid(trace[0]) && trace[0].crls == map[]
    requires j < n <= |steps| && steps[j].Publish?
    requires SinceSweep(trace, j, steps[j].product, k) && k < |Published(trace[n].crls, steps[j].product)|
    requires Published(trace[j + 1].crls, steps[j].product) != []
    ensures var swept := Published(trace[j + 1].crls, steps[j].product);
            Within(swept[|swept| - 1].revoked, Published(trace[n].crls, steps[j].product)[k].revoked)
  {
    var product := steps[j].product;
    var swept, now := Published(trace[j + 1].crls, product), Published(trace[n].crls, product);
    LogGrows(trace, steps, j + 1, n, product);
    LogHolds(trace, steps, n);
    assert Ascending(now);
    assert now[|swept| - 1] == swept[|swept| - 1];
  }

  /** In every run: a license revoked at some point is in the list that the next sweep of its product leaves, and in
      every later list of that product. So is a seat deactivated at some point. */
  lemma RevokedIsListed(trace: seq<Server>, steps: seq<Step>, i: nat, j: nat, n: nat, k: nat, id: Id)
    requires IsRun(trace, steps) && Platform.Valid(trace[0]) && trace[0].crls == map[]
    requires i <= j < n <= |steps| && steps[j].Publish?
    requires SinceSweep(trace, j, steps[j].product, k) && k < |Published(trace[n].crls, steps[j].product)|
    ensures RevokedLicense(trace[i], steps[j].product, id) || ReleasedSeat(trace[i], steps[j].product, id) ==>
            Published(trace[j + 1].crls, steps[j].product) != []
    ensures RevokedLicense(trace[i], steps[j].product, id) ==> id in Published(trace[n].crls, steps[j].product)[k].revoked.licenses
    ensures ReleasedSeat(trace[i], steps[j].product, id) ==> id in Published(trace[n].crls, steps[j].product)[k].revoked.activations
  {
    var product := steps[j].product;
    RevokedStays(trace, steps, i, j, product);
    LogHolds(trace, steps, j);
    SweepSays(trace[j], steps[j]);
    if RevokedLicense(trace[i], product, id) || ReleasedSeat(trace[i], product, id) {
      assert Published(trace[j + 1].crls, product) != [];
      LaterListsContain(trace, steps, j, n, k);
    }
  }

  /** And the lists do not run dry: there is such a list at every later point. */
  lemma RevokedHasAList(trace: seq<Server>, steps: seq<Step>, i: nat, j: nat, n: nat, id: Id)
    requires IsRun(trace, steps) && Platform.Valid(trace[0]) && trace[0].crls == map[]
    requires i <= j < n <= |steps| && steps[j].Publish?
    requires RevokedLicense(trace[i], steps[j].product, id) || ReleasedSeat(trace[i], steps[j].product, id)
    ensures var k := |Published(trace[n].crls, steps[j].product)| - 1; 0 <= k && SinceSweep(trace, j, steps[j].product, k)
  {
    RevokedStays(trace, steps, i, j, steps[j].product);
    LogHolds(trace, steps, j);
    SweepSays(trace[j], steps[j]);
    LogGrows(trace, steps, j + 1, n, steps[j].product);
  }

  /** Nobody else is ever listed: at every point of every run, an id in any list of a product is a license of that
      product that is revoked now, or a deactivated seat of one of its licenses. */
  lemma ListedIsRevoked(trace: seq<Server>, steps: seq<Step>, n: nat, product: string, k: nat, id: Id)
    requires IsRun(trace, steps) && Platform.Valid(trace[0]) && trace[0].crls == map[]
    requires n <= |steps| && k < |Published(trace[n].crls, product)|
    ensures id in Published(trace[n].crls, product)[k].revoked.licenses ==> RevokedLicense(trace[n], product, id)
    ensures id in Published(trace[n].crls, product)[k].revoked.activations ==> ReleasedSeat(trace[n], product, id)
  {
    LogHolds(trace, steps, n);
    var s := trace[n];
    assert Within(Published(s.crls, product)[k].revoked, ProjectRevokedIds(s.db.licenses, s.acts, product));
  }

  /** A client that was offered, in any order and among any other genuine lists of the product, one list since the
      sweep ends up rejecting the revoked license and the released seat. */
  lemma ClientLearns(trace: seq<Server>, steps: seq<Step>, i: nat, j: nat, n: nat, k: nat, id: Id,
                     current: Option<CrlRecord>, offers: seq<CrlRecord>, o: nat)
    requires IsRun(trace, steps) && Platform.Valid(trace[0]) && trace[0].crls == map[]
    requires i <= j < n <= |steps| && steps[j].Publish?
    requires SinceSweep(trace, j, steps[j].product, k) && k < |Published(trace[n].crls, steps[j].product)|
    requires current.Some? ==> current.value in Published(trace[n].crls, steps[j].product)
    requires forall m :: 0 <= m < |offers| ==> offers[m] in Published(trace[n].crls, steps[j].product)
    requires o < |offers| && offers[o] == Published(trace[n].crls, steps[j].product)[k]
    ensures Follow(current, offers).Some?
    ensures RevokedLicense(trace[i], steps[j].product, id) ==> id in Follow(current, offers).value.revoked.licenses
    ensures ReleasedSeat(trace[i], steps[j].product, id) ==> id in Follow(current, offers).value.revoked.activations
  {
    var records := Published(trace[n].crls, steps[j].product);
    LogHolds(trace, steps, n);
    assert Ascending(records);
    ClientNeverUnrevokes(records, current, offers);
    RevokedIsListed(trace, steps, i, j, n, k, id);
  }
}
