/** The published revocation lists over whole runs, and a client that follows them. */
module CrlRuns {
  import opened Tables
  import opened Platform
  import BillingInvariant
  import Seats
  import Enforcement

  type Acts = Seats.Acts
  type Window = Enforcement.Window

  // ---- sets of ids as the worker compares them -------------------------------------------------

  predicate Distinct(a: seq<Id>) { forall i, j :: 0 <= i < j < |a| ==> a[i] != a[j] }

  /** `sameSet`: equal lengths, and every entry of the second list occurs in the first. */
  predicate SameSet(a: seq<Id>, b: seq<Id>) {
    |a| == |b| && forall i :: 0 <= i < |b| ==> b[i] in a
  }

  lemma SubsetOfEqualSize(a: set<Id>, b: set<Id>)
    requires b <= a && |a| == |b|
    ensures a == b
  {
    assert a == b + (a - b);
  }

  /** On lists without repeats the comparison is set equality. */
  lemma SameSetIff(a: seq<Id>, b: seq<Id>)
    requires Distinct(a) && Distinct(b)
    ensures SameSet(a, b) <==> Seats.IdSet(a) == Seats.IdSet(b)
  {
    Seats.DistinctSize(a);
    Seats.DistinctSize(b);
    if SameSet(a, b) {
      assert Seats.IdSet(b) <= Seats.IdSet(a);
      SubsetOfEqualSize(Seats.IdSet(a), Seats.IdSet(b));
    }
    if Seats.IdSet(a) == Seats.IdSet(b) {
      forall i | 0 <= i < |b| ensures b[i] in a { assert b[i] in Seats.IdSet(b); }
    }
  }

  lemma {:induction false} RepeatIsSmaller(a: seq<Id>)
    ensures |Seats.IdSet(a)| <= |a|
  {
    if a != [] {
      RepeatIsSmaller(a[1..]);
      assert Seats.IdSet(a) == Seats.IdSet(a[1..]) + {a[0]};
    } else {
      assert Seats.IdSet(a) == {};
    }
  }

  /** Whatever the other list holds, the comparison errs for no list without repeats and for every other. */
  lemma SameSetNeedsDistinct(b: seq<Id>)
    ensures Distinct(b) <==> forall a: seq<Id> :: SameSet(a, b) ==> Seats.IdSet(a) == Seats.IdSet(b)
  {
    if Distinct(b) {
      Seats.DistinctSize(b);
      forall a: seq<Id> | SameSet(a, b) ensures Seats.IdSet(a) == Seats.IdSet(b) {
        RepeatIsSmaller(a);
        assert Seats.IdSet(b) <= Seats.IdSet(a);
        Seats.SubsetSize(Seats.IdSet(b), Seats.IdSet(a));
        SubsetOfEqualSize(Seats.IdSet(a), Seats.IdSet(b));
      }
    } else {
      var i, j :| 0 <= i < j < |b| && b[i] == b[j];
      var x := Unused(b);
      var a := b[j := x];
      forall k | 0 <= k < |b| ensures b[k] in a { assert if k == j then a[i] == b[k] else a[k] == b[k]; }
      assert a[j] == x && x in Seats.IdSet(a) && x !in Seats.IdSet(b);
    }
  }

  lemma {:induction false} Unused(b: seq<Id>) returns (x: Id)
    ensures forall i :: 0 <= i < |b| ==> b[i] < x
  {
    x := 0;
    if b != [] {
      x := Unused(b[1..]);
      if x <= b[0] { x := b[0] + 1; }
    }
  }

  // ---- the log ---------------------------------------------------------------------------------

  predicate Within(a: RevokedIds, b: RevokedIds) { a.licenses <= b.licenses && a.activations <= b.activations }

  /** Versions count up from one, and every list contains the ones before it. */
  ghost predicate Ascending(records: seq<CrlRecord>) {
    && (forall i :: 0 <= i < |records| ==> records[i].version == i + 1)
    && (forall i, j :: 0 <= i <= j < |records| ==> Within(records[i].revoked, records[j].revoked))
  }

  /** Every list of a product is within what is revoked for it now. */
  ghost predicate Logged(licenses: map<Id, License>, acts: Acts, crls: Crls) {
    forall product ::
      && Ascending(Published(crls, product))
      && forall i :: 0 <= i < |Published(crls, product)| ==>
           Within(Published(crls, product)[i].revoked, ProjectRevokedIds(licenses, acts, product))
  }

  ghost predicate LogInv(s: Server) { Logged(s.db.licenses, s.acts, s.crls) }

  lemma {:induction false} MaxIsLast(records: seq<CrlRecord>, first: nat)
    requires records != [] && forall i :: 0 <= i < |records| ==> records[i].version == first + i
    ensures MaxVersion(records) == first + |records| - 1
  {
    if |records| > 1 {
      MaxIsLast(records[1..], first + 1);
    } else {
      assert records[1..] == [];
    }
  }

  lemma MaxOfLog(records: seq<CrlRecord>)
    requires Ascending(records)
    ensures MaxVersion(records) == |records|
    ensures records != [] ==> forall r :: IsLatest(records, r) <==> r == records[|records| - 1]
  {
    if records != [] {
      MaxIsLast(records, 1);
      var last := records[|records| - 1];
      assert last in records;
      forall r | IsLatest(records, r) ensures r == last {
        var i :| 0 <= i < |records| && records[i] == r;
      }
    }
  }

  /** What is revoked only grows. */
  lemma ProjectionGrows(s: Server, s': Server, product: string)
    requires Valid(s) && Evolves(s, s')
    ensures Within(ProjectRevokedIds(s.db.licenses, s.acts, product), ProjectRevokedIds(s'.db.licenses, s'.acts, product))
  {
    forall id | id in s.db.licenses ensures id in s'.db.licenses && BillingInvariant.LicenseEvolves(s.db.licenses[id], s'.db.licenses[id]) {}
  }

  lemma QuietStep(s: Server, s': Server)
    requires Valid(s) && LogInv(s) && Evolves(s, s') && s'.crls == s.crls
    ensures LogInv(s')
  {
    forall product, i | 0 <= i < |Published(s'.crls, product)|
      ensures Within(Published(s'.crls, product)[i].revoked, ProjectRevokedIds(s'.db.licenses, s'.acts, product))
    {
      ProjectionGrows(s, s', product);
      assert Within(Published(s.crls, product)[i].revoked, ProjectRevokedIds(s.db.licenses, s.acts, product));
    }
    forall product ensures Ascending(Published(s'.crls, product)) { assert Ascending(Published(s.crls, product)); }
  }

  lemma PublishKeeps(licenses: map<Id, License>, acts: Acts, crls: Crls, p: string, clock: int, now: int, secs: Window)
    requires Logged(licenses, acts, crls)
    ensures Logged(licenses, acts, PublishIfStale(licenses, acts, crls, p, clock, now, secs))
  {
    hide ProjectRevokedIds, NeedsPublishing, MaxVersion;
    var crls' := PublishIfStale(licenses, acts, crls, p, clock, now, secs);
    var records := Published(crls, p);
    assert Ascending(records);
    MaxOfLog(records);
    forall product
      ensures Ascending(Published(crls', product))
      ensures forall i :: 0 <= i < |Published(crls', product)| ==>
                Within(Published(crls', product)[i].revoked, ProjectRevokedIds(licenses, acts, product))
    {
      if product != p || !NeedsPublishing(licenses, acts, crls, p, clock) {
        assert Published(crls', product) == Published(crls, product);
        assert Ascending(Published(crls, product));
      } else {
        assert Published(crls', p) == records + [GenerateCrl(licenses, acts, crls, p, now, secs)];
      }
    }
  }

  lemma NothingLogged(s: Server)
    requires s.crls == map[]
    ensures LogInv(s)
  {
  }

  lemma OtherStep(s: Server, step: Step)
    requires !step.Publish?
    ensures Apply(s, step).crls == s.crls
  {
  }

  lemma PublishStep(s: Server, step: Step)
    requires LogInv(s) && step.Publish?
    ensures LogInv(Apply(s, step))
  {
    PublishKeeps(s.db.licenses, s.acts, s.crls, step.product, step.clock, step.now, step.nextUpdateSecs);
  }

  /** In every run that starts with an empty log, every product's versions are 1, 2, 3, ... without a
      gap, every list contains all earlier ones, and the last is within what is revoked now. */
  lemma {:induction false} LogHolds(trace: seq<Server>, steps: seq<Step>, n: nat)
    requires IsRun(trace, steps) && Valid(trace[0]) && trace[0].crls == map[] && n <= |steps|
    ensures LogInv(trace[n])
  {
    if n != 0 {
      hide Platform.Valid, Platform.Evolves, Apply, Logged;
      LogHolds(trace, steps, n - 1);
      RunKeeps(trace, steps, n - 1, n);
      RunKeeps(trace, steps, n - 1, n - 1);
      if steps[n - 1].Publish? {
        PublishStep(trace[n - 1], steps[n - 1]);
      } else {
        OtherStep(trace[n - 1], steps[n - 1]);
        QuietStep(trace[n - 1], trace[n]);
      }
    } else {
      NothingLogged(trace[0]);
    }
  }

  /** A published list is never changed or dropped. */
  lemma {:induction false} LogGrows(trace: seq<Server>, steps: seq<Step>, i: nat, j: nat, product: string)
    requires IsRun(trace, steps) && i <= j <= |steps|
    ensures Published(trace[i].crls, product) <= Published(trace[j].crls, product)
    decreases j
  {
    if i < j { LogGrows(trace, steps, i, j - 1, product); }
  }

  /** After a sweep has published a product, its latest list says exactly what is revoked. */
  lemma SweepIsCurrent(s: Server, step: Step)
    requires LogInv(s) && step.Publish?
    ensures var records := Published(Apply(s, step).crls, step.product);
            var current := ProjectRevokedIds(s.db.licenses, s.acts, step.product);
            if records == [] then current.licenses == {} && current.activations == {}
            else records[|records| - 1].revoked == current
    ensures var records := Published(Apply(s, step).crls, step.product);
            && (forall id :: id in s.db.licenses && s.db.licenses[id].status == LicRevoked && s.db.licenses[id].productId == step.product
                  <==> records != [] && id in records[|records| - 1].revoked.licenses)
            && (forall a :: a in s.acts && s.acts[a].status == Seats.Deactivated && s.acts[a].licenseId in s.db.licenses
                  && s.db.licenses[s.acts[a].licenseId].productId == step.product
                  <==> records != [] && a in records[|records| - 1].revoked.activations)
  {
    var records := Published(s.crls, step.product);
    assert Ascending(records);
    MaxOfLog(records);
    if records != [] { assert IsLatest(records, records[|records| - 1]); }
    var current := ProjectRevokedIds(s.db.licenses, s.acts, step.product);
    assert forall id :: id in current.licenses <==>
      id in s.db.licenses && s.db.licenses[id].status == LicRevoked && s.db.licenses[id].productId == step.product;
    assert forall a :: a in current.activations <==>
      a in s.acts && s.acts[a].status == Seats.Deactivated && s.acts[a].licenseId in s.db.licenses
      && s.db.licenses[s.acts[a].licenseId].productId == step.product;
  }

  // ---- a client that follows the lists ---------------------------------------------------------

  predicate IsFresherCrlVersion(current: Option<CrlRecord>, candidate: nat) {
    current.None? || candidate > current.value.version
  }

  function Offer(current: Option<CrlRecord>, r: CrlRecord): Option<CrlRecord> {
    if IsFresherCrlVersion(current, r.version) then Some(r) else current
  }

  function Follow(current: Option<CrlRecord>, offers: seq<CrlRecord>): Option<CrlRecord>
    decreases |offers|
  {
    if offers == [] then current else Follow(Offer(current, offers[0]), offers[1..])
  }

  /** A list the server really published for this product. */
  predicate Genuine(records: seq<CrlRecord>, r: CrlRecord) { r in records }

  lemma NewerContains(records: seq<CrlRecord>, a: CrlRecord, b: CrlRecord)
    requires Ascending(records) && Genuine(records, a) && Genuine(records, b) && a.version <= b.version
    ensures Within(a.revoked, b.revoked) && (a.version == b.version ==> a == b)
  {
    var i :| 0 <= i < |records| && records[i] == a;
    var j :| 0 <= j < |records| && records[j] == b;
    assert i <= j;
  }

  /** Whatever order genuine lists arrive in, with repeats and old ones among them, the client ends
      with the newest it was offered, and every id that any of them or its earlier list revoked is
      revoked in it. */
  lemma {:induction false} ClientNeverUnrevokes(records: seq<CrlRecord>, current: Option<CrlRecord>, offers: seq<CrlRecord>)
    requires Ascending(records)
    requires current.Some? ==> Genuine(records, current.value)
    requires forall i :: 0 <= i < |offers| ==> Genuine(records, offers[i])
    ensures var end := Follow(current, offers);
            && (end == current || (end.Some? && end.value in offers))
            && (current.Some? || offers != [] ==> end.Some? && Genuine(records, end.value))
            && (current.Some? ==> current.value.version <= end.value.version && Within(current.value.revoked, end.value.revoked))
            && (forall i :: 0 <= i < |offers| ==>
                  offers[i].version <= end.value.version && Within(offers[i].revoked, end.value.revoked))
    decreases |offers|
  {
    if offers == [] {
    } else {
      var next := Offer(current, offers[0]);
      ClientNeverUnrevokes(records, next, offers[1..]);
      var end := Follow(current, offers).value;
      if current.Some? { NewerContains(records, current.value, end); }
      NewerContains(records, offers[0], end);
      forall i | 0 <= i < |offers| ensures offers[i].version <= end.version && Within(offers[i].revoked, end.revoked) {
        if i > 0 { assert offers[i] == offers[1..][i - 1]; }
      }
    }
  }

  // ---- the publishing worker -------------------------------------------------------------------

  /** The products a sweep looks at: those with a revoked license, a deactivated seat or a published list. */
  ghost predicate IsCandidate(licenses: map<Id, License>, acts: Acts, crls: Crls, product: string) {
    || (exists id :: id in licenses && licenses[id].status == LicRevoked && licenses[id].productId == product)
    || (exists a :: a in acts && acts[a].status == Seats.Deactivated && acts[a].licenseId in licenses &&
          licenses[acts[a].licenseId].productId == product)
    || Published(crls, product) != []
  }

  /** No other product ever needs a new list. */
  lemma OnlyCandidatesNeed(licenses: map<Id, License>, acts: Acts, crls: Crls, product: string, clock: int)
    requires NeedsPublishing(licenses, acts, crls, product, clock)
    ensures IsCandidate(licenses, acts, crls, product)
  {
    if Published(crls, product) == [] {
      var current := ProjectRevokedIds(licenses, acts, product);
      if current.licenses != {} { var id :| id in current.licenses; } else { var a :| a in current.activations; }
    }
  }

  /** A sweep over the products; a product whose transaction faults is left as it was. */
  ghost function PublishAll(licenses: map<Id, License>, acts: Acts, crls: Crls, products: seq<string>, faults: seq<bool>,
      clock: int, now: int, secs: Window): Crls
    requires |faults| == |products|
    decreases |products|
  {
    if products == [] then crls
    else
      var next := if faults[0] then crls else PublishIfStale(licenses, acts, crls, products[0], clock, now, secs);
      PublishAll(licenses, acts, next, products[1..], faults[1..], clock, now, secs)
  }

  /** The ids of a list, as queried and as stored: arrays in ascending order. */
  datatype IdLists = IdLists(licenses: seq<Id>, activations: seq<Id>)

  datatype CrlRow = CrlRow(version: nat, generatedAt: int, nextUpdate: int, revoked: IdLists)

  type CrlRows = map<string, seq<CrlRow>>

  predicate Increasing(s: seq<Id>) { forall i, j :: 0 <= i < j < |s| ==> s[i] < s[j] }

  predicate InOrder(ids: IdLists) { Increasing(ids.licenses) && Increasing(ids.activations) }

  function SetsOf(ids: IdLists): RevokedIds { RevokedIds(Seats.IdSet(ids.licenses), Seats.IdSet(ids.activations)) }

  function RecordOf(row: CrlRow): CrlRecord { CrlRecord(row.version, row.generatedAt, row.nextUpdate, SetsOf(row.revoked)) }

  function RecordsOf(rows: seq<CrlRow>): (r: seq<CrlRecord>)
    ensures |r| == |rows| && forall i :: 0 <= i < |r| ==> r[i] == RecordOf(rows[i])
  {
    seq(|rows|, i requires 0 <= i < |rows| => RecordOf(rows[i]))
  }

  function LogOf(rows: CrlRows): Crls { map product | product in rows :: RecordsOf(rows[product]) }

  /** Every stored array is in order, hence without repeats. */
  ghost predicate Stored(rows: CrlRows) {
    forall product, i :: product in rows && 0 <= i < |rows[product]| ==> InOrder(rows[product][i].revoked)
  }

  predicate SameRevokedIds(a: IdLists, b: IdLists) { SameSet(a.licenses, b.licenses) && SameSet(a.activations, b.activations) }

  /** On what is stored and what is queried the comparison decides whether the revoked set has changed. */
  lemma SameRevokedIdsIff(a: IdLists, b: IdLists)
    requires InOrder(a) && InOrder(b)
    ensures SameRevokedIds(a, b) <==> SetsOf(a) == SetsOf(b)
  {
    SameSetIff(a.licenses, b.licenses);
    SameSetIff(a.activations, b.activations);
  }

  lemma {:induction false} LeastOf(s: set<Id>) returns (x: Id)
    requires s != {}
    ensures x in s && forall y :: y in s ==> x <= y
  {
    var z :| z in s;
    x := z;
    if y :| y in s && y < z {
      assert y in s - {z};
      x := LeastOf(s - {z});
      forall w | w in s ensures x <= w { if w != z { assert w in s - {z}; } }
    }
  }

  /** The least of what is left goes to the end. */
  predicate Sifted(r: seq<Id>, rest: set<Id>) {
    Increasing(r) && forall i, y :: 0 <= i < |r| && y in rest ==> r[i] < y
  }

  lemma SiftNext(r: seq<Id>, rest: set<Id>, x: Id)
    requires Sifted(r, rest) && x in rest && forall y :: y in rest ==> x <= y
    ensures Sifted(r + [x], rest - {x}) && Seats.IdSet(r + [x]) + (rest - {x}) == Seats.IdSet(r) + rest
  {
    IdSetAppend(r, x);
  }

  /** `ORDER BY id`. */
  method Query(s: set<Id>) returns (r: seq<Id>)
    ensures Increasing(r) && Seats.IdSet(r) == s
  {
    r := [];
    var rest := s;
    while rest != {}
      invariant Sifted(r, rest) && Seats.IdSet(r) + rest == s
      decreases |rest|
    {
      ghost var least := LeastOf(rest);
      var x :| x in rest && forall y :: y in rest ==> x <= y;
      SiftNext(r, rest, x);
      r, rest := r + [x], rest - {x};
    }
  }

  lemma IdSetAppend(r: seq<Id>, x: Id)
    ensures Seats.IdSet(r + [x]) == Seats.IdSet(r) + {x}
  {
    forall y ensures y in r + [x] <==> y in r || y == x {}
  }

  /** `ORDER BY version DESC LIMIT 1`. */
  method LatestRow(mine: seq<CrlRow>) returns (best: CrlRow)
    requires mine != []
    ensures best in mine && IsLatest(RecordsOf(mine), RecordOf(best))
  {
    var i := |mine| - 1;
    best := mine[i];
    ghost var at := i;
    ghost var records := RecordsOf(mine);
    while i > 0
      invariant 0 <= i <= at < |mine| && mine[at] == best
      invariant best.version == MaxVersion(records[i..])
    {
      i := i - 1;
      assert records[i..][1..] == records[i + 1..];
      if best.version < mine[i].version { best, at := mine[i], i; }
    }
    assert records[0..] == records && records[at] == RecordOf(best);
  }

  class CrlWorker {
    var licenses: map<Id, License>
    var acts: Acts
    var rows: CrlRows
    var running: bool

    /** The published lists behind the stored rows. */
    function Log(): Crls
      reads this
    {
      LogOf(rows)
    }

    ghost predicate Valid()
      reads this
    {
      Stored(rows) && Logged(licenses, acts, Log())
    }

    constructor (licenses: map<Id, License>, acts: Acts)
      ensures this.licenses == licenses && this.acts == acts && rows == map[] && Log() == map[] && !running && Valid()
    {
      this.licenses, this.acts, rows, running := licenses, acts, map[], false;
    }

    /** The row with the highest version. */
    method GetLatestCrl(product: string) returns (r: Option<CrlRow>)
      requires Stored(rows)
      ensures r.None? <==> Published(Log(), product) == []
      ensures r.Some? ==> IsLatest(Published(Log(), product), RecordOf(r.value)) && InOrder(r.value.revoked)
    {
      if product !in rows || rows[product] == [] { return None; }
      var best := LatestRow(rows[product]);
      r := Some(best);
    }

    /** The arrays hold the revoked licenses of the product and the deactivated seats of its licenses. */
    ghost predicate ListsRevoked(ids: IdLists, product: string)
      reads this
    {
      && (forall id :: id in ids.licenses <==>
            id in licenses && licenses[id].status == LicRevoked && licenses[id].productId == product)
      && (forall a :: a in ids.activations <==>
            a in acts && acts[a].status == Seats.Deactivated && acts[a].licenseId in licenses
            && licenses[acts[a].licenseId].productId == product)
    }

    /** Both queries of the projection. */
    method ProjectIds(product: string) returns (ids: IdLists)
      ensures InOrder(ids) && SetsOf(ids) == ProjectRevokedIds(licenses, acts, product) && ListsRevoked(ids, product)
    {
      var current := ProjectRevokedIds(licenses, acts, product);
      var lics := Query(current.licenses);
      var deactivated := Query(current.activations);
      ids := IdLists(lics, deactivated);
      assert forall id :: id in lics <==> id in Seats.IdSet(lics);
      assert forall a :: a in deactivated <==> a in Seats.IdSet(deactivated);
    }

    method GenerateNext(product: string, now: int, secs: Window) returns (r: CrlRow)
      requires Stored(rows)
      modifies this`rows
      ensures Stored(rows)
      ensures RecordOf(r) == GenerateCrl(licenses, acts, old(Log()), product, now, secs) && ListsRevoked(r.revoked, product)
      ensures Log() == old(Log())[product := Published(old(Log()), product) + [RecordOf(r)]]
    {
      var ids := ProjectIds(product);
      var latest := GetLatestCrl(product);
      r := CrlRow(if latest.Some? then latest.value.version + 1 else 1, now, now + secs, ids);
      var mine := if product in rows then rows[product] else [];
      assert RecordsOf(mine + [r]) == RecordsOf(mine) + [RecordOf(r)];
      rows := rows[product := mine + [r]];
      assert Log() == old(Log())[product := Published(old(Log()), product) + [RecordOf(r)]];
    }

    method PublishProduct(product: string, clock: int, now: int, secs: Window) returns (published: bool)
      requires Valid()
      modifies this`rows
      ensures Log() == PublishIfStale(licenses, acts, old(Log()), product, clock, now, secs) && Valid()
      ensures published == NeedsPublishing(licenses, acts, old(Log()), product, clock)
    {
      assert Ascending(Published(Log(), product));
      MaxOfLog(Published(Log(), product));
      PublishKeeps(licenses, acts, Log(), product, clock, now, secs);
      var current := ProjectIds(product);
      var latest := GetLatestCrl(product);
      EmptyIffNone(current);
      var hasContent := |current.licenses| + |current.activations| > 0;
      if !hasContent && latest.None? { return false; }
      if latest.Some? { SameRevokedIdsIff(latest.value.revoked, current); }
      var changed := latest.None? || !SameRevokedIds(latest.value.revoked, current);
      var stale := latest.Some? && latest.value.nextUpdate <= clock;
      published := changed || stale;
      if published {
        var _ := GenerateNext(product, now, secs);
      }
    }

    /** One sweep; nothing while another one runs, or without a signer. `faults` says which product's
        transaction is rolled back. */
    method RunOnce(signer: bool, products: seq<string>, faults: seq<bool>, clock: int, now: int, secs: Window)
      requires Valid() && |faults| == |products|
      modifies this`rows, this`running
      ensures Valid() && running == old(running)
      ensures Log() == if old(running) || !signer then old(Log()) else PublishAll(licenses, acts, old(Log()), products, faults, clock, now, secs)
    {
      if running { return; }
      running := true;
      if signer {
        var i := 0;
        while i < |products|
          invariant 0 <= i <= |products| && Valid() && running
          invariant PublishAll(licenses, acts, old(Log()), products, faults, clock, now, secs) ==
                    PublishAll(licenses, acts, Log(), products[i..], faults[i..], clock, now, secs)
        {
          assert products[i..][1..] == products[i + 1..] && faults[i..][1..] == faults[i + 1..];
          if !faults[i] {
            var _ := PublishProduct(products[i], clock, now, secs);
          }
          i := i + 1;
        }
      }
      running := false;
    }
  }

  lemma EmptyIffNone(ids: IdLists)
    ensures |ids.licenses| + |ids.activations| > 0 <==> SetsOf(ids).licenses != {} || SetsOf(ids).activations != {}
  {
    if ids.licenses != [] { assert ids.licenses[0] in Seats.IdSet(ids.licenses); }
    if ids.activations != [] { assert ids.activations[0] in Seats.IdSet(ids.activations); }
    if ids.licenses == [] { assert Seats.IdSet(ids.licenses) == {}; }
    if ids.activations == [] { assert Seats.IdSet(ids.activations) == {}; }
  }
}
