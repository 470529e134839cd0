/** The whole server over time: billing, seats, enforcement and the revocation list share one
    database, and every step of any of them is a step here. */
module Platform {
  import opened Tables
  import opened BillingInvariant
  import opened Seats
  import opened Enforcement
  import Runs = BillingRuns

  // ---- the revocation list ---------------------------------------------------------------------

  datatype RevokedIds = RevokedIds(licenses: set<Id>, activations: set<Id>)

  datatype CrlRecord = CrlRecord(version: nat, generatedAt: int, nextUpdate: int, revoked: RevokedIds)

  /** The published lists, per product; rows are never changed or removed. */
  type Crls = map<string, seq<CrlRecord>>

  function Published(crls: Crls, product: string): seq<CrlRecord> {
    if product in crls then crls[product] else []
  }

  function MaxVersion(records: seq<CrlRecord>): nat {
    if records == [] then 0
    else
      var rest := MaxVersion(records[1..]);
      if rest < records[0].version then records[0].version else rest
  }

  function ProjectRevokedIds(licenses: map<Id, License>, acts: Acts, product: string): RevokedIds {
    RevokedIds(set id | id in licenses && licenses[id].productId == product && licenses[id].status == LicRevoked,
               set a | a in acts && acts[a].status == Deactivated && acts[a].licenseId in licenses &&
                       licenses[acts[a].licenseId].productId == product)
  }

  /** A new version: one more than the highest, holding what is revoked now. */
  function GenerateCrl(licenses: map<Id, License>, acts: Acts, crls: Crls, product: string, now: int, nextUpdateSecs: Window): CrlRecord {
    CrlRecord(MaxVersion(Published(crls, product)) + 1, now, now + nextUpdateSecs, ProjectRevokedIds(licenses, acts, product))
  }

  predicate IsLatest(records: seq<CrlRecord>, r: CrlRecord) { r in records && r.version == MaxVersion(records) }

  /** Whether a sweep publishes: the set changed, or the latest list has run out. */
  ghost predicate NeedsPublishing(licenses: map<Id, License>, acts: Acts, crls: Crls, product: string, clock: int) {
    var current, records := ProjectRevokedIds(licenses, acts, product), Published(crls, product);
    if records == [] then current.licenses != {} || current.activations != {}
    else exists r :: IsLatest(records, r) && (r.revoked != current || r.nextUpdate <= clock)
  }

  ghost function PublishIfStale(licenses: map<Id, License>, acts: Acts, crls: Crls, product: string,
      clock: int, now: int, nextUpdateSecs: Window): Crls
  {
    if NeedsPublishing(licenses, acts, crls, product, clock) then
      crls[product := Published(crls, product) + [GenerateCrl(licenses, acts, crls, product, now, nextUpdateSecs)]]
    else crls
  }

  // ---- steps -----------------------------------------------------------------------------------

  datatype Server = Server(db: Db, acts: Acts, checkins: Checkins, crls: Crls)

  datatype Step =
    | Bill(step: Runs.Step)
    | Bind(id: Id, lic: Id, req: Request, k: nat, token: string, now: int)
    | Rebind(id: Id, req: Request, k: nat, token: string, now: int)
    | Release(id: Id, now: int)
    | Enforce(signer: Option<Signer>, b: Beat)
    | PruneCheckins(cutoff: int)
    | Publish(product: string, clock: int, now: int, nextUpdateSecs: Window)

  ghost function Apply(s: Server, step: Step): Server {
    match step
    case Bill(step) => s.(db := Runs.Apply(s.db, step))
    case Bind(id, lic, req, k, token, now) =>
      if id in s.acts || lic !in s.db.licenses then s else s.(acts := s.acts[id := NewRow(lic, req, k, token, now)])
    case Rebind(id, req, k, token, now) =>
      if id !in s.acts then s else s.(acts := s.acts[id := Refreshed(s.acts[id], req, k, token, now)])
    case Release(id, now) => s.(acts := DeactivateRow(s.acts, id, now))
    case Enforce(signer, b) =>
      var r := RunEnforcement(s.db.licenses, s.acts, s.checkins, signer, b);
      s.(acts := r.acts, checkins := r.checkins)
    case PruneCheckins(cutoff) => s.(checkins := Pruned(s.checkins, cutoff))
    case Publish(product, clock, now, nextUpdateSecs) =>
      s.(crls := PublishIfStale(s.db.licenses, s.acts, s.crls, product, clock, now, nextUpdateSecs))
  }

  /** What a move of the interleaved seat machine writes is what a step here writes. */
  lemma SeatMoveIsStep(server: Server, s: State, m: Move) returns (step: Step)
    requires s.acts == server.acts && s.lic in server.db.licenses && Enabled(s, m) && !m.Elsewhere?
    ensures Next(s, m).acts == server.acts || Apply(server, step) == server.(acts := Next(s, m).acts)
  {
    step := Publish("", 0, 0, 1);
    if m.Deactivate? {
      step := Release(m.id, m.now);
    } else if m.Commit? {
      var proc := s.procs[m.p];
      if proc.pc.matched.Some? && proc.pc.matched.value in s.acts {
        step := Rebind(proc.pc.matched.value, proc.req, s.k, m.token, m.now);
      } else {
        step := Bind(m.newId, s.lic, proc.req, s.k, m.token, m.now);
      }
    }
  }

  ghost predicate IsRun(trace: seq<Server>, steps: seq<Step>) {
    && |trace| == |steps| + 1
    && forall i :: 0 <= i < |steps| ==> trace[i + 1] == Apply(trace[i], steps[i])
  }

  /** Activations belong to issued licenses. */
  ghost predicate Bound(s: Server) { forall a :: a in s.acts ==> s.acts[a].licenseId in s.db.licenses }

  ghost predicate Valid(s: Server) { BillingInvariant.Valid(s.db) && Bound(s) }

  /** Activations are never re-pointed and never come back once deactivated. */
  ghost predicate ActsEvolve(acts: Acts, acts': Acts) {
    forall a :: a in acts ==> a in acts' && acts'[a].licenseId == acts[a].licenseId &&
                              (acts[a].status == Deactivated ==> acts'[a].status == Deactivated)
  }

  ghost predicate Evolves(s: Server, s': Server) {
    LicensesEvolve(s.db, s'.db) && ActsEvolve(s.acts, s'.acts)
  }

  lemma BeatKeepsRows(s: Server, signer: Option<Signer>, b: Beat)
    ensures ActsEvolve(s.acts, RunEnforcement(s.db.licenses, s.acts, s.checkins, signer, b).acts)
    ensures RunEnforcement(s.db.licenses, s.acts, s.checkins, signer, b).acts.Keys == s.acts.Keys
  {
  }

  /** A step that leaves billing alone and only evolves the activations. */
  lemma ActsStepKeeps(s: Server, s': Server)
    requires Valid(s) && s'.db == s.db && ActsEvolve(s.acts, s'.acts)
    requires forall a :: a in s'.acts && a !in s.acts ==> s'.acts[a].licenseId in s.db.licenses
    ensures Valid(s') && Evolves(s, s')
  {
    forall id | id in s.db.licenses ensures LicenseEvolves(s.db.licenses[id], s'.db.licenses[id]) {}
  }

  lemma StepKeeps(s: Server, step: Step)
    requires Valid(s)
    ensures Valid(Apply(s, step)) && Evolves(s, Apply(s, step))
  {
    if step.Bill? {
      Runs.StepKeeps(s.db, step.step);
    } else {
      if step.Enforce? { BeatKeepsRows(s, step.signer, step.b); }
      ActsStepKeeps(s, Apply(s, step));
    }
  }

  lemma EvolvesTransitive(a: Server, b: Server, c: Server)
    requires Evolves(a, b) && Evolves(b, c)
    ensures Evolves(a, c)
  {
    forall id | id in a.db.licenses ensures id in c.db.licenses && LicenseEvolves(a.db.licenses[id], c.db.licenses[id]) {
      assert LicenseEvolves(a.db.licenses[id], b.db.licenses[id]);
      assert LicenseEvolves(b.db.licenses[id], c.db.licenses[id]);
    }
  }

  /** In every run of the whole server, revoked licenses stay revoked, products and plans of licenses
      stay, activations stay with their license and stay deactivated. */
  lemma {:induction false} RunKeeps(trace: seq<Server>, steps: seq<Step>, i: nat, j: nat)
    requires IsRun(trace, steps) && Valid(trace[0]) && i <= j <= |steps|
    ensures Valid(trace[i]) && Valid(trace[j]) && Evolves(trace[i], trace[j])
    decreases j
  {
    if j != 0 {
      RunKeeps(trace, steps, if i == j then j - 1 else i, j - 1);
      StepKeeps(trace[j - 1], steps[j - 1]);
      if i < j { EvolvesTransitive(trace[i], trace[j - 1], trace[j]); }
    }
  }
}
