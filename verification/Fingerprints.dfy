/** Which active machine a returning fingerprint belongs to (fingerprint.ts). */
module Fingerprints {
  import opened Tables

  datatype Candidate = Candidate(id: Id, machineId: string, signals: seq<string>, updatedAt: int)

  function SignalSet(s: seq<string>): set<string> { set x | x in s }

  function Overlap(a: seq<string>, b: seq<string>): nat { |SignalSet(a) * SignalSet(b)| }

  method OverlapCount(a: seq<string>, b: seq<string>) returns (n: nat)
    ensures n == Overlap(a, b)
  {
    var setA, setB := SignalSet(a), SignalSet(b);
    n := 0;
    var rest := setA;
    while rest != {}
      invariant rest <= setA
      invariant n + |rest * setB| == |setA * setB|
      decreases rest
    {
      var s :| s in rest;
      if s in setB {
        assert rest * setB == (rest - {s}) * setB + {s};
        n := n + 1;
      } else {
        assert rest * setB == (rest - {s}) * setB;
      }
      rest := rest - {s};
    }
    assert rest * setB == {};
  }

  // ---- the choice ------------------------------------------------------------------------------

  /** A threshold below one behaves like one: sharing nothing never re-matches. */
  function Floor(k: int): int { if k < 1 then 1 else k }

  /** `j` is a better re-match than `i`: more shared signals, or as many and more recently active. */
  predicate Better(incoming: seq<string>, i: Candidate, j: Candidate) {
    var oi, oj := Overlap(incoming, i.signals), Overlap(incoming, j.signals);
    oj > oi || (oj == oi && j.updatedAt > i.updatedAt)
  }

  /** The best of the first `n` candidates, as the loop keeps it. */
  function Best(incoming: seq<string>, cands: seq<Candidate>, k: int, n: nat): (r: Option<nat>)
    requires n <= |cands|
    ensures r.Some? ==> r.value < n
  {
    if n == 0 then None
    else
      var best, c := Best(incoming, cands, k, n - 1), cands[n - 1];
      if Overlap(incoming, c.signals) < Floor(k) then best
      else if best.None? || Better(incoming, cands[best.value], c) then Some(n - 1)
      else best
  }

  function Exact(cands: seq<Candidate>, machineId: string, n: nat): (r: Option<nat>)
    requires n <= |cands|
    ensures r.Some? ==> r.value < n && cands[r.value].machineId == machineId
    ensures r.None? ==> forall i :: 0 <= i < n ==> cands[i].machineId != machineId
  {
    if n == 0 then None
    else
      var first := Exact(cands, machineId, n - 1);
      if first.Some? then first else if cands[n - 1].machineId == machineId then Some(n - 1) else None
  }

  function Match(incoming: seq<string>, machineId: string, cands: seq<Candidate>, k: int): (r: Option<nat>)
    ensures r.Some? ==> r.value < |cands|
  {
    var exact := Exact(cands, machineId, |cands|);
    if exact.Some? then exact else Best(incoming, cands, k, |cands|)
  }

  method ChooseMatch(incoming: seq<string>, machineId: string, cands: seq<Candidate>, k: int) returns (r: Option<Candidate>)
    ensures var m := Match(incoming, machineId, cands, k);
            r == if m.Some? then Some(cands[m.value]) else None
  {
    var i := 0;
    while i < |cands|
      invariant 0 <= i <= |cands|
      invariant Exact(cands, machineId, i) == None
    {
      if cands[i].machineId == machineId {
        ExactStays(cands, machineId, i + 1, |cands|);
        return Some(cands[i]);
      }
      i := i + 1;
    }
    var best := BestMatch(incoming, cands, k);
    r := if best.Some? then Some(cands[best.value]) else None;
  }

  /** The loop over the candidates when none is the machine's own row. */
  method BestMatch(incoming: seq<string>, cands: seq<Candidate>, k: int) returns (best: Option<nat>)
    ensures best == Best(incoming, cands, k, |cands|)
  {
    best := None;
    var bestOverlap := 0;
    var i := 0;
    while i < |cands|
      invariant 0 <= i <= |cands|
      invariant best == Best(incoming, cands, k, i)
      invariant bestOverlap == if best.Some? then Overlap(incoming, cands[best.value].signals) else 0
    {
      var c := cands[i];
      var o := OverlapCount(incoming, c.signals);
      BestStep(incoming, cands, k, i);
      if o >= k && (o > bestOverlap || (o == bestOverlap && best.Some? && c.updatedAt > cands[best.value].updatedAt)) {
        best := Some(i);
        bestOverlap := o;
      }
      i := i + 1;
    }
  }

  /** One turn of that loop, whose running overlap starts at zero. */
  lemma BestStep(incoming: seq<string>, cands: seq<Candidate>, k: int, i: nat)
    requires i < |cands|
    ensures var best, c := Best(incoming, cands, k, i), cands[i];
            var o := Overlap(incoming, c.signals);
            var bestOverlap := if best.Some? then Overlap(incoming, cands[best.value].signals) else 0;
            Best(incoming, cands, k, i + 1) ==
              if o >= k && (o > bestOverlap || (o == bestOverlap && best.Some? && c.updatedAt > cands[best.value].updatedAt))
              then Some(i) else best
  {
    BestOverlapFloor(incoming, cands, k, i);
  }

  lemma {:induction false} ExactStays(cands: seq<Candidate>, machineId: string, i: nat, n: nat)
    requires i <= n <= |cands| && Exact(cands, machineId, i).Some?
    ensures Exact(cands, machineId, n) == Exact(cands, machineId, i)
  {
    if i < n { ExactStays(cands, machineId, i, n - 1); }
  }

  lemma {:induction false} BestOverlapFloor(incoming: seq<string>, cands: seq<Candidate>, k: int, n: nat)
    requires n <= |cands|
    ensures var b := Best(incoming, cands, k, n); b.Some? ==> Floor(k) <= Overlap(incoming, cands[b.value].signals)
  {
    if n != 0 { BestOverlapFloor(incoming, cands, k, n - 1); }
  }

  /** Enough shared signals for a re-match. */
  predicate Shares(incoming: seq<string>, c: Candidate, k: int) { Floor(k) <= Overlap(incoming, c.signals) }

  /** Among the first `n` candidates, `b` shares enough and none that does is better. */
  predicate Unbeaten(incoming: seq<string>, cands: seq<Candidate>, k: int, n: nat, b: nat)
    requires n <= |cands| && b < |cands|
  {
    && Shares(incoming, cands[b], k)
    && forall i :: 0 <= i < n && Shares(incoming, cands[i], k) ==> !Better(incoming, cands[b], cands[i])
  }

  /** For every threshold, the loop's answer is a candidate that no other one beats among those that
      share at least `max(k, 1)` signals, and there is none exactly when none shares that many. */
  lemma {:induction false} BestIsMaximal(incoming: seq<string>, cands: seq<Candidate>, k: int, n: nat)
    requires n <= |cands|
    ensures var b := Best(incoming, cands, k, n);
            && (b.None? <==> (forall i :: 0 <= i < n ==> !Shares(incoming, cands[i], k)))
            && (b.Some? ==> Unbeaten(incoming, cands, k, n, b.value))
  {
    if n != 0 {
      BestIsMaximal(incoming, cands, k, n - 1);
      var before, c := Best(incoming, cands, k, n - 1), cands[n - 1];
      if Shares(incoming, c, k) && before.Some? && Better(incoming, cands[before.value], c) {
        forall i | 0 <= i < n && Shares(incoming, cands[i], k) ensures !Better(incoming, c, cands[i]) {
          if i < n - 1 { BetterThanBest(incoming, cands[before.value], c, cands[i]); }
        }
      } else if Shares(incoming, c, k) && before.None? {
        assert forall i :: 0 <= i < n - 1 ==> !Shares(incoming, cands[i], k);
        assert Unbeaten(incoming, cands, k, n, n - 1);
      }
    }
  }

  lemma BetterThanBest(incoming: seq<string>, best: Candidate, c: Candidate, other: Candidate)
    requires Better(incoming, best, c) && !Better(incoming, best, other)
    ensures !Better(incoming, c, other)
  {
  }

  /** The machine's own row wins whatever the overlaps; without one, the best re-match does; and a
      machine is new exactly when it has no row and no candidate shares enough signals. */
  lemma MatchIsMaximal(incoming: seq<string>, machineId: string, cands: seq<Candidate>, k: int)
    ensures var m := Match(incoming, machineId, cands, k);
            var own := exists i :: 0 <= i < |cands| && cands[i].machineId == machineId;
            && (own ==> m.Some? && cands[m.value].machineId == machineId)
            && (!own && m.Some? ==> Unbeaten(incoming, cands, k, |cands|, m.value))
            && (m.None? <==> !own && (forall i :: 0 <= i < |cands| ==> !Shares(incoming, cands[i], k)))
  {
    BestIsMaximal(incoming, cands, k, |cands|);
  }
}
