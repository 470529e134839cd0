/** A host that verifies over and over and persists the anchor after each success. */
module AnchorRuns {
  import opened Tables
  import opened Text
  import opened Lic1
  import opened Verifier

  /** One verification; its options' own anchor is replaced by the persisted one. */
  datatype Call = Call(token: string, keyring: map<string, KeyEntry>, opts: Options)

  function Result(core: Core, anchor: Option<I64>, call: Call): Verdict {
    Verify(core, call.token, call.keyring, call.opts.(anchor := anchor))
  }

  predicate Accepted(core: Core, anchor: Option<I64>, call: Call) { Result(core, anchor, call).Verified? }

  /** The anchor the host keeps: the one a success returns, else the old one. */
  function Persisted(core: Core, anchor: Option<I64>, call: Call): Option<I64> {
    var r := Result(core, anchor, call);
    if r.Verified? then Some(r.nextAnchor) else anchor
  }

  /** The anchors before the first call and after each of them. */
  ghost predicate IsRun(core: Core, anchors: seq<Option<I64>>, calls: seq<Call>) {
    && |anchors| == |calls| + 1
    && forall i :: 0 <= i < |calls| ==> anchors[i + 1] == Persisted(core, anchors[i], calls[i])
  }

  lemma AcceptedClaims(core: Core, anchor: Option<I64>, call: Call)
    requires Accepted(core, anchor, call)
    ensures var r := Result(core, anchor, call);
            InRange(r.claims) && r == CheckClaims(r.claims, call.opts.(anchor := anchor))
    ensures Persisted(core, anchor, call) ==
            Some(NextAnchor(if anchor.Some? then anchor.value else call.opts.now, call.opts.now))
  {
  }

  /** The clock of call `i` was accepted. */
  predicate AcceptedAt(core: Core, anchors: seq<Option<I64>>, calls: seq<Call>, i: nat)
    requires |anchors| == |calls| + 1 && i < |calls|
  {
    Accepted(core, anchors[i], calls[i])
  }

  /** The anchor after `n` calls is the maximum of the first one and of the accepted clocks. */
  ghost predicate IsMax(anchors: seq<Option<I64>>, clocks: seq<I64>, accepted: seq<bool>, n: nat)
    requires |anchors| == |clocks| + 1 == |accepted| + 1 && n <= |clocks|
  {
    && (anchors[0].Some? ==> anchors[n].Some? && anchors[0].value <= anchors[n].value)
    && (forall i :: 0 <= i < n && accepted[i] ==> anchors[n].Some? && clocks[i] <= anchors[n].value)
    && (anchors[n] == anchors[0] || exists i :: 0 <= i < n && accepted[i] && anchors[n] == Some(clocks[i]))
  }

  lemma {:induction false} MaxOfAccepted(anchors: seq<Option<I64>>, clocks: seq<I64>, accepted: seq<bool>, n: nat)
    requires |anchors| == |clocks| + 1 == |accepted| + 1 && n <= |clocks|
    requires forall i :: 0 <= i < |clocks| ==>
             anchors[i + 1] == if accepted[i] then Some(NextAnchor(if anchors[i].Some? then anchors[i].value else clocks[i], clocks[i]))
                               else anchors[i]
    ensures IsMax(anchors, clocks, accepted, n)
  {
    if n != 0 {
      MaxOfAccepted(anchors, clocks, accepted, n - 1);
      assert anchors[n] == if accepted[n - 1] then Some(NextAnchor(if anchors[n - 1].Some? then anchors[n - 1].value else clocks[n - 1], clocks[n - 1]))
                           else anchors[n - 1];
    }
  }

  function Clocks(calls: seq<Call>): seq<I64> { seq(|calls|, i requires 0 <= i < |calls| => calls[i].opts.now) }

  function Successes(core: Core, anchors: seq<Option<I64>>, calls: seq<Call>): seq<bool>
    requires |anchors| == |calls| + 1
  {
    seq(|calls|, i requires 0 <= i < |calls| => AcceptedAt(core, anchors, calls, i))
  }

  /** The anchor is the maximum of its start and of all accepted clocks. */
  lemma AnchorIsMax(core: Core, anchors: seq<Option<I64>>, calls: seq<Call>, n: nat)
    requires IsRun(core, anchors, calls) && n <= |calls|
    ensures IsMax(anchors, Clocks(calls), Successes(core, anchors, calls), n)
  {
    var clocks, accepted := Clocks(calls), Successes(core, anchors, calls);
    forall i | 0 <= i < |calls|
      ensures anchors[i + 1] == if accepted[i] then Some(NextAnchor(if anchors[i].Some? then anchors[i].value else clocks[i], clocks[i]))
                                else anchors[i]
    {
      assert anchors[i + 1] == Persisted(core, anchors[i], calls[i]);
      if accepted[i] { AcceptedClaims(core, anchors[i], calls[i]); }
    }
    MaxOfAccepted(anchors, clocks, accepted, n);
  }

  /** No accepted clock lies further behind the anchor than the caller's skew, saturation included. */
  lemma AcceptedWithinSkew(core: Core, anchor: Option<I64>, call: Call)
    requires Accepted(core, anchor, call) && anchor.Some?
    ensures SatSub(anchor.value, call.opts.skew) <= call.opts.now
  {
    AcceptedClaims(core, anchor, call);
  }

  /** With the anchor past `exp` plus the skew, no token with that expiry is accepted. */
  lemma BeyondAnchor(core: Core, anchor: I64, call: Call, exp: I64, skew: nat)
    requires exp + skew < anchor && call.opts.skew <= skew && Accepted(core, Some(anchor), call)
    ensures Result(core, Some(anchor), call).claims.expiresAt != Some(exp)
  {
    AcceptedClaims(core, Some(anchor), call);
  }

  /** Turning the clock back does not help: once some verification succeeded later than `exp` plus the
      largest skew in use, no token with that expiry is ever accepted again, whatever the clock says. */
  lemma ExpiredForGood(core: Core, anchors: seq<Option<I64>>, calls: seq<Call>, i: nat, j: nat, exp: I64, skew: nat)
    requires IsRun(core, anchors, calls) && i < j < |calls|
    requires AcceptedAt(core, anchors, calls, i) && exp + skew < calls[i].opts.now
    requires calls[j].opts.skew <= skew && AcceptedAt(core, anchors, calls, j)
    ensures Result(core, anchors[j], calls[j]).claims.expiresAt != Some(exp)
  {
    AnchorIsMax(core, anchors, calls, j);
    assert Successes(core, anchors, calls)[i] && Clocks(calls)[i] == calls[i].opts.now;
    BeyondAnchor(core, anchors[j].value, calls[j], exp, skew);
  }
}
