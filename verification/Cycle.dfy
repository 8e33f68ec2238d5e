/**
 The extent crawl (Crawl) over many calls of find_next_extent: how many calls it takes until every extent
 that has to be scanned is queued, while tasks finish between the calls.
 */
module Cycle {

  import opened Common
  import opened Crawl

  /** e was queued, and its task is finished or not. */
  ghost predicate Seen(s: State, e: Extent) {
    e in s.finished || exists h :: h in s.tasks && s.tasks[h] == e
  }

  /** Between two calls, tasks may finish; they move neither the end nor the deferral. */
  ghost predicate Settles(s: State, s': State) {
    && s'.tracker.end == s.tracker.end && s'.deferred == s.deferred && s.finished <= s'.finished
    && (forall h :: h in s.tasks ==> (h in s'.tasks && s'.tasks[h] == s.tasks[h]) || s.tasks[h] in s'.finished)
  }

  lemma {:induction false} FinishingSettles(tier: Tier, s: State, acts: seq<Action>)
    requires ValidTier(tier) && ValidRun(tier, s, acts) && forall i :: 0 <= i < |acts| ==> acts[i].FinishTask?
    ensures Settles(s, After(tier, s, acts))
    decreases |acts|
  {
    if acts != [] {
      assert acts[0].FinishTask?;
      FinishingSettles(tier, Step(tier, s, acts[0]), acts[1..]);
    }
  }

  /** The i-th call goes from ms[i], when the last transid is ts[i], to ss[i + 1]. */
  ghost predicate Calls(tier: Tier, ts: seq<nat>, ss: seq<State>, ms: seq<State>) {
    && |ss| == |ts| + 1 && |ms| == |ts|
    && forall i :: 0 <= i < |ts| ==> Settles(ss[i], ms[i]) && CallDone(tier, ts[i], ms[i], ss[i + 1])
  }

  lemma RestOfCalls(tier: Tier, ts: seq<nat>, ss: seq<State>, ms: seq<State>)
    requires Calls(tier, ts, ss, ms) && ts != []
    ensures Calls(tier, ts[1..], ss[1..], ms[1..]) && Settles(ss[0], ms[0]) && CallDone(tier, ts[0], ms[0], ss[1])
  {
    forall i | 0 <= i < |ts| - 1
      ensures Settles(ss[1..][i], ms[1..][i]) && CallDone(tier, ts[1..][i], ms[1..][i], ss[1..][i + 1])
    {
      assert ss[1..][i] == ss[i + 1] && ms[1..][i] == ms[i + 1] && ts[1..][i] == ts[i + 1];
    }
  }

  lemma SplitCalls(tier: Tier, ts: seq<nat>, ss: seq<State>, ms: seq<State>, n: nat)
    requires Calls(tier, ts, ss, ms) && n <= |ts|
    ensures Calls(tier, ts[..n], ss[..n + 1], ms[..n]) && Calls(tier, ts[n..], ss[n..], ms[n..])
  {
  }

  // ----- What was queued stays known

  lemma SeenStays(tier: Tier, t: nat, s: State, m: State, s': State, e: Extent)
    requires Settles(s, m) && CallDone(tier, t, m, s') && Seen(s, e)
    ensures Seen(s', e)
  {
    if e !in m.finished {
      var h :| h in s.tasks && s.tasks[h] == e;
      assert h in m.tasks && m.tasks[h] == e;
      assert h in s'.tasks && s'.tasks[h] == e;
    }
  }

  lemma {:induction false} SeenOverCalls(tier: Tier, ts: seq<nat>, ss: seq<State>, ms: seq<State>, e: Extent)
    requires Calls(tier, ts, ss, ms) && Seen(ss[0], e)
    ensures Seen(ss[|ts|], e)
    decreases |ts|
  {
    if ts != [] {
      RestOfCalls(tier, ts, ss, ms);
      SeenStays(tier, ts[0], ss[0], ms[0], ss[1], e);
      SeenOverCalls(tier, ts[1..], ss[1..], ms[1..], e);
    }
  }

  // ----- One cycle

  /** What the rest of the cycle has to scan. */
  ghost function Left(tier: Tier, p: Position): set<Extent> {
    set e | e in tier.extents && InCycle(tier, p, e)
  }

  lemma OneLess(tier: Tier, p: Position, e: Extent)
    requires ValidTier(tier) && FirstInCycle(tier, p, e)
    ensures e in Left(tier, p) && Left(tier, At(p, End(e))) == Left(tier, p) - {e}
  {
    forall f | f in Left(tier, p) && f != e ensures End(e) <= f.bytenr {
      assert e.bytenr <= f.bytenr;
    }
  }

  lemma FirstCall(tier: Tier, t: nat, s: State, m: State, s': State) returns (e: Extent)
    requires ValidTier(tier) && Settles(s, m) && CallDone(tier, t, m, s') && !s.deferred && Left(tier, s.tracker.end) != {}
    ensures e in Left(tier, s.tracker.end) && Seen(s', e) && !s'.deferred
    ensures s'.tracker.end == At(s.tracker.end, End(e)) && Left(tier, s'.tracker.end) == Left(tier, s.tracker.end) - {e}
  {
    var p := s.tracker.end;
    var f :| f in Left(tier, p);
    assert !CycleIsOver(tier, p);
    var h;
    e, h :| FirstInCycle(tier, p, e) && Queues(m, s', e, h);
    assert h in s'.tasks && s'.tasks[h] == e;
    OneLess(tier, p, e);
  }

  /** As many calls as the cycle has extents left to scan queue them all. */
  lemma {:induction false} CycleIsQueued(tier: Tier, ts: seq<nat>, ss: seq<State>, ms: seq<State>, e: Extent)
    requires ValidTier(tier) && Calls(tier, ts, ss, ms) && !ss[0].deferred
    requires e in Left(tier, ss[0].tracker.end) && |Left(tier, ss[0].tracker.end)| <= |ts|
    ensures Seen(ss[|ts|], e)
    decreases |ts|
  {
    RestOfCalls(tier, ts, ss, ms);
    var f := FirstCall(tier, ts[0], ss[0], ms[0], ss[1]);
    if e == f {
      SeenOverCalls(tier, ts[1..], ss[1..], ms[1..], e);
    } else {
      CycleIsQueued(tier, ts[1..], ss[1..], ms[1..], e);
    }
  }

  /** One call more ends the cycle: the crawl is up to date and waits, or is at the start of the next cycle. */
  lemma {:induction false} CycleEnds(tier: Tier, ts: seq<nat>, ss: seq<State>, ms: seq<State>)
    requires ValidTier(tier) && Calls(tier, ts, ss, ms) && !ss[0].deferred && |ts| == |Left(tier, ss[0].tracker.end)| + 1
    ensures var p, end, t := ss[0].tracker.end, ss[|ts|], ts[|ts| - 1];
            if p.maxTransid >= t then end.deferred && SameCycle(end.tracker.end, p)
            else !end.deferred && end.tracker.end == NextCycle(p, t)
    decreases |ts|
  {
    var p := ss[0].tracker.end;
    RestOfCalls(tier, ts, ss, ms);
    if Left(tier, p) != {} {
      var e := FirstCall(tier, ts[0], ss[0], ms[0], ss[1]);
      CycleEnds(tier, ts[1..], ss[1..], ms[1..]);
      assert NextCycle(At(p, End(e)), ts[|ts| - 1]) == NextCycle(p, ts[|ts| - 1]);
    } else {
      forall e ensures !InCycle(tier, p, e) { assert e !in Left(tier, p); }
      assert CycleIsOver(tier, p);
    }
  }

  // ----- Every extent

  lemma LeftIsBounded(tier: Tier, p: Position)
    ensures |Left(tier, p)| <= |tier.extents|
  {
    var rest := tier.extents - Left(tier, p);
    assert tier.extents == Left(tier, p) + rest;
  }

  lemma EnoughCalls(tier: Tier, ts: seq<nat>, ss: seq<State>, ms: seq<State>, e: Extent)
    requires ValidTier(tier) && Calls(tier, ts, ss, ms) && !ss[0].deferred && e in Left(tier, ss[0].tracker.end) && |tier.extents| <= |ts|
    ensures Seen(ss[|ts|], e)
  {
    LeftIsBounded(tier, ss[0].tracker.end);
    CycleIsQueued(tier, ts, ss, ms, e);
  }

  /** Twice as many calls as there are extents, and one, queue every extent that the crawl still has to scan,
      in the cycle it is in or in the next one, if its generation is not in the future. */
  lemma WantedIsQueued(tier: Tier, ts: seq<nat>, ss: seq<State>, ms: seq<State>, e: Extent)
    requires ValidTier(tier) && Calls(tier, ts, ss, ms) && !ss[0].deferred && 2 * |tier.extents| + 1 <= |ts|
    requires Wanted(tier, ss[0].tracker.end, e) && forall i :: 0 <= i < |ts| ==> e.gen <= ts[i]
    ensures Seen(ss[|ts|], e)
  {
    var p := ss[0].tracker.end;
    if e.gen <= p.maxTransid {
      EnoughCalls(tier, ts, ss, ms, e);
    } else {
      var n := |Left(tier, p)| + 1;
      LeftIsBounded(tier, p);
      SplitCalls(tier, ts, ss, ms, n);
      CycleEnds(tier, ts[..n], ss[..n + 1], ms[..n]);
      assert ts[..n][n - 1] == ts[n - 1] && ss[..n + 1][n] == ss[n];
      assert e in Left(tier, ss[n].tracker.end);
      EnoughCalls(tier, ts[n..], ss[n..], ms[n..], e);
    }
  }
}
