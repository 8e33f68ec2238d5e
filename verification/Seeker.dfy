/**
 Backward seek over an ordered key space that can only be read forward: a doubling search
 for a lower bound followed by a binary search (include/crucible/seeker.h).
 A position is an unsigned integer of `W` bits.
 */
module Seeker {

  import opened Common

  /** Unfinished at the end of the loop is the runtime_error of the source. */
  datatype SeekResult = Found(pos: nat) | Unfinished

  /** The variables of the loop. */
  datatype Search = Search(lower: nat, upper: nat, foundLow: bool, probe: nat)

  /** numeric_limits<Pos>::max() */
  function EndPos(W: nat): nat {
    Pow2(W) - 1
  }

  function Min(a: nat, b: nat): nat {
    if a < b then a else b
  }

  function Max(a: nat, b: nat): nat {
    if a < b then b else a
  }

  ghost predicate Sorted(r: seq<nat>) {
    forall i, j :: 0 <= i < j < |r| ==> r[i] <= r[j]
  }

  /**
   What one fetch from `lower` may answer while seeking `target`: an ascending run of keys with
   no key up to `target` left out before its last element, nonempty when some key lies in
   lower..target.  The run may stop anywhere after its first key, may overshoot the target, and
   may end in the sentinel that a caller appends when it runs off its tree.
   */
  ghost predicate FetchOk(keys: set<nat>, end: nat, target: nat, lower: nat, r: seq<nat>) {
    && Sorted(r)
    && (forall x :: x in r ==> lower <= x && (x in keys || (x == end && target < end)))
    && (forall k :: k in keys && lower <= k <= target ==>
        && r != []
        && r[0] <= target
        && (k <= r[|r| - 1] ==> k in r))
  }

  ghost predicate KeysOk(W: nat, keys: set<nat>) {
    forall k :: k in keys ==> k <= EndPos(W)
  }

  /** The maximum position stands for an empty answer.  This is the case in which the seek can mistake
      the key at the target for one. */
  ghost predicate LastIsKey(W: nat, keys: set<nat>, target: nat) {
    target == EndPos(W) && target > 0 && target in keys
  }

  ghost predicate NoneBelow(keys: set<nat>, target: nat) {
    forall k :: k in keys ==> k >= target
  }

  /** The seek finds the floor whatever a fetch returns: no key is at the maximum position, or the target
      is below it, or some key is below it but none right before it. */
  ghost predicate FloorSure(W: nat, keys: set<nat>, target: nat) {
    LastIsKey(W, keys, target) ==> target - 1 !in keys && !NoneBelow(keys, target)
  }

  /** What the seek returns instead of the last position: the key before it, or 0 if no key is below it. */
  ghost predicate IsMistake(W: nat, keys: set<nat>, target: nat, pos: nat) {
    && LastIsKey(W, keys, target)
    && ((pos == target - 1 && pos in keys) || (pos == 0 && NoneBelow(keys, target)))
  }

  /** The highest key at or below target, or the beginning of the key space when there is none. */
  ghost predicate IsFloor(keys: set<nat>, target: nat, pos: nat) {
    if exists k :: k in keys && k <= target then
      && pos in keys
      && pos <= target
      && (forall k :: k in keys && k <= target ==> k <= pos)
    else
      pos == 0
  }

  /** A run of keys that starts at the first key >= lower and stops anywhere later is a legal answer. */
  lemma PrefixIsFetchOk(keys: set<nat>, end: nat, target: nat, lower: nat, all: seq<nat>, n: nat)
    requires Sorted(all)
    requires forall k :: k in all <==> k in keys && lower <= k
    requires n <= |all| && (all != [] ==> 1 <= n)
    ensures FetchOk(keys, end, target, lower, all[..n])
  {
    assert forall x :: x in all[..n] ==> x in all;
    forall k | k in keys && lower <= k <= target
      ensures all[..n] != [] && all[..n][0] <= target && (k <= all[..n][n - 1] ==> k in all[..n])
    {
      var i :| 0 <= i < |all| && all[i] == k;
      if i >= n && k <= all[n - 1] {
        assert all[n - 1] <= all[i];
        assert all[..n][n - 1] == k;
      }
    }
  }

  lemma Pow2Mono(a: nat, b: nat)
    requires a <= b
    ensures Pow2(a) <= Pow2(b)
  {
    if a < b { Pow2Mono(a, b - 1); }
  }

  /** What the binary search knows about its bounds. */
  ghost predicate Bracket(keys: set<nat>, target: nat, lo: nat, hi: nat) {
    && lo in keys
    && lo < hi <= target
    && (forall k :: k in keys && k <= target ==> k < hi || k == hi == target)
  }

  /**
   The doubling phase after n fetches: the probe is at least 2^(n-1) behind the target or at 0,
   so it reaches 0 no later than the fetch after next to the width; a step of 0 never moves it.
   */
  ghost predicate Doubling(W: nat, target: nat, minStep: nat, probe: nat, n: nat) {
    && probe <= target <= EndPos(W)
    && (n == 0 ==> probe == target)
    && (minStep >= 1 && n >= 1 ==> n <= W + 1 && target - probe >= Min(target, Pow2(n - 1)))
    && (minStep == 0 ==> probe == target && (n > 0 ==> target > 0))
  }

  /** The binary search after n fetches: a bracket that the remaining fetches can close. */
  ghost predicate Bisecting(W: nat, keys: set<nat>, target: nat, lo: nat, hi: nat, n: nat) {
    && Bracket(keys, target, lo, hi)
    && n <= 2 * (W + 1)
    && hi - lo <= Pow2(2 * (W + 1) - n)
  }

  /** Double the distance from the upper bound, without passing the beginning of the key space. */
  method Widen(W: nat, target: nat, minStep: nat, probe: nat, upper: nat, ghost n: nat) returns (probe': nat)
    requires Doubling(W, target, minStep, probe, n) && 0 < probe && upper == target
    ensures Doubling(W, target, minStep, probe', n + 1)
  {
    assert probe <= upper;
    var wantDelta := Max(upper - probe, minStep);
    var haveDelta := Min(wantDelta, probe);
    assert haveDelta <= wantDelta;
    probe' := probe - haveDelta;
    if n >= W + 1 { Pow2Mono(W, n - 1); }
  }

  /** The fetch that ends the doubling phase leaves a bracket that W more fetches can close. */
  lemma LowFound(W: nat, keys: set<nat>, target: nat, minStep: nat, probe: nat, n: nat, r: seq<nat>)
    requires Doubling(W, target, minStep, probe, n) && (n > 0 ==> target !in keys || target == EndPos(W))
    requires FetchOk(keys, EndPos(W), target, probe, r) && r != []
    requires if target == EndPos(W) then r[0] < target else r[0] <= target
    requires KeysOk(W, keys)
    ensures r[0] in keys && (n > 0 ==> minStep >= 1)
    ensures target in keys && target != EndPos(W) ==> n == 0 && r[0] == target
    ensures target !in keys || target == EndPos(W) ==> minStep >= 1 && Bisecting(W, keys, target, r[0], target, n + 1)
  {
    assert r[0] in r;
    if target !in keys || target == EndPos(W) { Pow2Mono(W, 2 * (W + 1) - (n + 1)); }
  }

  /** One fetch from the middle of the bracket halves it, whichever side of the target it lands on. */
  lemma BisectStep(W: nat, keys: set<nat>, target: nat, lo: nat, hi: nat, n: nat, r: seq<nat>)
    requires Bisecting(W, keys, target, lo, hi, n) && hi - lo >= 2 && target <= EndPos(W)
    requires KeysOk(W, keys)
    requires FetchOk(keys, EndPos(W), target, lo + (hi - lo) / 2, r) && (target in keys ==> target == EndPos(W))
    ensures n < 2 * (W + 1)
    ensures (r == [] || target < r[0]) ==> Bisecting(W, keys, target, lo, lo + (hi - lo) / 2, n + 1)
    ensures r != [] && r[|r| - 1] < target ==> Bisecting(W, keys, target, r[|r| - 1], hi, n + 1)
  {
    if r != [] { assert r[0] in r && r[|r| - 1] in r; }
  }

  ghost predicate OneAtATime(fetch: (nat, nat, nat) -> seq<nat>, target: nat) {
    forall n, lower :: |fetch(n, lower, target)| <= 1
  }

  /** The index of the highest element at or below target, scanning from the high end, or -1. */
  method HighestAtMost(r: seq<nat>, target: nat) returns (i: int)
    ensures -1 <= i < |r|
    ensures 0 <= i ==> r[i] <= target
    ensures forall j :: i < j < |r| ==> target < r[j]
  {
    i := |r| - 1;
    while 0 <= i && target < r[i]
      invariant -1 <= i < |r|
      invariant forall j :: i < j < |r| ==> target < r[j]
    {
      i := i - 1;
    }
  }

  /**
   The lower half of the loop body, once a lower bound is known: answer from the run if it
   straddles the target, otherwise move one bound, and answer when nothing fits between them.
   `n` counts the fetches including the one that gave `result`.
   */
  method Narrow(W: nat, target: nat, result: seq<nat>, probe: nat, lower: nat, upper: nat, ghost keys: set<nat>, ghost n: nat)
    returns (r: SeekResult, lo: nat, hi: nat)
    requires target <= EndPos(W) && probe <= target && n >= 1
    requires KeysOk(W, keys)
    requires FetchOk(keys, EndPos(W), target, probe, result)
    requires if result != [] && lower == result[0] && upper == target && lower <= target
             then if target in keys && target != EndPos(W) then lower == target else Bisecting(W, keys, target, lower, target, n)
             else Bisecting(W, keys, target, lower, upper, n - 1) && upper - lower >= 2
                  && probe == lower + (upper - lower) / 2 && (target in keys ==> target == EndPos(W))
    ensures r.Found? ==> (r.pos == lower || r.pos in result) && r.pos in keys
    ensures r.Found? ==> IsFloor(keys, target, r.pos) || IsMistake(W, keys, target, r.pos)
    ensures r.Found? && (|result| <= 1 || NoneBelow(keys, target)) && !FloorSure(W, keys, target) ==> IsMistake(W, keys, target, r.pos)
    ensures r.Found? <== target in keys && target != EndPos(W)
    ensures r.Unfinished? ==> Bisecting(W, keys, target, lo, hi, n) && hi - lo >= 2 && (lo == lower || lo in result)
  {
    var lowPos := if result == [] then EndPos(W) else result[0];
    var highPos := if result == [] then EndPos(W) else result[|result| - 1];
    assert result != [] ==> lowPos in result && highPos in result;
    lo, hi := lower, upper;
    if lowPos <= target <= highPos {
      var i := HighestAtMost(result, target);
      if 0 <= i {
        FloorInRun(keys, EndPos(W), target, probe, result, i);
        return Found(result[i]), lo, hi;
      }
      assert result == [];
    }
    if !(result != [] && lower == result[0] && upper == target) {
      BisectStep(W, keys, target, lower, upper, n - 1, result);
    }
    if target <= lowPos {
      hi := probe;
    }
    if highPos < target {
      lo := Min(highPos, hi);
    }
    assert lo <= hi;
    var delta := (hi - lo) / 2;
    if delta < 1 {
      return Found(lo), lo, hi;
    }
    assert lo <= lo + delta <= hi;
    return Unfinished, lo, hi;
  }

  /** The loop invariant after n fetches. */
  ghost predicate Searching(W: nat, keys: set<nat>, target: nat, minStep: nat, s: Search, n: nat) {
    && s.probe <= target
    && (n > 0 ==> target > 0 && (target !in keys || target == EndPos(W)))
    && (if s.foundLow then
          && n > 0 && minStep >= 1
          && (target in keys ==> target == EndPos(W))
          && Bisecting(W, keys, target, s.lower, s.upper, n)
          && s.upper - s.lower >= 2
          && s.probe == s.lower + (s.upper - s.lower) / 2
        else
          s.upper == target && Doubling(W, target, minStep, s.probe, n))
  }

  /** A fetch from the beginning that finds no lower bound: there is no key, or only the last position. */
  lemma NothingLow(W: nat, keys: set<nat>, target: nat, r: seq<nat>, low: nat)
    requires FetchOk(keys, EndPos(W), target, 0, r) && target <= EndPos(W) && KeysOk(W, keys)
    requires low == (if r == [] then EndPos(W) else r[0]) && !(if target == EndPos(W) then low < target else low <= target)
    ensures IsFloor(keys, target, 0) || IsMistake(W, keys, target, 0)
    ensures NoneBelow(keys, target)
    ensures LastIsKey(W, keys, target) ==> IsMistake(W, keys, target, 0)
  {
    assert r != [] ==> r[0] in r;
    forall k | k in keys ensures k >= target {
      assert k < target ==> k !in r;
    }
  }

  /** Still looking for a lower bound: stop at the beginning of the key space, else move the probe. */
  method LookLower(W: nat, target: nat, minStep: nat, s: Search, result: seq<nat>, ghost keys: set<nat>, ghost n: nat)
    returns (r: SeekResult, s': Search)
    requires target <= EndPos(W) && KeysOk(W, keys)
    requires Searching(W, keys, target, minStep, s, n) && !s.foundLow && FetchOk(keys, EndPos(W), target, s.probe, result)
    requires var low := if result == [] then EndPos(W) else result[0]; !(if target == EndPos(W) then low < target else low <= target)
    ensures r.Found? ==> r.pos == 0 && NoneBelow(keys, target) && (IsFloor(keys, target, 0) || IsMistake(W, keys, target, 0))
    ensures r.Found? && LastIsKey(W, keys, target) ==> IsMistake(W, keys, target, 0)
    ensures r.Unfinished? ==> Searching(W, keys, target, minStep, s', n + 1) && !s'.foundLow
    ensures r.Found? && (n == 0 || minStep == 0) ==> target == 0
  {
    if s.probe == 0 {
      NothingLow(W, keys, target, result, if result == [] then EndPos(W) else result[0]);
      return Found(0), s;
    }
    var probe := Widen(W, target, minStep, s.probe, s.upper, n);
    return Unfinished, s.(probe := probe);
  }

  /** The loop body after its fetch. */
  method Advance(W: nat, target: nat, minStep: nat, s: Search, result: seq<nat>, ghost keys: set<nat>, ghost n: nat)
    returns (r: SeekResult, s': Search)
    requires target <= EndPos(W)
    requires KeysOk(W, keys)
    requires Searching(W, keys, target, minStep, s, n)
    requires FetchOk(keys, EndPos(W), target, s.probe, result)
    ensures r.Found? ==> IsFloor(keys, target, r.pos) || IsMistake(W, keys, target, r.pos)
    ensures r.Found? && (|result| <= 1 || NoneBelow(keys, target)) && !FloorSure(W, keys, target) ==> IsMistake(W, keys, target, r.pos)
    ensures r.Found? ==> r.pos in result || (s.foundLow && r.pos == s.lower) || (r.pos == 0 && 0 !in keys)
    ensures r.Unfinished? ==> Searching(W, keys, target, minStep, s', n + 1)
    ensures r.Unfinished? && s'.foundLow ==> s'.lower in result || (s.foundLow && s'.lower == s.lower)
    ensures r.Found? && n == 0 ==> target == 0 || (target in keys && target != EndPos(W)) || (minStep >= 1 && target != EndPos(W))
    ensures r.Found? && minStep == 0 ==> n == 0
  {
    var lowPos := if result == [] then EndPos(W) else result[0];
    var highPos := if result == [] then EndPos(W) else result[|result| - 1];
    assert result != [] ==> lowPos in result && highPos in result;
    assert s.probe <= highPos;
    assert s.probe <= lowPos;
    assert lowPos <= highPos;
    s' := s;
    if !s.foundLow {
      if !(if target == EndPos(W) then lowPos < target else lowPos <= target) {
        r, s' := LookLower(W, target, minStep, s, result, keys, n);
        return;
      }
      s' := s'.(foundLow := true, lower := lowPos);
      LowFound(W, keys, target, minStep, s.probe, n, result);
    }
    var lo, hi;
    r, lo, hi := Narrow(W, target, result, s.probe, s'.lower, s'.upper, keys, n + 1);
    s' := Search(lo, hi, true, if lo <= hi then lo + (hi - lo) / 2 else lo);
  }

  /**
   `fetch(n, lower, upper)` is the answer to the n-th call, so it may change from call to call.
   The result is the floor of the target and was seen in some answer, unless the target is the maximum
   position and a key; then it is the floor whatever the fetch if FloorSure holds, and otherwise it is
   wrong for every fetch that returns one key at a time (and for any fetch if no key is below).
   With the default loop limit the seek gives up only when `minStep` is 0 and the probe cannot move.
   */
  method SeekBackward(W: nat, target: nat, fetch: (nat, nat, nat) -> seq<nat>, minStep: nat, maxLoops: nat,
                      ghost keys: set<nat>)
    returns (r: SeekResult, fetches: nat, seen: set<nat>)
    requires target <= EndPos(W)
    requires KeysOk(W, keys)
    requires forall n, lower: nat :: lower <= target ==> FetchOk(keys, EndPos(W), target, lower, fetch(n, lower, target))
    ensures r.Found? && FloorSure(W, keys, target) ==> IsFloor(keys, target, r.pos)
    ensures r.Found? ==> IsFloor(keys, target, r.pos) || IsMistake(W, keys, target, r.pos)
    ensures r.Found? && !FloorSure(W, keys, target) && (OneAtATime(fetch, target) || NoneBelow(keys, target)) ==> IsMistake(W, keys, target, r.pos)
    ensures seen <= keys + {EndPos(W)}
    ensures r.Found? && IsFloor(keys, target, r.pos) && (exists k :: k in keys && k <= target) ==> r.pos in seen
    ensures r.Found? && target in keys ==> target in seen
    ensures fetches <= Min(2 * (W + 1), maxLoops)
    ensures 2 * (W + 1) <= maxLoops ==> (r.Found? <==> minStep >= 1 || target == 0 || (target in keys && target != EndPos(W)))
    ensures 1 <= maxLoops && target in keys && (target != EndPos(W) || target == 0) ==> fetches == 1
    ensures 2 <= maxLoops && target == EndPos(W) && target > 0 ==> fetches >= 2
  {
    var s := Search(0, target, false, target);
    var loops := Min(2 * (W + 1), maxLoops);
    fetches, seen := 0, {};
    while loops > 0
      invariant fetches + loops == Min(2 * (W + 1), maxLoops)
      invariant Searching(W, keys, target, minStep, s, fetches)
      invariant seen <= keys + {EndPos(W)}
      invariant s.foundLow ==> s.lower in seen
      invariant fetches > 0 && target in keys ==> target in seen
    {
      var result := fetch(fetches, s.probe, target);
      seen := seen + (set x | x in result);
      if fetches == 0 && target in keys { assert result[0] in result && result[0] == target; }
      var s';
      r, s' := Advance(W, target, minStep, s, result, keys, fetches);
      loops, fetches, s := loops - 1, fetches + 1, s';
      if r.Found? {
        return;
      }
    }
    r := Unfinished;
  }

  lemma FloorInRun(keys: set<nat>, end: nat, target: nat, lower: nat, r: seq<nat>, i: nat)
    requires FetchOk(keys, end, target, lower, r)
    requires i < |r| && r[i] <= target <= r[|r| - 1]
    requires forall j :: i < j < |r| ==> target < r[j]
    ensures IsFloor(keys, target, r[i])
  {
    assert r[i] in r;
    forall k | k in keys && k <= target
      ensures k <= r[i]
    {
      if lower <= k { assert k in r; }
    }
  }

  // ----- The other half of FloorSure

  predicate IsFirst(keys: set<nat>, lower: nat, first: nat) {
    first in keys && lower <= first && forall k :: k in keys && lower <= k ==> first <= k
  }

  function FirstFrom(keys: set<nat>, lower: nat): (r: Option<nat>)
    ensures if r.Some? then IsFirst(keys, lower, r.value) else forall k :: k in keys ==> k < lower
  {
    if exists k :: k in keys && lower <= k then
      FirstExists(keys, lower);
      var first :| first in keys && IsFirst(keys, lower, first);
      Some(first)
    else None
  }

  lemma {:induction false} FirstExists(keys: set<nat>, lower: nat)
    requires exists k :: k in keys && lower <= k
    ensures exists first :: first in keys && IsFirst(keys, lower, first)
    decreases keys
  {
    var k :| k in keys && lower <= k;
    var rest := keys - {k};
    assert keys == rest + {k};
    if exists j :: j in rest && lower <= j {
      FirstExists(rest, lower);
      var first :| first in rest && IsFirst(rest, lower, first);
      assert IsFirst(keys, lower, if first <= k then first else k);
    } else {
      assert IsFirst(keys, lower, k);
    }
  }

  /** The next key alone. */
  function OneKey(keys: set<nat>, lower: nat): seq<nat> {
    var first := FirstFrom(keys, lower);
    if first.Some? then [first.value] else []
  }

  /** Where FloorSure does not hold, the seek from the maximum position with a fetch that returns one key
      at a time ends with a wrong answer. */
  method SeekIsWrong(W: nat, keys: set<nat>, minStep: nat) returns (r: SeekResult)
    requires KeysOk(W, keys) && !FloorSure(W, keys, EndPos(W)) && minStep >= 1
    ensures forall lower: nat :: FetchOk(keys, EndPos(W), EndPos(W), lower, OneKey(keys, lower))
    ensures r.Found? && !IsFloor(keys, EndPos(W), r.pos)
  {
    var fetch := (n: nat, lower: nat, upper: nat) => OneKey(keys, lower);
    var found, _, _ := SeekBackward(W, EndPos(W), fetch, minStep, 2 * (W + 1), keys);
    r := found;
  }
}
