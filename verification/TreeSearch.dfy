/**
 Searching a btrfs tree through an ioctl that returns a short run of items in key order
 (lib/btrfs-tree.cc, lib/fs.cc).  A tree is the strictly ascending sequence of its item keys.
 */
module TreeSearch {

  import opened Common
  import Seeker

  const MAX32: nat := 0xFFFF_FFFF

  /** An item key: 64-bit objectid, 32-bit type field, 64-bit offset. */
  datatype Key = Key(objectid: nat, ty: nat, offset: nat)

  const LAST_KEY := Key(MAX64, MAX32, MAX64)

  predicate ValidKey(k: Key) {
    k.objectid <= MAX64 && k.ty <= MAX32 && k.offset <= MAX64
  }

  /** The order of keys in a tree. */
  predicate Less(a: Key, b: Key) {
    || a.objectid < b.objectid
    || (a.objectid == b.objectid && a.ty < b.ty)
    || (a.objectid == b.objectid && a.ty == b.ty && a.offset < b.offset)
  }

  // ----- BtrfsIoctlSearchKey::next_min

  /** The least key of type ty above ref, when there is one. */
  function NextOfType(ref: Key, ty: nat): Option<Key> {
    if ref.ty < ty then Some(Key(ref.objectid, ty, 0))
    else if ref.ty == ty && ref.offset < MAX64 then Some(Key(ref.objectid, ty, ref.offset + 1))
    else if ref.objectid < MAX64 then Some(Key(ref.objectid + 1, ty, 0))
    else None
  }

  /** Searching from NextOfType sees exactly the keys of that type above ref. */
  lemma NextOfTypeIsExact(ref: Key, ty: nat, k: Key)
    requires ValidKey(ref) && ValidKey(k) && k.ty == ty
    ensures Less(ref, k) <==> (NextOfType(ref, ty).Some? && !Less(k, NextOfType(ref, ty).value))
  {
  }

  /** The search key, whose minimum is moved forward field by field. */
  class SearchKey {
    var minObjectid: nat
    var minType: nat
    var minOffset: nat

    ghost function Min(): Key
      reads this
    {
      Key(minObjectid, minType, minOffset)
    }

    constructor (k: Key)
      ensures Min() == k
    {
      minObjectid, minType, minOffset := k.objectid, k.ty, k.offset;
    }

    /** next_min(ref, type): the exception is out_of_range, thrown when no key of the type is left. */
    method NextMinOfType(ref: Key, ty: nat) returns (threw: bool)
      requires ValidKey(ref) && ty < 256
      modifies this
      ensures threw <==> NextOfType(ref, ty).None?
      ensures !threw ==> Min() == NextOfType(ref, ty).value
      ensures threw ==> forall k: Key :: ValidKey(k) && k.ty == ty ==> !Less(ref, k)
    {
      if ref.ty < ty {
        minObjectid, minType, minOffset := ref.objectid, ty, 0;
      } else if ref.ty > ty {
        minObjectid := (ref.objectid + 1) % (MAX64 + 1);
        if !(minObjectid > ref.objectid) {
          return true;
        }
        minType, minOffset := ty, 0;
      } else {
        minObjectid, minType := ref.objectid, ref.ty;
        minOffset := (ref.offset + 1) % (MAX64 + 1);
        if minOffset < ref.offset {
          minObjectid := (minObjectid + 1) % (MAX64 + 1);
          if !(minObjectid > ref.objectid) {
            return true;
          }
          minType := ty;
          assert minOffset == 0;
        }
      }
      return false;
    }

    /** next_min(ref): the source's check tests the type after it wrapped, so it never throws. */
    method NextMin(ref: Key)
      requires ValidKey(ref)
      modifies this
      ensures Min() == NextAny(ref)
    {
      minObjectid, minType := ref.objectid, ref.ty;
      minOffset := (ref.offset + 1) % (MAX64 + 1);
      if minOffset < ref.offset {
        minType := (minType + 1) % (MAX32 + 1);
        assert minOffset == 0;
        if minType < ref.ty {
          assert minType == 0;
          minObjectid := (minObjectid + 1) % (MAX64 + 1);
        }
      }
    }
  }

  function NextAny(ref: Key): Key {
    if ref.offset < MAX64 then ref.(offset := ref.offset + 1)
    else if ref.ty < MAX32 then Key(ref.objectid, ref.ty + 1, 0)
    else if ref.objectid < MAX64 then Key(ref.objectid + 1, 0, 0)
    else Key(0, 0, 0)
  }

  /** The one-argument form steps to the successor, except from the last key, where it starts over. */
  lemma NextAnyIsExactBelowLast(ref: Key)
    requires ValidKey(ref)
    ensures (forall k :: ValidKey(k) ==> (Less(ref, k) <==> !Less(k, NextAny(ref)))) <==> ref != LAST_KEY
  {
    if ref == LAST_KEY {
      var k := Key(0, 0, 0);
      assert ValidKey(k) && !Less(ref, k) && !Less(k, NextAny(ref));
    }
  }

  // ----- Fetchers

  /** BtrfsTreeObjectFetcher searches by objectid, BtrfsTreeOffsetFetcher by offset in one objectid. */
  datatype Fetcher = ByObject(ty: nat) | ByOffset(objectid: nat, ty: nat)

  predicate ValidFetcher(f: Fetcher) {
    f.ty < 256 && (f.ByOffset? ==> f.objectid <= MAX64)
  }

  function FillMin(f: Fetcher, logical: nat): Key {
    match f
    case ByObject(ty) => Key(logical, ty, 0)
    case ByOffset(objectid, ty) => Key(objectid, ty, logical)
  }

  function FillMax(f: Fetcher): Key {
    match f
    case ByObject(ty) => Key(MAX64, ty, MAX64)
    case ByOffset(objectid, ty) => Key(objectid, ty, MAX64)
  }

  function Logical(f: Fetcher, k: Key): nat {
    if f.ByObject? then k.objectid else k.offset
  }

  predicate Match(f: Fetcher, k: Key) {
    k.ty == f.ty && (f.ByOffset? ==> k.objectid == f.objectid)
  }

  predicate Stop(f: Fetcher, k: Key) {
    f.ByOffset? && (k.objectid > f.objectid || k.ty > f.ty)
  }

  ghost predicate ValidTree(tree: seq<Key>) {
    && (forall i :: 0 <= i < |tree| ==> ValidKey(tree[i]))
    && (forall i, j :: 0 <= i < j < |tree| ==> Less(tree[i], tree[j]))
  }

  /** The number of items below min, which is the index where a search from min starts. */
  function LowerIndex(tree: seq<Key>, min: Key, p: nat := 0): (i: nat)
    requires p <= |tree|
    ensures p <= i <= |tree|
    ensures forall j :: p <= j < i ==> Less(tree[j], min)
    ensures i < |tree| ==> !Less(tree[i], min)
    decreases |tree| - p
  {
    if p < |tree| && Less(tree[p], min) then LowerIndex(tree, min, p + 1) else p
  }

  /** The least matching item with logical position at or above `logical`, or None when there is none. */
  ghost predicate IsCeiling(tree: seq<Key>, f: Fetcher, logical: nat, r: Option<Key>) {
    match r
    case None => forall k :: k in tree && Match(f, k) ==> Logical(f, k) < logical
    case Some(v) =>
      && v in tree && Match(f, v) && logical <= Logical(f, v)
      && forall k :: k in tree && Match(f, k) && logical <= Logical(f, k) ==> !Less(k, v)
  }

  /** A search from `logical` need not look at k: it does not match or lies below. */
  ghost predicate Passed(f: Fetcher, logical: nat, k: Key) {
    Match(f, k) ==> Logical(f, k) < logical
  }

  ghost predicate PassedBelow(tree: seq<Key>, f: Fetcher, logical: nat, min: Key) {
    forall j :: 0 <= j < |tree| && Less(tree[j], min) ==> Passed(f, logical, tree[j])
  }

  lemma CeilingHere(tree: seq<Key>, f: Fetcher, logical: nat, i: nat)
    requires ValidTree(tree) && i < |tree| && Match(f, tree[i]) && !Less(tree[i], FillMin(f, logical))
    requires forall j :: 0 <= j < i ==> Passed(f, logical, tree[j])
    ensures IsCeiling(tree, f, logical, Some(tree[i]))
  {
  }

  lemma NoCeiling(tree: seq<Key>, f: Fetcher, logical: nat, i: nat)
    requires ValidTree(tree) && i <= |tree| && (i < |tree| ==> Less(FillMax(f), tree[i]))
    requires forall j :: 0 <= j < i ==> Passed(f, logical, tree[j])
    ensures IsCeiling(tree, f, logical, None)
  {
    forall k | k in tree && Match(f, k)
      ensures Logical(f, k) < logical
    {
      var j :| 0 <= j < |tree| && tree[j] == k;
      assert Passed(f, logical, tree[j]);
    }
  }

  lemma LessTransitive(a: Key, b: Key, c: Key)
    requires !Less(b, a) && (b == c || Less(b, c))
    ensures !Less(c, a)
  {
  }

  /** Moving past a non-matching item does not move past a later matching one. */
  lemma NothingSkipped(tree: seq<Key>, f: Fetcher, logical: nat, i: nat)
    requires ValidTree(tree) && ValidFetcher(f) && i < |tree| && !Match(f, tree[i])
    requires !Less(tree[i], FillMin(f, logical)) && !Less(FillMax(f), tree[i])
    requires forall j :: 0 <= j < i ==> Passed(f, logical, tree[j])
    ensures NextOfType(tree[i], f.ty).Some?
    ensures var next := NextOfType(tree[i], f.ty).value;
            && Less(tree[i], next)
            && !Less(next, FillMin(f, logical))
            && PassedBelow(tree, f, logical, next)
  {
    var next := NextOfType(tree[i], f.ty).value;
    forall j | 0 <= j < |tree| && Less(tree[j], next)
      ensures Passed(f, logical, tree[j])
    {
      if i < j && Match(f, tree[j]) { NextOfTypeIsExact(tree[i], f.ty, tree[j]); }
    }
  }

  /**
   BtrfsTreeFetcher::lower_bound.  `size(i)` is how many items the ioctl returns when its first
   item is the i-th of the tree.
   */
  method LowerBound(tree: seq<Key>, f: Fetcher, logical: nat, size: nat -> nat) returns (r: Option<Key>)
    requires ValidTree(tree) && ValidFetcher(f) && logical <= MAX64
    requires forall i :: size(i) >= 1
    ensures IsCeiling(tree, f, logical, r)
  {
    var sk := new SearchKey(FillMin(f, logical));
    while true
      invariant !Less(sk.Min(), FillMin(f, logical))
      invariant PassedBelow(tree, f, logical, sk.Min())
      decreases |tree| - LowerIndex(tree, sk.Min())
    {
      var p := LowerIndex(tree, Key(sk.minObjectid, sk.minType, sk.minOffset));
      var i, end := p, p + size(p);
      while i < |tree| && i < end && !Less(FillMax(f), tree[i])
        invariant p <= i <= |tree|
        invariant !Less(sk.Min(), FillMin(f, logical))
        invariant forall j :: 0 <= j < i ==> Passed(f, logical, tree[j])
        invariant i > p ==> Less(tree[i - 1], sk.Min()) && PassedBelow(tree, f, logical, sk.Min())
      {
        LessTransitive(FillMin(f, logical), tree[p], tree[i]);
        if Match(f, tree[i]) {
          CeilingHere(tree, f, logical, i);
          return Some(tree[i]);
        }
        assert !Stop(f, tree[i]);
        var threw := sk.NextMinOfType(tree[i], f.ty);
        assert !threw;
        NothingSkipped(tree, f, logical, i);
        i := i + 1;
      }
      if i == p {
        NoCeiling(tree, f, logical, i);
        return None;
      }
    }
  }

  // ----- BtrfsTreeFetcher::rlower_bound

  /** scale_logical; None is the invalid_argument exception. */
  function Scale(scale: nat, logical: nat): Option<nat>
    requires 1 <= scale
  {
    if logical % scale == 0 || logical == MAX64 then Some(logical / scale) else None
  }

  /** unscale_logical, for positions up to the scaled maximum. */
  function Unscale(scale: nat, pos: nat): nat
    requires 1 <= scale
  {
    if pos == MAX64 / scale then MAX64 else pos * scale
  }

  /** Every matching item sits on a multiple of the scale. */
  ghost predicate Aligned(tree: seq<Key>, f: Fetcher, scale: nat)
    requires 1 <= scale
  {
    forall k :: k in tree && Match(f, k) ==> Logical(f, k) % scale == 0
  }

  predicate IsLast(f: Fetcher, scale: nat, k: Key)
    requires 1 <= scale
  {
    Logical(f, k) / scale == MAX64 / scale && Logical(f, k) != MAX64
  }

  /** Some match is at the last scaled position, which unscale_logical takes for 2^64 - 1: a search from
      there begins after it. */
  ghost predicate LastMissed(tree: seq<Key>, f: Fetcher, scale: nat)
    requires 1 <= scale
  {
    exists k :: k in tree && Match(f, k) && IsLast(f, scale, k)
  }

  ghost function Keys(tree: seq<Key>, f: Fetcher, pos: Key -> nat): set<nat> {
    set k | k in tree && Match(f, k) :: pos(k)
  }

  /**
   The positions one fetch collects, from the p-th item on: whole ioctl results, `left` items of
   the current one still to inspect, until one of them held a match (`got`) or a match lies past
   `upper`.  Between results the search key jumps to the next key of the wanted type.  The key is
   moved past every item that is inspected; None is the exception this may throw.
   */
  function Run(tree: seq<Key>, f: Fetcher, pos: Key -> nat, upper: nat, size: nat -> nat, p: nat, left: nat, got: bool): (r: Option<seq<nat>>)
    requires p <= |tree|
    decreases |tree| - p, if left == 0 then 1 else 0
  {
    if p == |tree| || Less(FillMax(f), tree[p]) then Some([])
    else if left == 0 then
      if got || size(p) == 0 then Some([]) else Run(tree, f, pos, upper, size, p, size(p), false)
    else
      var next := NextOfType(tree[p], f.ty);
      if next.None? then None
      else if Stop(f, tree[p]) then Some([MAX64])
      else if !Match(f, tree[p]) then
        if left == 1 && !got then
          Run(tree, f, pos, upper, size, LowerIndex(tree, next.value, p + 1), 0, false)
        else
          Run(tree, f, pos, upper, size, p + 1, left - 1, got)
      else if pos(tree[p]) > upper then Some([])
      else
        var rest := Run(tree, f, pos, upper, size, p + 1, left - 1, true);
        if rest.None? then None else Some([pos(tree[p])] + rest.value)
  }

  /** Moving the key past any item in reach of the fetcher does not throw. */
  ghost predicate KeysMove(tree: seq<Key>, f: Fetcher) {
    forall j :: 0 <= j < |tree| && !Less(FillMax(f), tree[j]) ==> NextOfType(tree[j], f.ty).Some?
  }

  /** The last key there is of the type, within reach of the fetcher. */
  predicate LastInReach(tree: seq<Key>, f: Fetcher) {
    Key(MAX64, f.ty, MAX64) in tree && (f.ByOffset? ==> f.objectid == MAX64)
  }

  lemma KeysMoveIff(tree: seq<Key>, f: Fetcher)
    requires ValidTree(tree) && ValidFetcher(f)
    ensures KeysMove(tree, f) <==> !LastInReach(tree, f)
  {
    var last := Key(MAX64, f.ty, MAX64);
    if LastInReach(tree, f) {
      var j :| 0 <= j < |tree| && tree[j] == last;
      assert !Less(FillMax(f), tree[j]) && NextOfType(tree[j], f.ty).None?;
    } else {
      forall j | 0 <= j < |tree| && !Less(FillMax(f), tree[j]) ensures NextOfType(tree[j], f.ty).Some? {
        assert tree[j] in tree;
      }
    }
  }

  /** Item j is a match and counts towards a fetch from index p. */
  ghost predicate MatchFrom(tree: seq<Key>, f: Fetcher, p: nat, j: int) {
    p <= j < |tree| && Match(f, tree[j])
  }

  ghost predicate Monotone(tree: seq<Key>, f: Fetcher, pos: Key -> nat) {
    forall i, j :: MatchFrom(tree, f, 0, i) && MatchFrom(tree, f, i, j) ==> pos(tree[i]) <= pos(tree[j])
  }

  /** Some match from index p on has this position. */
  ghost predicate IsPosition(tree: seq<Key>, f: Fetcher, pos: Key -> nat, p: nat, x: nat) {
    exists j :: MatchFrom(tree, f, p, j) && pos(tree[j]) == x
  }

  /** What a fetch from index p returns, said of the items from p on. */
  ghost predicate RunOk(tree: seq<Key>, f: Fetcher, pos: Key -> nat, upper: nat, p: nat, got: bool, r: seq<nat>) {
    && Seeker.Sorted(r)
    && (forall i :: 0 <= i < |r| ==> r[i] <= upper)
    && (forall i {:trigger IsPosition(tree, f, pos, p, r[i])} :: 0 <= i < |r| ==> IsPosition(tree, f, pos, p, r[i]))
    && (forall j :: MatchFrom(tree, f, p, j) && pos(tree[j]) <= upper ==>
        && (got || r != [])
        && (r != [] && pos(tree[j]) <= r[|r| - 1] ==> pos(tree[j]) in r))
  }

  lemma RunSkip(tree: seq<Key>, f: Fetcher, pos: Key -> nat, upper: nat, p: nat, q: nat, got: bool, r: seq<nat>)
    requires p <= q && RunOk(tree, f, pos, upper, q, got, r)
    requires forall j :: MatchFrom(tree, f, p, j) ==> q <= j
    ensures RunOk(tree, f, pos, upper, p, got, r)
  {
    forall i | 0 <= i < |r|
      ensures IsPosition(tree, f, pos, p, r[i])
    {
      assert IsPosition(tree, f, pos, q, r[i]);
      var j :| MatchFrom(tree, f, q, j) && pos(tree[j]) == r[i];
      assert MatchFrom(tree, f, p, j);
    }
    assert forall j :: MatchFrom(tree, f, p, j) ==> MatchFrom(tree, f, q, j);
  }

  lemma RunCons(tree: seq<Key>, f: Fetcher, pos: Key -> nat, upper: nat, p: nat, got: bool, r: seq<nat>)
    requires Monotone(tree, f, pos) && MatchFrom(tree, f, p, p) && pos(tree[p]) <= upper
    requires RunOk(tree, f, pos, upper, p + 1, true, r)
    ensures RunOk(tree, f, pos, upper, p, got, [pos(tree[p])] + r)
  {
    var x := pos(tree[p]);
    var r' := [x] + r;
    assert MatchFrom(tree, f, 0, p);
    forall i | 0 <= i < |r|
      ensures x <= r[i] <= upper && IsPosition(tree, f, pos, p, r[i])
    {
      assert IsPosition(tree, f, pos, p + 1, r[i]);
      var j :| MatchFrom(tree, f, p + 1, j) && pos(tree[j]) == r[i];
      assert MatchFrom(tree, f, p, j);
    }
    forall j | MatchFrom(tree, f, p, j) && pos(tree[j]) <= upper && pos(tree[j]) <= r'[|r'| - 1]
      ensures pos(tree[j]) in r'
    {
      assert r'[0] == x;
      if j != p {
        assert MatchFrom(tree, f, p + 1, j);
        if r == [] { assert pos(tree[j]) == x; } else { assert r'[|r'| - 1] == r[|r| - 1]; }
      }
    }
  }

  /** Where the search goes on after an item that does not match: past the rest of its kind if the
      buffer is used up, else at the next item. */
  function SkipTo(tree: seq<Key>, f: Fetcher, p: nat, jump: bool): (q: nat)
    requires p < |tree| && NextOfType(tree[p], f.ty).Some?
    ensures p < q <= |tree|
  {
    if jump then LowerIndex(tree, NextOfType(tree[p], f.ty).value, p + 1) else p + 1
  }

  lemma SkipPassesNoMatch(tree: seq<Key>, f: Fetcher, p: nat, jump: bool)
    requires ValidTree(tree) && ValidFetcher(f) && p < |tree| && !Match(f, tree[p]) && !Less(tree[p], FillMin(f, 0))
    requires NextOfType(tree[p], f.ty).Some?
    ensures forall j :: MatchFrom(tree, f, p, j) ==> SkipTo(tree, f, p, jump) <= j
    ensures var q := SkipTo(tree, f, p, jump);
            q < |tree| ==> !Less(tree[q], FillMin(f, 0))
  {
    var q := SkipTo(tree, f, p, jump);
    forall j | MatchFrom(tree, f, p, j) ensures q <= j {
      NextOfTypeIsExact(tree[p], f.ty, tree[j]);
    }
    if q < |tree| { LessTransitive(FillMin(f, 0), tree[p], tree[q]); }
  }

  lemma RunAtSkip(tree: seq<Key>, f: Fetcher, pos: Key -> nat, upper: nat, size: nat -> nat, p: nat, left: nat, got: bool)
    requires p < |tree| && !Less(FillMax(f), tree[p]) && left > 0 && !Match(f, tree[p]) && !Stop(f, tree[p])
    requires NextOfType(tree[p], f.ty).Some?
    ensures Run(tree, f, pos, upper, size, p, left, got)
            == Run(tree, f, pos, upper, size, SkipTo(tree, f, p, left == 1 && !got), left - 1, got)
  {
  }

  lemma RunAtMatch(tree: seq<Key>, f: Fetcher, pos: Key -> nat, upper: nat, size: nat -> nat, p: nat, left: nat, got: bool)
    requires p < |tree| && !Less(FillMax(f), tree[p]) && left > 0 && Match(f, tree[p]) && pos(tree[p]) <= upper
    requires NextOfType(tree[p], f.ty).Some? && Run(tree, f, pos, upper, size, p + 1, left - 1, true).Some?
    ensures Run(tree, f, pos, upper, size, p, left, got)
            == Some([pos(tree[p])] + Run(tree, f, pos, upper, size, p + 1, left - 1, true).value)
  {
  }

  /** A fetch that ends here leaves nothing out that it should have. */
  lemma NothingLeft(tree: seq<Key>, f: Fetcher, pos: Key -> nat, upper: nat, p: nat, got: bool)
    requires ValidTree(tree) && ValidFetcher(f) && Monotone(tree, f, pos) && p <= |tree|
    requires p == |tree| || Less(FillMax(f), tree[p]) || got || (Match(f, tree[p]) && pos(tree[p]) > upper)
    ensures RunOk(tree, f, pos, upper, p, got, [])
  {
    if p == |tree| || Less(FillMax(f), tree[p]) {
      assert forall j :: !MatchFrom(tree, f, p, j);
    } else if !got {
      assert MatchFrom(tree, f, 0, p);
    }
  }

  lemma {:induction false} RunCollects(tree: seq<Key>, f: Fetcher, pos: Key -> nat, upper: nat, size: nat -> nat, p: nat, left: nat, got: bool)
    requires ValidTree(tree) && ValidFetcher(f) && Monotone(tree, f, pos) && KeysMove(tree, f) && p <= |tree|
    requires forall i :: size(i) >= 1
    requires p < |tree| ==> !Less(tree[p], FillMin(f, 0))
    ensures Run(tree, f, pos, upper, size, p, left, got).Some?
    ensures RunOk(tree, f, pos, upper, p, got, Run(tree, f, pos, upper, size, p, left, got).value)
    decreases |tree| - p, if left == 0 then 1 else 0
  {
    if p == |tree| || Less(FillMax(f), tree[p]) {
      NothingLeft(tree, f, pos, upper, p, got);
    } else if left == 0 {
      if got { NothingLeft(tree, f, pos, upper, p, got); } else { RunCollects(tree, f, pos, upper, size, p, size(p), false); }
    } else if !Match(f, tree[p]) {
      var q := SkipTo(tree, f, p, left == 1 && !got);
      SkipPassesNoMatch(tree, f, p, left == 1 && !got);
      RunAtSkip(tree, f, pos, upper, size, p, left, got);
      RunCollects(tree, f, pos, upper, size, q, left - 1, got);
      RunSkip(tree, f, pos, upper, p, q, got, Run(tree, f, pos, upper, size, q, left - 1, got).value);
    } else if pos(tree[p]) > upper {
      NothingLeft(tree, f, pos, upper, p, got);
    } else {
      RunCollects(tree, f, pos, upper, size, p + 1, left - 1, true);
      RunAtMatch(tree, f, pos, upper, size, p, left, got);
      RunCons(tree, f, pos, upper, p, got, Run(tree, f, pos, upper, size, p + 1, left - 1, true).value);
    }
  }

  lemma ScaledOrder(scale: nat, a: nat, lower: nat)
    requires 1 <= scale
    ensures lower <= a / scale <==> lower * scale <= a
  {
    assert a == (a / scale) * scale + a % scale;
    if lower <= a / scale {
      assert lower * scale <= (a / scale) * scale;
    } else {
      assert (a / scale + 1) * scale <= lower * scale;
    }
  }

  lemma DivMonotone(scale: nat, a: nat, b: nat)
    requires 1 <= scale && a <= b
    ensures a / scale <= b / scale
  {
    assert (a / scale) * scale <= a;
    ScaledOrder(scale, b, a / scale);
  }

  lemma EndPos64()
    ensures Seeker.EndPos(64) == MAX64
  {
    assert Pow2(8) == 0x100;
    assert Pow2(16) == 0x1_0000;
    assert Pow2(24) == 0x100_0000;
    assert Pow2(32) == 0x1_0000_0000;
    assert Pow2(40) == 0x100_0000_0000;
    assert Pow2(48) == 0x1_0000_0000_0000;
    assert Pow2(56) == 0x100_0000_0000_0000;
  }

  /** The scaled position of an item. */
  function Position(f: Fetcher, scale: nat): Key -> nat
    requires 1 <= scale
  {
    (k: Key) => Logical(f, k) / scale
  }

  /** The index where the fetch from position `lower` starts. */
  function FetchFrom(tree: seq<Key>, f: Fetcher, scale: nat, lower: nat): (p: nat)
    requires 1 <= scale
    ensures p <= |tree|
  {
    LowerIndex(tree, FillMin(f, Unscale(scale, Seeker.Min(MAX64 / scale, lower))))
  }

  lemma FetchFromIsExact(tree: seq<Key>, f: Fetcher, scale: nat, lower: nat, j: nat)
    requires ValidTree(tree) && ValidFetcher(f) && 1 <= scale && Aligned(tree, f, scale) && lower <= MAX64 / scale
    requires j < |tree| && Match(f, tree[j])
    ensures lower < MAX64 / scale || !IsLast(f, scale, tree[j]) ==>
              (FetchFrom(tree, f, scale, lower) <= j <==> lower <= Position(f, scale)(tree[j]))
    ensures lower == MAX64 / scale && IsLast(f, scale, tree[j]) ==> j < FetchFrom(tree, f, scale, lower)
  {
    assert tree[j] in tree;
    UnscaledOrder(scale, Logical(f, tree[j]), lower);
    DivMonotone(scale, Logical(f, tree[j]), MAX64);
    StartsAtOrBefore(tree, f, Unscale(scale, lower), j);
  }

  /** A search from a position starts at or before exactly the matches at or after that position. */
  lemma StartsAtOrBefore(tree: seq<Key>, f: Fetcher, x: nat, j: nat)
    requires ValidTree(tree) && j < |tree| && Match(f, tree[j])
    ensures LowerIndex(tree, FillMin(f, x)) <= j <==> x <= Logical(f, tree[j])
  {
    var min := FillMin(f, x);
    var p := LowerIndex(tree, min);
    if p <= j { LessTransitive(min, tree[p], tree[j]); }
  }

  lemma UnscaledOrder(scale: nat, a: nat, lower: nat)
    requires 1 <= scale && a % scale == 0 && a <= MAX64 && lower <= MAX64 / scale
    ensures lower < MAX64 / scale || a == MAX64 || a / scale < MAX64 / scale ==> (Unscale(scale, lower) <= a <==> lower <= a / scale)
    ensures lower == MAX64 / scale && a != MAX64 ==> a < Unscale(scale, lower)
  {
    ScaledOrder(scale, a, lower);
    DivMonotone(scale, a, MAX64);
  }

  lemma PositionMonotone(tree: seq<Key>, f: Fetcher, scale: nat)
    requires ValidTree(tree) && 1 <= scale
    ensures Monotone(tree, f, Position(f, scale))
  {
    forall i, j | MatchFrom(tree, f, 0, i) && MatchFrom(tree, f, i, j)
      ensures Position(f, scale)(tree[i]) <= Position(f, scale)(tree[j])
    {
      assert i == j || Less(tree[i], tree[j]);
      DivMonotone(scale, Logical(f, tree[i]), Logical(f, tree[j]));
    }
  }

  /** A fetch meets the seeker's contract when it starts at the first match at or above `lower`. */
  lemma FetchMeetsContract(tree: seq<Key>, f: Fetcher, pos: Key -> nat, target: nat, lower: nat, size: nat -> nat, p: nat)
    requires ValidTree(tree) && ValidFetcher(f) && Monotone(tree, f, pos) && KeysMove(tree, f) && p <= |tree|
    requires forall i :: size(i) >= 1
    requires p < |tree| ==> !Less(tree[p], FillMin(f, 0))
    requires forall j :: MatchFrom(tree, f, 0, j) ==> (p <= j <==> lower <= pos(tree[j]))
    ensures Run(tree, f, pos, target, size, p, 0, false).Some?
    ensures Seeker.FetchOk(Keys(tree, f, pos), MAX64, target, lower, Run(tree, f, pos, target, size, p, 0, false).value)
  {
    RunCollects(tree, f, pos, target, size, p, 0, false);
    var r := Run(tree, f, pos, target, size, p, 0, false).value;
    forall x | x in r
      ensures lower <= x && x in Keys(tree, f, pos)
    {
      var i :| 0 <= i < |r| && r[i] == x;
      assert IsPosition(tree, f, pos, p, r[i]);
      var j :| MatchFrom(tree, f, p, j) && pos(tree[j]) == x;
      assert MatchFrom(tree, f, 0, j) && tree[j] in tree;
    }
    forall k | k in Keys(tree, f, pos) && lower <= k <= target
      ensures r != [] && r[0] <= target && (k <= r[|r| - 1] ==> k in r)
    {
      var key :| key in tree && Match(f, key) && pos(key) == k;
      var j :| 0 <= j < |tree| && tree[j] == key;
      assert MatchFrom(tree, f, 0, j) && MatchFrom(tree, f, p, j);
    }
  }

  datatype Lookup = Hit(item: Key) | Miss | Threw

  /** The matching item with the greatest logical position at or below `logical`. */
  ghost predicate IsFloorItem(tree: seq<Key>, f: Fetcher, logical: nat, r: Lookup) {
    match r
    case Hit(v) =>
      && v in tree && Match(f, v) && Logical(f, v) <= logical
      && forall k :: k in tree && Match(f, k) && Logical(f, k) <= logical ==> Logical(f, k) <= Logical(f, v)
    case Miss => forall k :: k in tree && Match(f, k) ==> logical < Logical(f, k)
    case Threw => false
  }

  /** The inspected item closest below the target: the first of those with the greatest position. */
  function Closest(tree: seq<Key>, f: Fetcher, pos: Key -> nat, seen: set<nat>, target: nat): (r: Lookup)
    ensures !r.Threw?
    ensures r.Hit? ==> r.item in tree && Match(f, r.item) && pos(r.item) in seen && pos(r.item) <= target
    ensures forall k :: k in tree && Match(f, k) && pos(k) in seen && pos(k) <= target ==> r.Hit? && pos(k) <= pos(r.item)
  {
    if tree == [] then Miss
    else
      var before := Closest(tree[..|tree| - 1], f, pos, seen, target);
      var k := tree[|tree| - 1];
      assert tree == tree[..|tree| - 1] + [k];
      if Match(f, k) && pos(k) in seen && pos(k) <= target && (before.Hit? ==> pos(before.item) < pos(k))
      then Hit(k) else before
  }

  lemma ClosestIsFloor(tree: seq<Key>, f: Fetcher, pos: Key -> nat, target: nat, logical: nat, seen: set<nat>, floor: nat)
    requires forall k :: k in tree && Match(f, k) ==> (Logical(f, k) <= logical <==> pos(k) <= target)
    requires forall a, b :: a in tree && Match(f, a) && b in tree && Match(f, b) && pos(a) <= pos(b) ==> Logical(f, a) <= Logical(f, b)
    requires (exists k :: k in Keys(tree, f, pos) && k <= target) ==> floor in seen && Seeker.IsFloor(Keys(tree, f, pos), target, floor)
    ensures IsFloorItem(tree, f, logical, Closest(tree, f, pos, seen, target))
  {
    forall k | k in tree && Match(f, k) && Logical(f, k) <= logical
      ensures Closest(tree, f, pos, seen, target).Hit? && Logical(f, k) <= Logical(f, Closest(tree, f, pos, seen, target).item)
    {
      assert pos(k) in Keys(tree, f, pos) && pos(k) <= target;
      var v :| v in tree && Match(f, v) && pos(v) == floor;
      assert pos(v) in seen && pos(v) <= target;
    }
  }

  lemma LogicalOrder(scale: nat, a: nat, b: nat)
    requires 1 <= scale && a % scale == 0
    ensures a / scale <= b / scale <==> a <= b
  {
    assert a == (a / scale) * scale;
    ScaledOrder(scale, b, a / scale);
  }

  /** Some match has the scaled position of logical. */
  ghost predicate MatchAt(tree: seq<Key>, f: Fetcher, scale: nat, logical: nat)
    requires 1 <= scale
  {
    exists k :: k in tree && Match(f, k) && Logical(f, k) / scale == logical / scale
  }

  /** When rlower_bound throws: a position cannot be scaled, or the step is zero and the search can neither
      end at once nor move. */
  ghost predicate RlowerThrows(tree: seq<Key>, f: Fetcher, scale: nat, lookbehind: nat, logical: nat)
    requires 1 <= scale
  {
    || Scale(scale, logical).None? || Scale(scale, lookbehind).None?
    || (lookbehind / scale == 0 && logical / scale != 0 && (logical / scale == MAX64 || !MatchAt(tree, f, scale, logical)))
  }

  lemma FetchIsOk(tree: seq<Key>, f: Fetcher, scale: nat, t: nat, lower: nat, size: nat -> nat)
    requires ValidTree(tree) && ValidFetcher(f) && 1 <= scale && Aligned(tree, f, scale) && lower <= t <= MAX64 / scale
    requires !LastInReach(tree, f) && (t == MAX64 / scale ==> !LastMissed(tree, f, scale)) && forall i :: size(i) >= 1
    ensures var r := Run(tree, f, Position(f, scale), t, size, FetchFrom(tree, f, scale, lower), 0, false);
            r.Some? && Seeker.FetchOk(Keys(tree, f, Position(f, scale)), MAX64, t, lower, r.value)
  {
    var pos := Position(f, scale);
    PositionMonotone(tree, f, scale);
    KeysMoveIff(tree, f);
    forall j | MatchFrom(tree, f, 0, j) ensures FetchFrom(tree, f, scale, lower) <= j <==> lower <= pos(tree[j]) {
      assert tree[j] in tree;
      FetchFromIsExact(tree, f, scale, lower, j);
    }
    FetchMeetsContract(tree, f, pos, t, lower, size, FetchFrom(tree, f, scale, lower));
  }

  lemma ClosestIsRight(tree: seq<Key>, f: Fetcher, scale: nat, logical: nat, seen: set<nat>, floor: nat)
    requires 1 <= scale && Aligned(tree, f, scale)
    requires var keys := Keys(tree, f, Position(f, scale)); var t := logical / scale;
             (exists k :: k in keys && k <= t) ==> floor in seen && Seeker.IsFloor(keys, t, floor)
    ensures IsFloorItem(tree, f, logical, Closest(tree, f, Position(f, scale), seen, logical / scale))
  {
    var pos := Position(f, scale);
    forall a, b | a in tree && Match(f, a) && b in tree && Match(f, b) && pos(a) <= pos(b)
      ensures Logical(f, a) <= Logical(f, b)
    {
      LogicalOrder(scale, Logical(f, a), Logical(f, b));
    }
    forall k | k in tree && Match(f, k) ensures Logical(f, k) <= logical <==> pos(k) <= logical / scale {
      LogicalOrder(scale, Logical(f, k), logical);
    }
    ClosestIsFloor(tree, f, pos, logical / scale, logical, seen, floor);
  }

  lemma PositionsFit(tree: seq<Key>, f: Fetcher, scale: nat, x: nat)
    requires ValidTree(tree) && 1 <= scale && x in Keys(tree, f, Position(f, scale))
    ensures x <= MAX64
  {
    var k :| k in tree && Match(f, k) && Position(f, scale)(k) == x;
    DivMonotone(scale, Logical(f, k), MAX64);
    DivMonotone(1, MAX64 / scale, MAX64);
  }

  /**
   BtrfsTreeFetcher::rlower_bound.  `size(n, i)` is how many items the ioctl returns in the n-th
   fetch when its first item is the i-th of the tree.  The closure of the source notes the closest
   item while it fetches; here it is picked from the positions that were fetched.
   */
  method RlowerBound(tree: seq<Key>, f: Fetcher, scale: nat, lookbehind: nat, logical: nat, size: (nat, nat) -> nat)
    returns (r: Lookup)
    requires ValidTree(tree) && ValidFetcher(f) && 1 <= scale && Aligned(tree, f, scale) && logical <= MAX64
    requires !LastInReach(tree, f) && (logical / scale == MAX64 / scale ==> !LastMissed(tree, f, scale))
    requires forall n, i :: size(n, i) >= 1
    ensures r.Threw? || IsFloorItem(tree, f, logical, r)
    ensures r.Threw? <==> RlowerThrows(tree, f, scale, lookbehind, logical)
  {
    var target, minStep := Scale(scale, logical), Scale(scale, lookbehind);
    if target.None? || minStep.None? {
      return Threw;
    }
    EndPos64();
    var t := target.value;
    DivMonotone(scale, logical, MAX64);
    DivMonotone(1, MAX64 / scale, MAX64);
    var pos := Position(f, scale);
    // An exception in a fetch would end the search; FetchIsOk shows that there is none.
    var fetch := (n: nat, lower: nat, upper: nat) =>
        var items := Run(tree, f, pos, upper, i => size(n, i), FetchFrom(tree, f, scale, lower), 0, false);
        if items.Some? then items.value else [];
    ghost var keys := Keys(tree, f, pos);
    forall x | x in keys ensures x <= MAX64 { PositionsFit(tree, f, scale, x); }
    forall n: nat, lower: nat | lower <= t
      ensures Seeker.FetchOk(keys, Seeker.EndPos(64), t, lower, fetch(n, lower, t))
    {
      FetchIsOk(tree, f, scale, t, lower, i => size(n, i));
    }
    var found, _, seen := Seeker.SeekBackward(64, t, fetch, minStep.value, MAX64, keys);
    if found.Unfinished? {
      return Threw;
    }
    r := Closest(tree, f, pos, seen, t);
    ClosestIsRight(tree, f, scale, logical, seen, if t in keys then t else found.pos);
  }

  // ----- next and prev

  /** Between aligned positions there is at least one step of the scale. */
  lemma StepOrder(scale: nat, a: nat, q: nat)
    requires 1 <= scale && a % scale == 0
    ensures q + 1 <= a / scale <==> q * scale < a
    ensures q + 1 <= a / scale <==> (q + 1) * scale <= a
  {
    ScaledOrder(scale, a, q + 1);
    assert a == (a / scale) * scale && (q + 1) * scale == q * scale + scale;
    if a / scale <= q { assert (a / scale) * scale <= q * scale; }
  }

  /** The position next() searches from has the matches above logical at or after it, except a match at the
      last scaled position. */
  predicate NextOrdered(f: Fetcher, scale: nat, logical: nat, k: Key)
    requires 1 <= scale
  {
    var a, q := Logical(f, k), logical / scale + 1;
    if q > MAX64 / scale then a <= logical
    else if q == MAX64 / scale && IsLast(f, scale, k) then logical < a < Unscale(scale, q)
    else logical < a <==> Unscale(scale, q) <= a
  }

  lemma NextOrder(f: Fetcher, scale: nat, logical: nat, k: Key)
    requires 1 <= scale && ValidKey(k) && Scale(scale, logical).Some? && logical <= MAX64 && Logical(f, k) % scale == 0
    ensures NextOrdered(f, scale, logical, k)
  {
    var a, q := Logical(f, k), logical / scale;
    StepOrder(scale, a, q);
    DivMonotone(scale, a, MAX64);
    DivMonotone(scale, logical, MAX64);
    if logical % scale == 0 {
      assert logical == q * scale;
    }
  }

  /** The first match above logical, or none if and only if there is none. */
  ghost predicate IsNext(tree: seq<Key>, f: Fetcher, logical: nat, r: Lookup) {
    match r
    case Hit(v) =>
      && v in tree && Match(f, v) && logical < Logical(f, v)
      && forall k :: k in tree && Match(f, k) && logical < Logical(f, k) ==> !Less(k, v)
    case Miss => forall k :: k in tree && Match(f, k) ==> Logical(f, k) <= logical
    case Threw => false
  }

  /** When next is wrong: the match above logical is at the last scaled position; or logical is 2^64 - 1
      and the scale is 1, so that the sum of logical and 1 is 0, and there is a match to be found from there. */
  ghost predicate NextMistakes(tree: seq<Key>, f: Fetcher, scale: nat, logical: nat)
    requires 1 <= scale
  {
    || (logical / scale + 1 == MAX64 / scale && LastMissed(tree, f, scale))
    || (scale == 1 && logical == MAX64 && exists k :: k in tree && Match(f, k))
  }

  method Next(tree: seq<Key>, f: Fetcher, scale: nat, logical: nat, size: nat -> nat) returns (r: Lookup)
    requires ValidTree(tree) && ValidFetcher(f) && 1 <= scale && Aligned(tree, f, scale) && logical <= MAX64
    requires forall i :: size(i) >= 1
    ensures r.Threw? <==> Scale(scale, logical).None?
    ensures !r.Threw? ==> (IsNext(tree, f, logical, r) <==> !NextMistakes(tree, f, scale, logical))
  {
    var q := Scale(scale, logical);
    if q.None? {
      return Threw;
    }
    NextPosition(scale, logical);
    var next := (q.value + 1) % (MAX64 + 1);
    forall k | k in tree && Match(f, k) ensures NextOrdered(f, scale, logical, k) {
      NextOrder(f, scale, logical, k);
    }
    if next > MAX64 / scale {
      return Miss;
    }
    UnscaleBound(scale, next);
    var found := LowerBound(tree, f, Unscale(scale, next), size);
    r := if found.Some? then Hit(found.value) else Miss;
    if q.value + 1 == MAX64 / scale && LastMissed(tree, f, scale) { NothingAfterLast(tree, f, scale); }
  }

  lemma NextPosition(scale: nat, logical: nat)
    requires 1 <= scale && logical <= MAX64
    ensures logical / scale <= MAX64 / scale <= MAX64 && (logical / scale == MAX64 <==> scale == 1 && logical == MAX64)
  {
    DivMonotone(scale, logical, MAX64);
    ScaledOrder(scale, MAX64, MAX64 / scale);
    ScaledOrder(scale, logical, MAX64);
    if scale >= 2 { assert MAX64 * 2 <= MAX64 * scale; }
    if scale >= 2 { ScaledOrder(scale, MAX64, MAX64); }
  }

  /** A match at the last scaled position is the last one. */
  lemma NothingAfterLast(tree: seq<Key>, f: Fetcher, scale: nat)
    requires ValidTree(tree) && 1 <= scale && Aligned(tree, f, scale) && LastMissed(tree, f, scale)
    ensures forall k :: k in tree && Match(f, k) ==> Logical(f, k) < MAX64
  {
    var last :| last in tree && Match(f, last) && IsLast(f, scale, last);
    forall k | k in tree && Match(f, k) ensures Logical(f, k) < MAX64 {
      LogicalOrder(scale, Logical(f, k), Logical(f, last));
      DivMonotone(scale, Logical(f, k), MAX64);
    }
  }

  lemma UnscaleBound(scale: nat, q: nat)
    requires 1 <= scale && q <= MAX64 / scale
    ensures Unscale(scale, q) <= MAX64
  {
    ScaledOrder(scale, MAX64, q);
  }

  /** The position prev() searches from has the matches below logical at or before it, except a match at
      the last scaled position. */
  lemma PrevOrder(f: Fetcher, scale: nat, logical: nat, k: Key)
    requires 1 <= scale && ValidKey(k) && Scale(scale, logical).Some? && logical <= MAX64 && Logical(f, k) % scale == 0
    ensures logical / scale < 1 ==> (Logical(f, k) < logical <==> logical == MAX64 && IsLast(f, scale, k))
    ensures logical / scale >= 1 ==>
              if logical == MAX64 && IsLast(f, scale, k) then (logical / scale - 1) * scale < Logical(f, k) < logical
              else Logical(f, k) < logical <==> Logical(f, k) <= (logical / scale - 1) * scale
  {
    var a, q := Logical(f, k), logical / scale;
    DivMonotone(scale, a, MAX64);
    LogicalOrder(scale, a, logical);
    if q >= 1 { PrevAligned(scale, a, q - 1); }
    if logical % scale == 0 {
      assert logical == q * scale;
    }
  }

  lemma PrevAligned(scale: nat, a: nat, p: nat)
    requires 1 <= scale && a % scale == 0
    ensures a < (p + 1) * scale <==> a <= p * scale
    ensures a / scale <= p <==> a <= p * scale
  {
    StepOrder(scale, a, p);
  }

  /** The last match below logical, or none if and only if there is none. */
  ghost predicate IsPrev(tree: seq<Key>, f: Fetcher, logical: nat, r: Lookup) {
    match r
    case Hit(v) =>
      && v in tree && Match(f, v) && Logical(f, v) < logical
      && forall k :: k in tree && Match(f, k) && Logical(f, k) < logical ==> Logical(f, k) <= Logical(f, v)
    case Miss => forall k :: k in tree && Match(f, k) ==> logical <= Logical(f, k)
    case Threw => false
  }

  /** prev: right unless logical is 2^64 - 1 and a match is at the last scaled position. */
  method Prev(tree: seq<Key>, f: Fetcher, scale: nat, lookbehind: nat, logical: nat, size: (nat, nat) -> nat) returns (r: Lookup)
    requires ValidTree(tree) && ValidFetcher(f) && 1 <= scale && Aligned(tree, f, scale) && logical <= MAX64
    requires !LastInReach(tree, f) && forall n, i :: size(n, i) >= 1
    ensures r.Threw? <==> Scale(scale, logical).None?
                          || (logical / scale >= 1 && RlowerThrows(tree, f, scale, lookbehind, (logical / scale - 1) * scale))
    ensures !r.Threw? ==> (IsPrev(tree, f, logical, r) <==> !(logical == MAX64 && LastMissed(tree, f, scale)))
  {
    var q := Scale(scale, logical);
    if q.None? {
      return Threw;
    }
    forall k | k in tree && Match(f, k)
      ensures logical / scale < 1 ==> (Logical(f, k) < logical <==> logical == MAX64 && IsLast(f, scale, k))
      ensures logical / scale >= 1 ==>
                if logical == MAX64 && IsLast(f, scale, k) then (logical / scale - 1) * scale < Logical(f, k) < logical
                else Logical(f, k) < logical <==> Logical(f, k) <= (logical / scale - 1) * scale
    {
      PrevOrder(f, scale, logical, k);
    }
    if q.value < 1 {
      return Miss;
    }
    PrevPosition(scale, logical, q.value - 1);
    r := RlowerBound(tree, f, scale, lookbehind, Unscale(scale, q.value - 1), size);
  }

  lemma PrevPosition(scale: nat, logical: nat, p: nat)
    requires 1 <= scale && logical <= MAX64 && p + 1 == logical / scale
    ensures Unscale(scale, p) == p * scale <= MAX64 && Scale(scale, p * scale).Some? && p * scale / scale < MAX64 / scale
  {
    DivMonotone(scale, logical, MAX64);
    ScaledOrder(scale, MAX64, p);
    MultipleIsAligned(p, scale);
  }

  lemma MultipleIsAligned(p: nat, scale: nat)
    requires 1 <= scale
    ensures p * scale % scale == 0 && p * scale / scale == p
  {
    ScaledOrder(scale, p * scale, p);
    ScaledOrder(scale, p * scale, p + 1);
    assert (p + 1) * scale == p * scale + scale;
    assert p * scale / scale == p;
  }
}
