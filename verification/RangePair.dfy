/**
 BeesRangePair::grow (src/bees-types.cc) in its constrained form: a matching pair of ranges is extended
 block by block, backward and then forward, as far as the data matches inside the destination's extent.
 */
module RangePair {

  import opened Common

  const MAX_EXTENT: nat := 256 * 1024 * 1024  // BLOCK_SIZE_MAX_EXTENT

  predicate Aligned(p: int) {
    p % BLOCK == 0
  }

  /**
   The two files and what grow asks about a pair of blocks besides their data: `stop` is true if they
   are one physical block, if the source block is zero where it must not be, or if its hash is toxic.
   */
  datatype Files = Files(first: seq<int>, second: seq<int>, same: bool, stop: (Range, Range) -> bool)

  /** BeesFileRange::overlaps: put the lower one first, then see if the other begins inside it. */
  predicate Overlaps(same: bool, x: Range, y: Range) {
    var (a, b) := if y.begin < x.begin then (y, x) else (x, y);
    b.begin < a.end && same
  }

  lemma OverlapsIsSharing(same: bool, x: Range, y: Range)
    requires x.begin < x.end && y.begin < y.end
    ensures Overlaps(same, x, y) <==> same && exists p :: Has(x, p) && Has(y, p)
  {
    if Overlaps(same, x, y) {
      var p := if y.begin < x.begin then x.begin else y.begin;
      assert Has(x, p) && Has(y, p);
    }
  }

  /** Ranges that share bytes still share them when they grow. */
  lemma OverlapsGrows(same: bool, x: Range, y: Range, x': Range, y': Range)
    requires x.begin < x.end && y.begin < y.end && Overlaps(same, x, y)
    requires x'.begin <= x.begin && x.end <= x'.end && y'.begin <= y.begin && y.end <= y'.end
    ensures Overlaps(same, x', y')
  {
  }

  predicate SameData(fs: Files, x: Range, y: Range) {
    x.begin <= x.end <= |fs.first| && y.begin <= y.end <= |fs.second| && fs.first[x.begin..x.end] == fs.second[y.begin..y.end]
  }

  lemma SameDataJoins(fs: Files, x: Range, y: Range, x': Range, y': Range)
    requires SameData(fs, x, y) && SameData(fs, x', y') && x.end == x'.begin && y.end == y'.begin
    ensures SameData(fs, Range(x.begin, x'.end), Range(y.begin, y'.end))
  {
    assert fs.first[x.begin..x'.end] == fs.first[x.begin..x.end] + fs.first[x'.begin..x'.end];
    assert fs.second[y.begin..y'.end] == fs.second[y.begin..y.end] + fs.second[y'.begin..y'.end];
  }

  // ----- One block more

  function GrowBegin(r: Range): Range {
    Range(if r.begin < BLOCK then 0 else r.begin - BLOCK, r.end)
  }

  function GrowEnd(r: Range, size: nat): Range {
    Range(r.begin, if r.end + BLOCK < size then r.end + BLOCK else size)
  }

  /** What a pair is, before and after each turn of the loops. */
  ghost predicate PairOk(fs: Files, e: Range, x: Range, y: Range) {
    && x.begin < x.end <= |fs.first| && y.begin < y.end <= |fs.second| && Size(x) == Size(y)
    && Aligned(x.begin) && Aligned(y.begin) && !Overlaps(fs.same, x, y)
    && Aligned(e.begin) && e.begin <= y.begin && (Aligned(e.end) || e.end == |fs.second|)
    // An end inside a block is the end of a file.
    && (Aligned(x.end) || x.end == |fs.first| || y.end == |fs.second|)
  }

  /** One turn backward would be taken. */
  predicate CanGrowBack(fs: Files, e: Range, x: Range, y: Range)
    requires x.begin <= |fs.first| && y.begin <= |fs.second|
  {
    var x', y' := GrowBegin(x), GrowBegin(y);
    && Size(x) < MAX_EXTENT && e.begin < y.begin && x'.begin != x.begin && y'.begin != y.begin
    && !Overlaps(fs.same, x', y')
    && SameData(fs, Range(x'.begin, x.begin), Range(y'.begin, y.begin))
    && !fs.stop(Range(x'.begin, x.begin), Range(y'.begin, y.begin))
  }

  /** One turn forward would be taken. */
  predicate CanGrowForward(fs: Files, e: Range, x: Range, y: Range)
    requires x.end <= |fs.first| && y.end <= |fs.second|
  {
    var x', y' := GrowEnd(x, |fs.first|), GrowEnd(y, |fs.second|);
    && Size(x) < MAX_EXTENT && y.end < e.end && x'.end != x.end && y'.end != y.end
    && x'.end % BLOCK == y'.end % BLOCK
    && !Overlaps(fs.same, x', y')
    && SameData(fs, Range(x.end, x'.end), Range(y.end, y'.end))
    && !fs.stop(Range(x.end, x'.end), Range(y.end, y'.end))
  }

  lemma BackKeepsPair(fs: Files, e: Range, x: Range, y: Range)
    requires PairOk(fs, e, x, y) && CanGrowBack(fs, e, x, y)
    ensures PairOk(fs, e, GrowBegin(x), GrowBegin(y))
    ensures GrowBegin(x).begin == x.begin - BLOCK && GrowBegin(y).begin == y.begin - BLOCK
  {
    AlignedBelow(e.begin, y.begin);
    AlignedBelow(0, x.begin);
    AlignedBelow(0, y.begin);
  }

  /** Two block boundaries in order are a block apart. */
  lemma AlignedBelow(p: nat, q: nat)
    requires Aligned(p) && Aligned(q) && p < q
    ensures p + BLOCK <= q && Aligned(q - BLOCK)
  {
  }

  /** The size check: ends that grow by at most a block and are equally misaligned grow equally, even at
      an end of file inside a block. */
  lemma ForwardKeepsSizes(fs: Files, e: Range, x: Range, y: Range)
    requires PairOk(fs, e, x, y) && CanGrowForward(fs, e, x, y)
    ensures GrowEnd(x, |fs.first|).end - x.end == GrowEnd(y, |fs.second|).end - y.end
  {
    var x', y' := GrowEnd(x, |fs.first|), GrowEnd(y, |fs.second|);
    SameMisalignment(x.begin, y.begin, x.end, y.end);
    EqualGrowth(x.end, x'.end, y.end, y'.end);
  }

  lemma SameMisalignment(a: nat, b: nat, c: nat, d: nat)
    requires Aligned(a) && Aligned(b) && c - a == d - b
    ensures c % BLOCK == d % BLOCK
  {
  }

  lemma EqualGrowth(a: nat, a': nat, b: nat, b': nat)
    requires a % BLOCK == b % BLOCK && a' % BLOCK == b' % BLOCK
    requires a < a' <= a + BLOCK && b < b' <= b + BLOCK
    ensures a' - a == b' - b
  {
  }

  lemma ForwardKeepsPair(fs: Files, e: Range, x: Range, y: Range)
    requires PairOk(fs, e, x, y) && CanGrowForward(fs, e, x, y)
    ensures PairOk(fs, e, GrowEnd(x, |fs.first|), GrowEnd(y, |fs.second|))
    ensures GrowEnd(y, |fs.second|).end <= e.end
  {
    ForwardKeepsSizes(fs, e, x, y);
    assert Aligned(x.end) && Aligned(y.end) by { SameMisalignment(x.begin, y.begin, x.end, y.end); }
    if Aligned(e.end) { AlignedBelow(y.end, e.end); }
  }

  // ----- The loops

  /** The grown pair (x, y) of the pair (a, b): equally long, apart, around the old one at the same
      distance, with equal data if the old one had it, and inside the extent on both sides it grew. */
  ghost predicate Grown(fs: Files, e: Range, a: Range, b: Range, x: Range, y: Range) {
    && PairOk(fs, e, x, y)
    && x.begin <= a.begin && a.end <= x.end && y.begin <= b.begin && b.end <= y.end
    && x.begin - y.begin == a.begin - b.begin
    && (SameData(fs, a, b) ==> SameData(fs, x, y))
    && (y.end == b.end || y.end <= e.end)
  }

  lemma BackGrows(fs: Files, e: Range, a: Range, b: Range, x: Range, y: Range)
    requires Grown(fs, e, a, b, x, y) && CanGrowBack(fs, e, x, y)
    ensures Grown(fs, e, a, b, GrowBegin(x), GrowBegin(y))
  {
    BackKeepsPair(fs, e, x, y);
    if SameData(fs, x, y) {
      SameDataJoins(fs, Range(GrowBegin(x).begin, x.begin), Range(GrowBegin(y).begin, y.begin), x, y);
    }
  }

  lemma ForwardGrows(fs: Files, e: Range, a: Range, b: Range, x: Range, y: Range)
    requires Grown(fs, e, a, b, x, y) && CanGrowForward(fs, e, x, y)
    ensures Grown(fs, e, a, b, GrowEnd(x, |fs.first|), GrowEnd(y, |fs.second|))
  {
    ForwardKeepsPair(fs, e, x, y);
    if SameData(fs, x, y) {
      var x', y' := GrowEnd(x, |fs.first|), GrowEnd(y, |fs.second|);
      SameDataJoins(fs, x, y, Range(x.end, x'.end), Range(y.end, y'.end));
    }
  }

  /** What stopped the pair backward still stops it after it has grown forward. */
  lemma StillStopped(fs: Files, e: Range, x: Range, y: Range)
    requires PairOk(fs, e, x, y) && !CanGrowBack(fs, e, x, y) && CanGrowForward(fs, e, x, y)
    ensures PairOk(fs, e, GrowEnd(x, |fs.first|), GrowEnd(y, |fs.second|))
    ensures !CanGrowBack(fs, e, GrowEnd(x, |fs.first|), GrowEnd(y, |fs.second|))
  {
    ForwardKeepsPair(fs, e, x, y);
    var x', y' := GrowEnd(x, |fs.first|), GrowEnd(y, |fs.second|);
    if Overlaps(fs.same, GrowBegin(x), GrowBegin(y)) {
      OverlapsGrows(fs.same, GrowBegin(x), GrowBegin(y), GrowBegin(x'), GrowBegin(y'));
    }
  }

  // ----- Why a pair cannot grow

  ghost predicate Share(same: bool, x: Range, y: Range) {
    same && exists p :: Has(x, p) && Has(y, p)
  }

  /** Some byte of the n from p on differs from the one at its place in the other file. */
  ghost predicate Differ(fs: Files, p: nat, q: nat, n: nat)
    requires p + n <= |fs.first| && q + n <= |fs.second|
  {
    exists k :: p <= k < p + n && fs.first[k] != fs.second[k - p + q]
  }

  /** What stops the pair backward: its size, the start of the extent or of the source file, a byte that both
      ranges would have, a byte of the block before that differs, or what is asked about that block. */
  ghost predicate StoppedBack(fs: Files, e: Range, x: Range, y: Range)
    requires x.begin <= |fs.first| && y.begin <= |fs.second|
  {
    || x.end - x.begin >= 268_435_456 || y.begin == e.begin || x.begin < 4096 || y.begin < 4096
    || Share(fs.same, Range(x.begin - 4096, x.end), Range(y.begin - 4096, y.end))
    || Differ(fs, x.begin - 4096, y.begin - 4096, 4096)
    || fs.stop(Range(x.begin - 4096, x.begin), Range(y.begin - 4096, y.begin))
  }

  /** How much of the next block there is. */
  function Rest(end: nat, size: nat): nat
    requires end <= size
  {
    if size - end < 4096 then size - end else 4096
  }

  /** What stops it forward: its size, the end of the extent or of a file, ends of files at different places in
      the next block, a byte that both ranges would have, one that differs, or what is asked about the block. */
  ghost predicate StoppedForward(fs: Files, e: Range, x: Range, y: Range)
    requires x.end <= |fs.first| && y.end <= |fs.second|
  {
    var n := Rest(x.end, |fs.first|);
    || x.end - x.begin >= 268_435_456 || y.end >= e.end || n == 0 || n != Rest(y.end, |fs.second|)
    || Share(fs.same, Range(x.begin, x.end + n), Range(y.begin, y.end + n))
    || Differ(fs, x.end, y.end, n)
    || fs.stop(Range(x.end, x.end + n), Range(y.end, y.end + n))
  }

  lemma DifferIff(fs: Files, p: nat, q: nat, n: nat)
    requires p + n <= |fs.first| && q + n <= |fs.second|
    ensures SameData(fs, Range(p, p + n), Range(q, q + n)) <==> !Differ(fs, p, q, n)
  {
    var u, v := fs.first[p..p + n], fs.second[q..q + n];
    if u != v {
      var k :| 0 <= k < n && u[k] != v[k];
      assert fs.first[p + k] != fs.second[p + k - p + q];
    }
    forall k | p <= k < p + n && u == v ensures fs.first[k] == fs.second[k - p + q] {
      assert u[k - p] == v[k - p];
    }
  }

  lemma StoppedBackIff(fs: Files, e: Range, x: Range, y: Range)
    requires PairOk(fs, e, x, y)
    ensures CanGrowBack(fs, e, x, y) <==> !StoppedBack(fs, e, x, y)
  {
    if x.begin >= 4096 && y.begin >= 4096 {
      assert GrowBegin(x) == Range(x.begin - 4096, x.end) && GrowBegin(y) == Range(y.begin - 4096, y.end);
      OverlapsIsSharing(fs.same, Range(x.begin - 4096, x.end), Range(y.begin - 4096, y.end));
      DifferIff(fs, x.begin - 4096, y.begin - 4096, 4096);
    } else {
      AlignedStart(x.begin);
      AlignedStart(y.begin);
    }
  }

  lemma AlignedStart(p: nat)
    requires Aligned(p)
    ensures p < BLOCK ==> p == 0
  {
  }

  lemma StoppedForwardIff(fs: Files, e: Range, x: Range, y: Range)
    requires PairOk(fs, e, x, y)
    ensures CanGrowForward(fs, e, x, y) <==> !StoppedForward(fs, e, x, y)
  {
    var n, m := Rest(x.end, |fs.first|), Rest(y.end, |fs.second|);
    assert GrowEnd(x, |fs.first|).end == x.end + n && GrowEnd(y, |fs.second|).end == y.end + m;
    if n > 0 && m > 0 {
      SameMisalignment(x.begin, y.begin, x.end, y.end);
      SameGrowth(x.end, y.end, n, m);
      if n == m {
        OverlapsIsSharing(fs.same, Range(x.begin, x.end + n), Range(y.begin, y.end + n));
        DifferIff(fs, x.end, y.end, n);
      }
    }
  }

  lemma SameGrowth(a: nat, b: nat, n: nat, m: nat)
    requires a % BLOCK == b % BLOCK && 0 < n <= BLOCK && 0 < m <= BLOCK
    ensures (a + n) % BLOCK == (b + m) % BLOCK <==> n == m
  {
    if (a + n) % BLOCK == (b + m) % BLOCK { EqualGrowth(a, a + n, b, b + m); }
    if n == m { AddSame(a, b, n); }
  }

  lemma AddSame(a: nat, b: nat, n: nat)
    requires a % BLOCK == b % BLOCK
    ensures (a + n) % BLOCK == (b + n) % BLOCK
  {
  }

  class BeesRangePair {
    var first: Range
    var second: Range

    constructor (x: Range, y: Range)
      ensures first == x && second == y
    {
      first, second := x, y;
    }

    /** One turn of the first loop; false is a break. */
    method TryBack(fs: Files, e: Range) returns (more: bool)
      requires PairOk(fs, e, first, second)
      modifies this
      ensures more == old(CanGrowBack(fs, e, first, second))
      ensures if more then first == GrowBegin(old(first)) && second == GrowBegin(old(second)) else unchanged(this)
    {
      if Size(first) >= MAX_EXTENT || second.begin <= e.begin {
        return false;
      }
      var newFirst := GrowBegin(first);
      if newFirst.begin == first.begin {
        return false;
      }
      var newSecond := GrowBegin(second);
      if newSecond.begin == second.begin {
        return false;
      }
      if Overlaps(fs.same, newFirst, newSecond) {
        return false;
      }
      var x, y := Range(newFirst.begin, first.begin), Range(newSecond.begin, second.begin);
      if fs.first[x.begin..x.end] != fs.second[y.begin..y.end] || fs.stop(x, y) {
        return false;
      }
      BackKeepsPair(fs, e, first, second);
      assert Size(newFirst) == Size(newSecond);
      first, second := newFirst, newSecond;
      more := true;
    }

    /** One turn of the second loop; false is a break. */
    method TryForward(fs: Files, e: Range) returns (more: bool)
      requires PairOk(fs, e, first, second)
      modifies this
      ensures more == old(CanGrowForward(fs, e, first, second))
      ensures if more then first == GrowEnd(old(first), |fs.first|) && second == GrowEnd(old(second), |fs.second|) else unchanged(this)
    {
      if Size(first) >= MAX_EXTENT || second.end >= e.end {
        return false;
      }
      var newFirst := GrowEnd(first, |fs.first|);
      if newFirst.end == first.end {
        return false;
      }
      var newSecond := GrowEnd(second, |fs.second|);
      if newSecond.end == second.end {
        return false;
      }
      if newSecond.end % BLOCK != newFirst.end % BLOCK {
        return false;
      }
      if Overlaps(fs.same, newFirst, newSecond) {
        return false;
      }
      var x, y := Range(first.end, newFirst.end), Range(second.end, newSecond.end);
      if fs.first[x.begin..x.end] != fs.second[y.begin..y.end] || fs.stop(x, y) {
        return false;
      }
      ForwardKeepsPair(fs, e, first, second);
      assert Size(newFirst) == Size(newSecond);
      first, second := newFirst, newSecond;
      more := true;
    }

    method GrowBackward(fs: Files, e: Range) returns (grew: bool)
      requires PairOk(fs, e, first, second)
      modifies this
      ensures Grown(fs, e, old(first), old(second), first, second) && !CanGrowBack(fs, e, first, second)
      ensures grew <==> Size(first) > Size(old(first))
    {
      grew := false;
      ghost var a, b := first, second;
      var more := true;
      while more
        invariant Grown(fs, e, a, b, first, second) && (grew <==> Size(first) > Size(a))
        invariant !more ==> !CanGrowBack(fs, e, first, second)
        decreases first.begin, more
      {
        ghost var x, y := first, second;
        more := TryBack(fs, e);
        if more {
          BackKeepsPair(fs, e, x, y);
          BackGrows(fs, e, a, b, x, y);
          grew := true;
        }
      }
    }

    method GrowForward(fs: Files, e: Range) returns (grew: bool)
      requires PairOk(fs, e, first, second) && !CanGrowBack(fs, e, first, second)
      modifies this
      ensures Grown(fs, e, old(first), old(second), first, second)
      ensures !CanGrowBack(fs, e, first, second) && !CanGrowForward(fs, e, first, second)
      ensures grew <==> Size(first) > Size(old(first))
    {
      grew := false;
      ghost var a, b := first, second;
      var more := true;
      while more
        invariant Grown(fs, e, a, b, first, second) && (grew <==> Size(first) > Size(a))
        invariant !CanGrowBack(fs, e, first, second)
        invariant !more ==> !CanGrowForward(fs, e, first, second)
        decreases |fs.first| - first.end, more
      {
        ghost var x, y := first, second;
        more := TryForward(fs, e);
        if more {
          ForwardGrows(fs, e, a, b, x, y);
          StillStopped(fs, e, x, y);
          grew := true;
        }
      }
    }

    /** grow: ok is false where the source throws, for a begin inside a block or a pair that overlaps. */
    method Grow(fs: Files, e: Range) returns (ok: bool, grew: bool)
      requires first.begin < first.end <= |fs.first| && second.begin < second.end <= |fs.second| && Size(first) == Size(second)
      requires Aligned(e.begin) && e.begin <= second.begin && (Aligned(e.end) || e.end == |fs.second|)
      requires Aligned(first.end) || first.end == |fs.first| || second.end == |fs.second|
      modifies this
      ensures ok == old(Aligned(first.begin) && Aligned(second.begin) && !Overlaps(fs.same, first, second))
      ensures !ok ==> unchanged(this)
      ensures ok ==> Grown(fs, e, old(first), old(second), first, second)
      ensures ok ==> StoppedBack(fs, e, first, second) && StoppedForward(fs, e, first, second)
      ensures ok ==> (grew <==> Size(first) > Size(old(first)))
    {
      grew := false;
      if !Aligned(first.begin) || !Aligned(second.begin) || Overlaps(fs.same, first, second) {
        ok := false;
        return;
      }
      ok := true;
      var back := GrowBackward(fs, e);
      var forward := GrowForward(fs, e);
      grew := back || forward;
      StoppedBackIff(fs, e, first, second);
      StoppedForwardIff(fs, e, first, second);
    }
  }
}
