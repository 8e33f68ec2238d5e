/**
 The extent list of a file (lib/extentwalker.cc): what the kernel maps is completed with holes, cut at
 the end of the file, and searched by position.
 */
module ExtentWalker {

  /** Extent.  `hole` and `last` are the flags Extent::HOLE and FIEMAP_EXTENT_LAST. */
  datatype Extent = Extent(begin: nat, end: nat, physical: nat, hole: bool, last: bool)

  function Hole(begin: nat, end: nat, last: bool): Extent {
    Extent(begin, end, 0, true, last)
  }

  /** What the sanity check and the kernel grant: in order, not overlapping, not empty, not before
      `begin`, and only the final one marked as last. */
  predicate Sane(fm: seq<Extent>, begin: nat) {
    && (forall i :: 0 <= i < |fm| ==> begin <= fm[i].begin < fm[i].end && !fm[i].hole)
    && (forall i, j :: 0 <= i < j < |fm| ==> fm[i].end <= fm[j].begin)
    && (forall i :: 0 <= i < |fm| - 1 ==> !fm[i].last)
  }

  // ----- What the result must be

  /** The list has no gap: it starts at begin, and each extent starts where the one before ends. */
  predicate Contiguous(v: seq<Extent>, begin: nat) {
    && (forall i :: 0 <= i < |v| ==> v[i].begin < v[i].end)
    && (v != [] ==> v[0].begin == begin)
    && (forall i :: 0 <= i < |v| - 1 ==> v[i].end == v[i + 1].begin)
  }

  function EndOf(v: seq<Extent>, begin: nat): nat {
    if v == [] then begin else v[|v| - 1].end
  }

  /** The members that are not holes. */
  function Originals(v: seq<Extent>): seq<Extent> {
    if v == [] then []
    else Originals(v[..|v| - 1]) + if v[|v| - 1].hole then [] else [v[|v| - 1]]
  }

  lemma OriginalsPlus(v: seq<Extent>, e: Extent)
    ensures Originals(v + [e]) == Originals(v) + if e.hole then [] else [e]
  {
    assert (v + [e])[..|v|] == v;
  }

  lemma {:induction false} OriginalsAreMembers(v: seq<Extent>, e: Extent)
    ensures e in Originals(v) <==> e in v && !e.hole
  {
    if v != [] {
      OriginalsAreMembers(v[..|v| - 1], e);
      assert v == v[..|v| - 1] + [v[|v| - 1]];
    }
  }

  lemma {:induction false} ContiguousOrder(v: seq<Extent>, begin: nat, i: nat, j: nat)
    requires Contiguous(v, begin) && i < j < |v|
    ensures v[i].end <= v[j].begin
  {
    if i + 1 < j { ContiguousOrder(v, begin, i, j - 1); }
  }

  predicate Has(e: Extent, x: int) {
    e.begin <= x < e.end
  }

  /** Every position of the list is in one member, and that member is a hole exactly if no original
      has the position. */
  lemma HolesAreGaps(v: seq<Extent>, begin: nat, i: nat, x: int)
    requires Contiguous(v, begin) && i < |v| && Has(v[i], x)
    ensures v[i].hole <==> forall e :: e in Originals(v) ==> !Has(e, x)
  {
    if !v[i].hole {
      OriginalsAreMembers(v, v[i]);
      assert v[i] in Originals(v);
    } else {
      forall e | e in Originals(v) ensures !Has(e, x) {
        OriginalsAreMembers(v, e);
        var j :| 0 <= j < |v| && v[j] == e;
        if j < i { ContiguousOrder(v, begin, j, i); } else if i < j { ContiguousOrder(v, begin, i, j); }
      }
    }
  }

  /** How many extents begin before the end of the file. */
  function Readable(fm: seq<Extent>, size: nat): (n: nat)
    ensures n <= |fm| && (forall i :: 0 <= i < n ==> fm[i].begin < size) && (n < |fm| ==> fm[n].begin >= size)
  {
    if fm == [] || fm[0].begin >= size then 0 else 1 + Readable(fm[1..], size)
  }

  /** The map reaches the end of the file. */
  predicate ReachesEnd(fm: seq<Extent>, begin: nat, size: nat) {
    if Readable(fm, size) < |fm| then true else if fm == [] then begin == 0 else fm[|fm| - 1].last
  }

  /** The last readable extent, cut at the end of the file or followed by a hole that takes its flag. */
  function Clipped(e: Extent, reaches: bool, size: nat): Extent {
    if e.end >= size then e.(end := size) else if reaches then e.(last := false) else e
  }

  function Expected(fm: seq<Extent>, begin: nat, size: nat): seq<Extent> {
    var n := Readable(fm, size);
    if n == 0 then [] else fm[..n - 1] + [Clipped(fm[n - 1], ReachesEnd(fm, begin, size), size)]
  }

  predicate LastOnlyAtEnd(v: seq<Extent>) {
    forall i :: 0 <= i < |v| - 1 ==> !v[i].last
  }

  ghost predicate Complete(fm: seq<Extent>, begin: nat, size: nat, v: seq<Extent>) {
    && v != [] && Contiguous(v, begin) && LastOnlyAtEnd(v)
    && Originals(v) == Expected(fm, begin, size)
    && EndOf(v, begin) <= size && (ReachesEnd(fm, begin, size) ==> EndOf(v, begin) == size)
    && var n := Readable(fm, size);
       && v[|v| - 1].last == (n > 0 && fm[n - 1].last)
       && (n > 0 && !ReachesEnd(fm, begin, size) ==> v[|v| - 1] == Clipped(fm[n - 1], false, size))
  }

  /** Where a complete list ends: at the end of the file, if the map has no extent, or one that is at or past
      it, or one that is marked as the last; else where the map ends. */
  lemma CompleteEnds(fm: seq<Extent>, begin: nat, size: nat, v: seq<Extent>)
    requires Sane(fm, begin) && begin < size && (fm == [] ==> begin == 0) && Complete(fm, begin, size, v)
    ensures EndOf(v, begin) == if fm == [] || fm[|fm| - 1].last || fm[|fm| - 1].end >= size then size else fm[|fm| - 1].end
  {
    var n := Readable(fm, size);
    if n < |fm| { assert fm[n].begin <= fm[|fm| - 1].begin; }
  }

  // ----- The loop that fills the holes

  /** The list after k extents. */
  ghost predicate FilledTo(fm: seq<Extent>, begin: nat, k: nat, v: seq<Extent>, ipos: nat) {
    && k <= |fm| && Contiguous(v, begin) && EndOf(v, begin) == ipos
    && Originals(v) == fm[..k] && (k == 0 ==> v == []) && (k > 0 ==> v != [] && v[|v| - 1] == fm[k - 1])
    && (forall i :: 0 <= i < |v| - 1 ==> !v[i].last)
  }

  lemma PushKeepsContiguous(v: seq<Extent>, begin: nat, e: Extent)
    requires Contiguous(v, begin) && e.begin < e.end && e.begin == EndOf(v, begin)
    ensures Contiguous(v + [e], begin) && EndOf(v + [e], begin) == e.end
  {
  }

  /** The list after k extents and the hole, if any, before the next one. */
  ghost predicate ReadyFor(fm: seq<Extent>, begin: nat, k: nat, v: seq<Extent>) {
    k < |fm| && Contiguous(v, begin) && EndOf(v, begin) == fm[k].begin && Originals(v) == fm[..k] && NoneLast(v)
  }

  predicate NoneLast(v: seq<Extent>) {
    forall i :: 0 <= i < |v| ==> !v[i].last
  }

  lemma FilledNoneLast(fm: seq<Extent>, begin: nat, k: nat, v: seq<Extent>, ipos: nat)
    requires Sane(fm, begin) && FilledTo(fm, begin, k, v, ipos) && k < |fm|
    ensures NoneLast(v) && ipos <= fm[k].begin
  {
  }

  lemma HoleMakesReady(fm: seq<Extent>, begin: nat, k: nat, v: seq<Extent>, ipos: nat)
    requires Sane(fm, begin) && FilledTo(fm, begin, k, v, ipos) && k < |fm| && ipos < fm[k].begin
    ensures ReadyFor(fm, begin, k, v + [Hole(ipos, fm[k].begin, false)])
  {
    FilledNoneLast(fm, begin, k, v, ipos);
    PushKeepsContiguous(v, begin, Hole(ipos, fm[k].begin, false));
    OriginalsPlus(v, Hole(ipos, fm[k].begin, false));
  }

  lemma PushFills(fm: seq<Extent>, begin: nat, k: nat, v: seq<Extent>)
    requires Sane(fm, begin) && ReadyFor(fm, begin, k, v)
    ensures FilledTo(fm, begin, k + 1, v + [fm[k]], fm[k].end)
  {
    PushKeepsContiguous(v, begin, fm[k]);
    OriginalsPlus(v, fm[k]);
    assert fm[..k + 1] == fm[..k] + [fm[k]];
  }

  // ----- The end of the list

  /** The last member is replaced by another extent, or by one that ends elsewhere. */
  lemma ReplaceLast(w: seq<Extent>, begin: nat, e: Extent)
    requires w != [] && Contiguous(w, begin) && e.begin == w[|w| - 1].begin < e.end && !e.hole && !w[|w| - 1].hole
    ensures var v := w[|w| - 1 := e];
            && Contiguous(v, begin) && EndOf(v, begin) == e.end
            && Originals(v) == Originals(w[..|w| - 1]) + [e] && Originals(w) == Originals(w[..|w| - 1]) + [w[|w| - 1]]
  {
    var v := w[|w| - 1 := e];
    assert v[..|v| - 1] == w[..|w| - 1];
  }

  lemma LastIsOriginal(fm: seq<Extent>, begin: nat, k: nat, w: seq<Extent>, ipos: nat)
    requires FilledTo(fm, begin, k, w, ipos) && k > 0 && !fm[k - 1].hole
    ensures Originals(w[..|w| - 1]) == fm[..k - 1]
  {
    assert w == w[..|w| - 1] + [w[|w| - 1]];
    OriginalsPlus(w[..|w| - 1], w[|w| - 1]);
    assert fm[..k] == fm[..k - 1] + [fm[k - 1]];
  }

  lemma WholeHole(fm: seq<Extent>, begin: nat, size: nat)
    requires begin < size && Readable(fm, size) == 0 && (fm == [] ==> begin == 0)
    ensures Complete(fm, begin, size, [Hole(begin, size, false)])
  {
    OriginalsPlus([], Hole(begin, size, false));
    assert [] + [Hole(begin, size, false)] == [Hole(begin, size, false)];
  }

  lemma CutLast(fm: seq<Extent>, begin: nat, size: nat, n: nat, w: seq<Extent>, ipos: nat)
    requires Sane(fm, begin) && n == Readable(fm, size) > 0 && FilledTo(fm, begin, n, w, ipos)
    requires ipos >= size || !ReachesEnd(fm, begin, size)
    ensures Complete(fm, begin, size, w[|w| - 1 := Clipped(fm[n - 1], ReachesEnd(fm, begin, size), size)])
  {
    LastIsOriginal(fm, begin, n, w, ipos);
    ReplaceLast(w, begin, Clipped(fm[n - 1], ReachesEnd(fm, begin, size), size));
  }

  lemma TrailingHole(fm: seq<Extent>, begin: nat, size: nat, n: nat, w: seq<Extent>, ipos: nat)
    requires Sane(fm, begin) && n == Readable(fm, size) > 0 && FilledTo(fm, begin, n, w, ipos)
    requires ipos < size && ReachesEnd(fm, begin, size)
    ensures Complete(fm, begin, size, w[|w| - 1 := fm[n - 1].(last := false)] + [Hole(ipos, size, fm[n - 1].last)])
  {
    var e, hole := fm[n - 1].(last := false), Hole(ipos, size, fm[n - 1].last);
    LastIsOriginal(fm, begin, n, w, ipos);
    ReplaceLast(w, begin, e);
    var v := w[|w| - 1 := e];
    PushKeepsContiguous(v, begin, hole);
    OriginalsPlus(v, hole);
  }

  /** If we have run out of extents before the end of the file, a hole takes the rest and the flag. */
  method AddTrailingHole(w: seq<Extent>, ipos: nat, size: nat) returns (v: seq<Extent>)
    ensures v == if w == [] then [Hole(ipos, size, false)]
                 else w[|w| - 1 := w[|w| - 1].(last := false)] + [Hole(ipos, size, w[|w| - 1].last)]
  {
    v := w;
    var last := false;
    if v != [] && v[|v| - 1].last {
      v := v[|v| - 1 := v[|v| - 1].(last := false)];
      last := true;
    }
    v := v + [Hole(ipos, size, last)];
  }

  /** If we have the last extent in the file, truncate it to the file size. */
  method CutAtEnd(w: seq<Extent>, size: nat) returns (v: seq<Extent>)
    requires w != [] && w[|w| - 1].begin < size
    ensures v == if w[|w| - 1].end >= size then w[|w| - 1 := w[|w| - 1].(end := size)] else w
  {
    v := w;
    if v[|v| - 1].end >= size {
      assert v[|v| - 1].begin < size <= v[|v| - 1].end;
      v := v[|v| - 1 := v[|v| - 1].(end := size)];
    }
  }

  method FinishWithHole(fm: seq<Extent>, begin: nat, size: nat, w: seq<Extent>, ipos: nat) returns (v: seq<Extent>)
    requires Sane(fm, begin) && begin < size && FilledTo(fm, begin, Readable(fm, size), w, ipos)
    requires ReachesEnd(fm, begin, size) && ipos < size && (fm == [] ==> begin == 0)
    ensures Complete(fm, begin, size, v) && v[|v| - 1].end == size
  {
    v := AddTrailingHole(w, ipos, size);
    ghost var n := Readable(fm, size);
    if n > 0 { TrailingHole(fm, begin, size, n, w, ipos); } else { WholeHole(fm, begin, size); }
  }

  method FinishList(fm: seq<Extent>, begin: nat, size: nat, w: seq<Extent>, ipos: nat, reaches: bool) returns (v: seq<Extent>)
    requires Sane(fm, begin) && begin < size && FilledTo(fm, begin, Readable(fm, size), w, ipos)
    requires reaches == ReachesEnd(fm, begin, size) && (fm == [] ==> begin == 0)
    ensures Complete(fm, begin, size, v)
  {
    if reaches && ipos < size {
      v := FinishWithHole(fm, begin, size, w, ipos);
      ghost var u := v;
      v := CutAtEnd(v, size);
      assert v == u;
    } else {
      CutLast(fm, begin, size, Readable(fm, size), w, ipos);
      assert w != [] && ipos == w[|w| - 1].end;
      v := CutAtEnd(w, size);
      assert ipos < size ==> w[|w| - 1 := w[|w| - 1]] == w;
    }
  }

  /** One extent more. */
  method PushExtent(fm: seq<Extent>, begin: nat, k: nat, w: seq<Extent>, pos: nat) returns (v: seq<Extent>, ipos: nat)
    requires Sane(fm, begin) && FilledTo(fm, begin, k, w, pos) && k < |fm|
    ensures FilledTo(fm, begin, k + 1, v, ipos)
  {
    var e := fm[k];
    v, ipos := w, pos;
    FilledNoneLast(fm, begin, k, w, pos);
    assert ipos <= e.begin;
    if e.begin > ipos {
      HoleMakesReady(fm, begin, k, v, ipos);
      v := v + [Hole(ipos, e.begin, false)];
      ipos := e.begin;
    }
    assert ipos == e.begin;
    PushFills(fm, begin, k, v);
    v, ipos := v + [e], e.end;
  }

  /** The hole filling of run_fiemap; none of its checks fails. */
  method FillHoles(fm: seq<Extent>, begin: nat, size: nat) returns (v: seq<Extent>)
    requires Sane(fm, begin) && begin < size && (fm == [] ==> begin == 0)
    ensures Complete(fm, begin, size, v)
  {
    var k, ipos, reaches := 0, begin, begin == 0 && fm == [];
    v := [];
    while k < |fm|
      invariant 0 <= k <= Readable(fm, size) && FilledTo(fm, begin, k, v, ipos)
      invariant reaches == if k > 0 then fm[k - 1].last else begin == 0 && fm == []
    {
      if fm[k].begin >= size {
        reaches := true;
        break;
      }
      v, ipos := PushExtent(fm, begin, k, v, ipos);
      reaches, k := fm[k].last, k + 1;
    }
    v := FinishList(fm, begin, size, v, ipos, reaches);
    Verify(v, begin);
  }

  /** The final loop, whose checks hold for every complete list. */
  method Verify(v: seq<Extent>, ghost begin: nat)
    requires v != [] && Contiguous(v, begin) && LastOnlyAtEnd(v)
  {
    var ipos, lastFlag := v[0].begin, false;
    for i := 0 to |v|
      invariant i < |v| ==> v[i].begin == ipos
      invariant i < |v| ==> !lastFlag
    {
      assert v[i].begin == ipos;
      assert v[i].end > v[i].begin;
      assert !lastFlag;
      ipos, lastFlag := v[i].end, v[i].last;
    }
  }

  // ----- Looking up a position

  /** The cached extent for pos, as an index; the length of the list if it cannot be told from the list. */
  predicate Usable(v: seq<Extent>, size: nat, i: nat)
    requires i < |v|
  {
    (i > 0 || v[0].begin == 0) && (i < |v| - 1 || v[i].end >= size)
  }

  /** The list reaches both ends of the file. */
  predicate WholeFile(v: seq<Extent>, size: nat) {
    v != [] && v[0].begin == 0 && EndOf(v, 0) == size
  }

  class Walker {
    var extents: seq<Extent>
    var current: nat
    var size: nat

    constructor (fileSize: nat)
      ensures extents == [] && current == 0 && size == fileSize
    {
      extents, current, size := [], 0, fileSize;
    }

    /** The end of run_fiemap: the list replaces the cache. */
    method Refill(fm: seq<Extent>, begin: nat)
      requires Sane(fm, begin) && begin < size && (fm == [] ==> begin == 0)
      modifies this`extents, this`current
      ensures Complete(fm, begin, size, extents) && current == 0
      ensures begin == 0 && ReachesEnd(fm, begin, size) ==> WholeFile(extents, size)
    {
      extents := FillHoles(fm, begin, size);
      current := 0;
    }

    /** find_in_cache: on a list without gaps it finds the one extent that has pos, provided its
        neighbours are known too, and the last one for a pos past the end of the file. */
    method FindInCache(pos: nat) returns (i: nat)
      requires Contiguous(extents, if extents == [] then 0 else extents[0].begin)
      requires EndOf(extents, 0) <= size
      ensures i <= |extents|
      ensures pos < size && i < |extents| ==> Has(extents[i], pos) && Usable(extents, size, i)
      ensures pos < size && i == |extents| ==> forall j :: 0 <= j < |extents| && Has(extents[j], pos) ==> !Usable(extents, size, j)
      ensures pos >= size ==> (i < |extents| <==> extents != [] && EndOf(extents, 0) == size)
      ensures pos >= size && i < |extents| ==> i == |extents| - 1
      ensures WholeFile(extents, size) ==> i < |extents|
    {
      if pos >= size && extents != [] && extents[|extents| - 1].end == size {
        return |extents| - 1;
      }
      ghost var begin := if extents == [] then 0 else extents[0].begin;
      for vi := 0 to |extents|
        invariant forall j :: 0 <= j < vi ==> !Has(extents[j], pos)
      {
        if extents[vi].begin <= pos && pos < extents[vi].end {
          forall j | 0 <= j < |extents| && j != vi ensures !Has(extents[j], pos) {
            if j < vi { ContiguousOrder(extents, begin, j, vi); } else { ContiguousOrder(extents, begin, vi, j); }
          }
          if pos >= size {
            EndIsLast(extents, begin, vi);
          }
          if vi == 0 && extents[0].begin != 0 {
            break;
          }
          if vi + 1 == |extents| && extents[vi].end < size {
            break;
          }
          return vi;
        }
      }
      i := |extents|;
      if pos < size && WholeFile(extents, size) { WholeFileIsUsable(extents, size, pos); }
    }
  }

  lemma EndIsLast(v: seq<Extent>, begin: nat, i: nat)
    requires Contiguous(v, begin) && i < |v|
    ensures v[i].end <= EndOf(v, begin)
  {
    if i < |v| - 1 { ContiguousOrder(v, begin, i, |v| - 1); }
  }

  lemma {:induction false} EveryPositionIsCached(v: seq<Extent>, begin: nat, x: nat)
    requires Contiguous(v, begin) && begin <= x < EndOf(v, begin)
    ensures exists i :: 0 <= i < |v| && Has(v[i], x)
    decreases |v|
  {
    var n := |v| - 1;
    if v[n].begin <= x {
      assert Has(v[n], x);
    } else {
      var w := v[..n];
      EveryPositionIsCached(w, begin, x);
      var i :| 0 <= i < |w| && Has(w[i], x);
      assert Has(v[i], x);
    }
  }

  /** With the whole file cached, every position in it can be told from the list. */
  lemma WholeFileIsUsable(v: seq<Extent>, size: nat, pos: nat)
    requires Contiguous(v, 0) && WholeFile(v, size) && pos < size
    ensures exists i :: 0 <= i < |v| && Has(v[i], pos) && Usable(v, size, i)
  {
    EveryPositionIsCached(v, 0, pos);
    var i :| 0 <= i < |v| && Has(v[i], pos);
    assert Usable(v, size, i);
  }
}
