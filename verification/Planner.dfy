/**
 The plan that scan_one_extent makes once it has collected matches for an extent: overlapping matches
 are trimmed, and the rest of the extent is split into ranges to copy (src/bees-context.cc).
 */
module Planner {

  import opened Common

  /** BeesRangePair: equal data at `src` (in some file) and `dst` (in the extent being scanned). */
  datatype Pair = Pair(src: Range, dst: Range)

  predicate NonEmpty(r: Range) {
    r.begin < r.end
  }

  predicate ValidPair(p: Pair) {
    NonEmpty(p.dst) && NonEmpty(p.src) && Size(p.src) == Size(p.dst)
  }

  predicate Disjoint(a: Range, b: Range) {
    a.end <= b.begin || b.end <= a.begin
  }

  predicate Inside(a: Range, b: Range) {
    b.begin <= a.begin && a.end <= b.end
  }

  /** p is a part of q: the same bytes of q's source at the same bytes of q's destination. */
  predicate SubPair(p: Pair, q: Pair) {
    ValidPair(p) && Inside(p.dst, q.dst) && Inside(p.src, q.src) && p.src.begin - p.dst.begin == q.src.begin - q.dst.begin
  }

  // ----- shrink_begin and shrink_end, whose checks are the preconditions

  function ShrinkBegin(p: Pair, delta: nat): (r: Pair)
    requires delta > 0 && p.src.begin + delta < p.src.end && p.dst.begin + delta < p.dst.end
    requires Size(p.src) == Size(p.dst)
    ensures SubPair(r, p) && r.dst.end == p.dst.end
  {
    Pair(Range(p.src.begin + delta, p.src.end), Range(p.dst.begin + delta, p.dst.end))
  }

  /** The check only keeps the ends from passing zero. */
  function ShrinkEnd(p: Pair, delta: nat): (r: Pair)
    requires delta > 0 && p.src.end >= delta && p.dst.end >= delta
    requires Size(p.src) == Size(p.dst)
    ensures Size(r.src) == Size(r.dst) == Size(p.dst) - delta
    ensures delta < Size(p.dst) && ValidPair(p) ==> SubPair(r, p) && r.dst.begin == p.dst.begin
  {
    Pair(Range(p.src.begin, p.src.end - delta), Range(p.dst.begin, p.dst.end - delta))
  }

  // ----- The trimmer

  /** What is left of i after j has taken its bytes, or nothing. */
  function TrimBy(i: Pair, j: Pair): (r: Option<Pair>)
    requires ValidPair(i) && ValidPair(j)
    ensures r.Some? ==> SubPair(r.value, i) && Disjoint(r.value.dst, j.dst)
    ensures r.None? ==> !Disjoint(i.dst, j.dst)
  {
    if Disjoint(j.dst, i.dst) then Some(i)
    else if Inside(i.dst, j.dst) then None
    else if j.dst.begin < i.dst.end && i.dst.begin <= j.dst.begin then
      var delta := i.dst.end - j.dst.begin;
      if delta == Size(i.dst) then None else Some(ShrinkEnd(i, delta))
    else
      var delta := j.dst.end - i.dst.begin;
      Some(ShrinkBegin(i, delta))
  }

  /** The split branch and the check after it are never reached: the third condition takes every i that
      begins before j and ends after it. */
  lemma SplitUnreachable(i: Pair, j: Pair)
    requires ValidPair(i) && ValidPair(j) && !Disjoint(j.dst, i.dst) && !Inside(i.dst, j.dst)
    requires !(j.dst.begin < i.dst.end && i.dst.begin <= j.dst.begin)
    ensures i.dst.begin < j.dst.end && j.dst.end <= i.dst.end && j.dst.end - i.dst.begin < Size(i.dst)
  {
  }

  /** Bytes of i are lost, in neither j nor the rest of i, exactly if i ends after a j that does not
      begin before it. */
  lemma TrimKeepsBytesIff(i: Pair, j: Pair)
    requires ValidPair(i) && ValidPair(j)
    ensures var r := TrimBy(i, j);
            (forall x :: Has(i.dst, x) ==> Has(j.dst, x) || (r.Some? && Has(r.value.dst, x)))
            <==> !(i.dst.begin <= j.dst.begin && j.dst.begin < i.dst.end && j.dst.end < i.dst.end)
  {
    if i.dst.begin <= j.dst.begin && j.dst.begin < i.dst.end && j.dst.end < i.dst.end {
      assert Has(i.dst, j.dst.end) && !Has(j.dst, j.dst.end);
    }
  }

  /** i trimmed by each of outs in turn. */
  function TrimAll(i: Pair, outs: seq<Pair>): (r: Option<Pair>)
    requires ValidPair(i) && forall j :: j in outs ==> ValidPair(j)
    decreases |outs|
  {
    if outs == [] then Some(i)
    else
      var rest := TrimBy(i, outs[0]);
      if rest.None? then None else TrimAll(rest.value, outs[1..])
  }

  lemma {:induction false} TrimAllIsDisjoint(i: Pair, outs: seq<Pair>)
    requires ValidPair(i) && forall j :: j in outs ==> ValidPair(j)
    ensures var r := TrimAll(i, outs);
            if r.Some? then SubPair(r.value, i) && forall j :: j in outs ==> Disjoint(r.value.dst, j.dst)
            else exists j :: j in outs && !Disjoint(i.dst, j.dst)
    decreases |outs|
  {
    if outs != [] {
      var rest := TrimBy(i, outs[0]);
      if rest.Some? {
        TrimAllIsDisjoint(rest.value, outs[1..]);
        if TrimAll(i, outs).Some? {
          forall j | j in outs ensures Disjoint(TrimAll(i, outs).value.dst, j.dst) {
            if j != outs[0] { assert j in outs[1..]; }
          }
        }
      }
    }
  }

  /** Longest destination first; equal ones keep their order, as list::sort does. */
  function InsertBySize(p: Pair, q: seq<Pair>): (r: seq<Pair>)
    ensures multiset(r) == multiset([p] + q)
  {
    if q == [] || Size(q[0].dst) <= Size(p.dst) then [p] + q
    else
      assert q == [q[0]] + q[1..];
      [q[0]] + InsertBySize(p, q[1..])
  }

  function SortBySize(q: seq<Pair>): (r: seq<Pair>)
    ensures multiset(r) == multiset(q)
  {
    if q == [] then []
    else
      assert q == [q[0]] + q[1..];
      InsertBySize(q[0], SortBySize(q[1..]))
  }

  lemma SortKeepsMembers(q: seq<Pair>, p: Pair)
    ensures p in SortBySize(q) <==> p in q
  {
    assert p in multiset(SortBySize(q)) <==> p in multiset(q);
  }

  /** The longest match is tried first. */
  lemma {:induction false} LongestFirst(q: seq<Pair>, p: Pair)
    requires p in q
    ensures SortBySize(q) != [] && Size(p.dst) <= Size(SortBySize(q)[0].dst)
  {
    var r := SortBySize(q[1..]);
    if p in q[1..] { LongestFirst(q[1..], p); }
    assert p == q[0] || p in q[1..];
    assert SortBySize(q) == InsertBySize(q[0], r);
  }

  predicate Descending(q: seq<Pair>) {
    forall i, j :: 0 <= i < j < |q| ==> Size(q[i].dst) >= Size(q[j].dst)
  }

  /** The matches of one size, in their order. */
  function OfSize(q: seq<Pair>, size: int): seq<Pair> {
    if q == [] then [] else (if Size(q[0].dst) == size then [q[0]] else []) + OfSize(q[1..], size)
  }

  lemma InsertedAre(p: Pair, q: seq<Pair>)
    ensures forall x :: x in InsertBySize(p, q) ==> x == p || x in q
  {
    forall x | x in InsertBySize(p, q) ensures x == p || x in q {
      assert x in multiset(InsertBySize(p, q)) && x in multiset([p] + q);
    }
  }

  lemma {:induction false} InsertKeepsDescending(p: Pair, q: seq<Pair>)
    requires Descending(q)
    ensures Descending(InsertBySize(p, q))
  {
    if q != [] && Size(q[0].dst) > Size(p.dst) {
      InsertKeepsDescending(p, q[1..]);
      InsertedAre(p, q[1..]);
      var r := InsertBySize(p, q[1..]);
      forall j | 0 <= j < |r| ensures Size(q[0].dst) >= Size(r[j].dst) { assert r[j] in r; }
    }
  }

  lemma {:induction false} InsertIsStable(p: Pair, q: seq<Pair>, size: int)
    ensures OfSize(InsertBySize(p, q), size) == (if Size(p.dst) == size then [p] else []) + OfSize(q, size)
  {
    var r := InsertBySize(p, q);
    if q == [] || Size(q[0].dst) <= Size(p.dst) {
      assert r[1..] == q;
    } else {
      InsertIsStable(p, q[1..], size);
      assert r[0] == q[0] && r[1..] == InsertBySize(p, q[1..]);
      var rest := OfSize(q[1..], size);
      if Size(p.dst) == size {
        assert OfSize(q, size) == [] + rest == rest;
      } else {
        assert [] + rest == rest && [] + OfSize(q, size) == OfSize(q, size);
      }
    }
  }

  /** The sort: longest first, and those of one size in the order they were found. */
  lemma {:induction false} SortIsStable(q: seq<Pair>, size: int)
    ensures Descending(SortBySize(q)) && OfSize(SortBySize(q), size) == OfSize(q, size)
  {
    if q != [] {
      SortIsStable(q[1..], size);
      InsertKeepsDescending(q[0], SortBySize(q[1..]));
      InsertIsStable(q[0], SortBySize(q[1..]), size);
    }
  }

  /** The output so far, after the first n of the sorted matches. */
  function Kept(sorted: seq<Pair>, n: nat): (outs: seq<Pair>)
    requires n <= |sorted| && forall p :: p in sorted ==> ValidPair(p)
    ensures forall j :: j in outs ==> ValidPair(j)
  {
    if n == 0 then []
    else
      var outs := Kept(sorted, n - 1);
      TrimAllIsDisjoint(sorted[n - 1], outs);
      var r := TrimAll(sorted[n - 1], outs);
      if r.Some? then outs + [r.value] else outs
  }

  predicate AllDisjoint(outs: seq<Pair>) {
    forall a, b :: 0 <= a < b < |outs| ==> Disjoint(outs[a].dst, outs[b].dst)
  }

  /** No two of the ranges kept overlap. */
  lemma {:induction false} KeptIsDisjoint(sorted: seq<Pair>, n: nat)
    requires n <= |sorted| && forall p :: p in sorted ==> ValidPair(p)
    ensures AllDisjoint(Kept(sorted, n))
  {
    if n > 0 {
      KeptIsDisjoint(sorted, n - 1);
      TrimAllIsDisjoint(sorted[n - 1], Kept(sorted, n - 1));
    }
  }

  /** Each range kept is a part of a match, paired with the same part of its source. */
  lemma {:induction false} KeptIsPart(sorted: seq<Pair>, n: nat, k: nat)
    requires n <= |sorted| && (forall p :: p in sorted ==> ValidPair(p)) && k < |Kept(sorted, n)|
    ensures exists i :: 0 <= i < n && SubPair(Kept(sorted, n)[k], sorted[i])
  {
    TrimAllIsDisjoint(sorted[n - 1], Kept(sorted, n - 1));
    if k < |Kept(sorted, n - 1)| {
      KeptIsPart(sorted, n - 1, k);
    } else {
      assert SubPair(Kept(sorted, n)[k], sorted[n - 1]);
    }
  }

  /** A match is dropped only where its bytes are already matched. */
  lemma {:induction false} EveryMatchMeetsKept(sorted: seq<Pair>, n: nat, i: nat)
    requires i < n <= |sorted| && forall p :: p in sorted ==> ValidPair(p)
    ensures exists k :: 0 <= k < |Kept(sorted, n)| && !Disjoint(sorted[i].dst, Kept(sorted, n)[k].dst)
  {
    var outs := Kept(sorted, n - 1);
    TrimAllIsDisjoint(sorted[n - 1], outs);
    if i < n - 1 {
      EveryMatchMeetsKept(sorted, n - 1, i);
      var k :| 0 <= k < |outs| && !Disjoint(sorted[i].dst, outs[k].dst);
      assert Kept(sorted, n)[k] == outs[k];
    } else if TrimAll(sorted[n - 1], outs).Some? {
      assert !Disjoint(sorted[i].dst, Kept(sorted, n)[|outs|].dst);
    } else {
      var j :| j in outs && !Disjoint(sorted[n - 1].dst, j.dst);
      var k :| 0 <= k < |outs| && outs[k] == j;
      assert Kept(sorted, n)[k] == j;
    }
  }

  lemma {:induction false} FirstIsKeptWhole(sorted: seq<Pair>, n: nat)
    requires 0 < n <= |sorted| && forall p :: p in sorted ==> ValidPair(p)
    ensures Kept(sorted, n) != [] && Kept(sorted, n)[0] == sorted[0]
  {
    if n > 1 { FirstIsKeptWhole(sorted, n - 1); }
  }

  /** Each byte of the destination equals the byte at the same distance in the source. */
  ghost predicate Matches(p: Pair, src: int -> int, dst: int -> int) {
    forall x :: Has(p.dst, x) ==> dst(x) == src(x - p.dst.begin + p.src.begin)
  }

  /** Bytes that matched before trimming match after it. */
  lemma PartStillMatches(p: Pair, q: Pair, src: int -> int, dst: int -> int)
    requires SubPair(p, q) && Matches(q, src, dst)
    ensures Matches(p, src, dst)
  {
    forall x | Has(p.dst, x) ensures dst(x) == src(x - p.dst.begin + p.src.begin) {
      assert Has(q.dst, x);
    }
  }

  // ----- Which bytes are lost

  /** While i is trimmed by outs, byte x is cut off with the end of i, behind a range that does not have it. */
  predicate CutOff(i: Pair, outs: seq<Pair>, x: int)
    requires ValidPair(i) && forall j :: j in outs ==> ValidPair(j)
    decreases |outs|
  {
    outs != [] && (
      var j, rest := outs[0], TrimBy(i, outs[0]);
      || (i.dst.begin <= j.dst.begin < i.dst.end && j.dst.end <= x < i.dst.end)
      || (rest.Some? && CutOff(rest.value, outs[1..], x)))
  }

  predicate SomeHas(outs: seq<Pair>, x: int) {
    exists k :: 0 <= k < |outs| && Has(outs[k].dst, x)
  }

  lemma SomeHasSplit(outs: seq<Pair>, x: int)
    requires outs != []
    ensures SomeHas(outs, x) <==> Has(outs[0].dst, x) || SomeHas(outs[1..], x)
  {
    if SomeHas(outs, x) {
      var k :| 0 <= k < |outs| && Has(outs[k].dst, x);
      assert k > 0 ==> Has(outs[1..][k - 1].dst, x);
    }
    if SomeHas(outs[1..], x) {
      var k :| 0 <= k < |outs| - 1 && Has(outs[1..][k].dst, x);
      assert Has(outs[k + 1].dst, x);
    }
  }

  /** A byte of a match stays in it, or is in a range kept before, or is cut off; and what is cut off does
      not stay. */
  lemma {:induction false} ByteFate(i: Pair, outs: seq<Pair>, x: int)
    requires ValidPair(i) && (forall j :: j in outs ==> ValidPair(j)) && Has(i.dst, x)
    ensures var r := TrimAll(i, outs);
            && ((r.Some? && Has(r.value.dst, x)) || SomeHas(outs, x) || CutOff(i, outs, x))
            && (CutOff(i, outs, x) ==> r.None? || !Has(r.value.dst, x))
    decreases |outs|
  {
    if outs != [] {
      var rest := TrimBy(i, outs[0]);
      SomeHasSplit(outs, x);
      if rest.Some? {
        TrimAllIsDisjoint(rest.value, outs[1..]);
        if Has(rest.value.dst, x) { ByteFate(rest.value, outs[1..], x); } else { GoneStaysGone(rest.value, outs[1..], x); }
      }
    }
  }

  lemma {:induction false} GoneStaysGone(i: Pair, outs: seq<Pair>, x: int)
    requires ValidPair(i) && (forall j :: j in outs ==> ValidPair(j)) && !Has(i.dst, x)
    ensures !CutOff(i, outs, x)
    decreases |outs|
  {
    if outs != [] {
      var rest := TrimBy(i, outs[0]);
      if rest.Some? { GoneStaysGone(rest.value, outs[1..], x); }
    }
  }

  lemma {:induction false} KeptGrows(sorted: seq<Pair>, m: nat, n: nat)
    requires m <= n <= |sorted| && forall p :: p in sorted ==> ValidPair(p)
    ensures Kept(sorted, m) <= Kept(sorted, n)
    decreases n
  {
    if m < n { KeptGrows(sorted, m, n - 1); }
  }

  lemma {:induction false} KeptComesFrom(sorted: seq<Pair>, n: nat, k: nat) returns (m: nat)
    requires n <= |sorted| && (forall p :: p in sorted ==> ValidPair(p)) && k < |Kept(sorted, n)|
    ensures m < n && TrimAll(sorted[m], Kept(sorted, m)) == Some(Kept(sorted, n)[k])
  {
    if k < |Kept(sorted, n - 1)| {
      m := KeptComesFrom(sorted, n - 1, k);
    } else {
      m := n - 1;
    }
  }

  /** Every match that has byte x has it cut off. */
  ghost predicate Loses(sorted: seq<Pair>, x: int) {
    && (forall p :: p in sorted ==> ValidPair(p))
    && forall m :: 0 <= m < |sorted| && Has(sorted[m].dst, x) ==> CutOff(sorted[m], Kept(sorted, m), x)
  }

  /** A byte of the matches is in no range kept if and only if every match that has it has it cut off. */
  lemma LostIff(sorted: seq<Pair>, x: int)
    requires forall p :: p in sorted ==> ValidPair(p)
    ensures !SomeHas(Kept(sorted, |sorted|), x) <==> Loses(sorted, x)
  {
    var n := |sorted|;
    if Loses(sorted, x) {
      LostIsNotKept(sorted, n, x);
    } else {
      var m :| 0 <= m < n && Has(sorted[m].dst, x) && !CutOff(sorted[m], Kept(sorted, m), x);
      KeptHas(sorted, n, m, x);
    }
  }

  lemma LostIsNotKept(sorted: seq<Pair>, n: nat, x: int)
    requires n == |sorted| && Loses(sorted, x)
    ensures !SomeHas(Kept(sorted, n), x)
  {
    forall k | 0 <= k < |Kept(sorted, n)| ensures !Has(Kept(sorted, n)[k].dst, x) {
      var m := KeptComesFrom(sorted, n, k);
      TrimAllIsDisjoint(sorted[m], Kept(sorted, m));
      if Has(sorted[m].dst, x) { ByteFate(sorted[m], Kept(sorted, m), x); }
    }
  }

  lemma KeptHas(sorted: seq<Pair>, n: nat, m: nat, x: int)
    requires m < n <= |sorted| && (forall p :: p in sorted ==> ValidPair(p))
    requires Has(sorted[m].dst, x) && !CutOff(sorted[m], Kept(sorted, m), x)
    ensures SomeHas(Kept(sorted, n), x)
  {
    ByteFate(sorted[m], Kept(sorted, m), x);
    TurnHas(sorted, m, x);
    KeptGrows(sorted, m + 1, n);
    PrefixHas(Kept(sorted, m + 1), Kept(sorted, n), x);
  }

  lemma TurnHas(sorted: seq<Pair>, m: nat, x: int)
    requires m < |sorted| && (forall p :: p in sorted ==> ValidPair(p))
    requires var r := TrimAll(sorted[m], Kept(sorted, m));
             SomeHas(Kept(sorted, m), x) || (r.Some? && Has(r.value.dst, x))
    ensures SomeHas(Kept(sorted, m + 1), x)
  {
    var outs, r := Kept(sorted, m), TrimAll(sorted[m], Kept(sorted, m));
    if SomeHas(outs, x) {
      PrefixHas(outs, Kept(sorted, m + 1), x);
    } else {
      assert Has(Kept(sorted, m + 1)[|outs|].dst, x);
    }
  }

  lemma PrefixHas(a: seq<Pair>, b: seq<Pair>, x: int)
    requires a <= b && SomeHas(a, x)
    ensures SomeHas(b, x)
  {
    var k :| 0 <= k < |a| && Has(a[k].dst, x);
    assert Has(b[k].dst, x);
  }

  /** Three matches, longest first, are kept in that order by the sort. */
  lemma SortedThree(a: Pair, p: Pair, i: Pair)
    requires Size(a.dst) > Size(p.dst) > Size(i.dst)
    ensures SortBySize([a, p, i]) == [a, p, i]
  {
    assert [a, p, i][1..] == [p, i] && [p, i][1..] == [i] && [i][1..] == [];
    assert SortBySize([i]) == [i];
    assert InsertBySize(p, [i]) == [p] + [i] == [p, i];
    assert InsertBySize(a, [p, i]) == [a] + [p, i] == [a, p, i];
  }

  lemma KeptOfTwo(q: seq<Pair>, n: nat, a: Pair, p: Pair)
    requires n == 2 && n <= |q| && q[n - 2] == a && q[n - 1] == p && (forall o :: o in q ==> ValidPair(o)) && TrimBy(p, a).Some?
    ensures Kept(q, n) == [a, TrimBy(p, a).value]
  {
    assert Kept(q, n - 2) == [] && Kept(q, n - 1) == [] + [a] == [a];
    assert [a][1..] == [] && TrimAll(p, [a]) == TrimBy(p, a);
    assert Kept(q, n) == [a] + [TrimBy(p, a).value];
  }

  lemma CutByTwo(a: Pair, p: Pair, i: Pair, x: int)
    requires ValidPair(a) && ValidPair(p) && ValidPair(i) && Disjoint(a.dst, i.dst)
    requires i.dst.begin <= p.dst.begin < i.dst.end && p.dst.end <= x < i.dst.end
    ensures CutOff(i, [a, p], x)
  {
    assert [a, p][1..] == [p] && TrimBy(i, a) == Some(i);
    assert CutOff(i, [p], x);
  }

  lemma LosesThree(q: seq<Pair>, a: Pair, p: Pair, i: Pair, x: int, n: nat)
    requires n == 2 && q == [a, p, i] && ValidPair(a) && ValidPair(p) && ValidPair(i)
    requires !Has(a.dst, x) && !Has(p.dst, x) && CutOff(i, Kept(q, n), x)
    ensures Loses(q, x)
  {
    forall m | 0 <= m < |q| && Has(q[m].dst, x) ensures CutOff(q[m], Kept(q, m), x) {
      assert m == n && q[m] == i;
    }
  }

  /** Bytes are lost although no match is cut by a match as it was found: the cut is by what is left of p. */
  lemma TrimLosesBytes(a: Pair, p: Pair, i: Pair, x: int, n: nat)
    requires a == Pair(Range(1000, 1100), Range(0, 100)) && p == Pair(Range(2050, 2140), Range(50, 140))
    requires i == Pair(Range(3100, 3145), Range(100, 145)) && x == 142 && n == 2
    ensures Has(i.dst, x) && Loses(SortBySize([a, p, i]), x)
    ensures !CutOff(i, [a], x) && !CutOff(i, [p], x)
  {
    assert [a][1..] == [] && [p][1..] == [];
    CutByTwo(a, TrimBy(p, a).value, i, x);
    KeptOfTwo([a, p, i], n, a, p);
    LosesThree([a, p, i], a, p, i, x, n);
    SortedThree(a, p, i);
  }

  predicate PartOf(o: Pair, matches: seq<Pair>) {
    exists i :: 0 <= i < |matches| && SubPair(o, matches[i])
  }

  predicate Meets(p: Pair, outs: seq<Pair>) {
    exists k :: 0 <= k < |outs| && !Disjoint(p.dst, outs[k].dst)
  }

  /** What the trimmer promises for its whole output. */
  ghost predicate Trimmed(matches: seq<Pair>, outs: seq<Pair>) {
    && AllDisjoint(outs)
    && (forall o {:trigger PartOf(o, matches)} :: o in outs ==> PartOf(o, matches))
    && (forall p {:trigger Meets(p, outs)} :: p in matches ==> Meets(p, outs))
    && (forall x {:trigger Loses(SortBySize(matches), x)} :: !SomeHas(outs, x) <==> Loses(SortBySize(matches), x))
    && (matches != [] ==> outs != [] && outs[0] in matches && forall p :: p in matches ==> Size(p.dst) <= Size(outs[0].dst))
  }

  lemma KeptPart(matches: seq<Pair>, sorted: seq<Pair>, n: nat, k: nat)
    requires sorted == SortBySize(matches) && n == |sorted|
    requires (forall p :: p in sorted ==> ValidPair(p)) && k < |Kept(sorted, n)|
    ensures PartOf(Kept(sorted, n)[k], matches)
  {
    KeptIsPart(sorted, n, k);
    var i :| 0 <= i < n && SubPair(Kept(sorted, n)[k], sorted[i]);
    SortKeepsMembers(matches, sorted[i]);
  }

  lemma KeptMeets(matches: seq<Pair>, sorted: seq<Pair>, n: nat, i: nat)
    requires sorted == SortBySize(matches) && n == |sorted| && i < |matches|
    requires forall p :: p in sorted ==> ValidPair(p)
    ensures Meets(matches[i], Kept(sorted, n))
  {
    SortKeepsMembers(matches, matches[i]);
    var j :| 0 <= j < n && sorted[j] == matches[i];
    EveryMatchMeetsKept(sorted, n, j);
  }

  lemma KeptLongest(matches: seq<Pair>, sorted: seq<Pair>, n: nat)
    requires sorted == SortBySize(matches) && n == |sorted| && matches != [] && n > 0
    requires forall p :: p in sorted ==> ValidPair(p)
    ensures Kept(sorted, n) != [] && Kept(sorted, n)[0] in matches
    ensures forall p :: p in matches ==> Size(p.dst) <= Size(Kept(sorted, n)[0].dst)
  {
    FirstIsKeptWhole(sorted, n);
    SortKeepsMembers(matches, sorted[0]);
    forall p | p in matches ensures Size(p.dst) <= Size(sorted[0].dst) { LongestFirst(matches, p); }
  }

  lemma KeptIsTrimmed(matches: seq<Pair>, sorted: seq<Pair>, n: nat, outs: seq<Pair>)
    requires sorted == SortBySize(matches) && n == |sorted| == |matches|
    requires (forall p :: p in sorted ==> ValidPair(p)) && outs == Kept(sorted, n)
    ensures Trimmed(matches, outs)
  {
    KeptIsDisjoint(sorted, n);
    forall o | o in outs ensures PartOf(o, matches) {
      var k :| 0 <= k < |outs| && outs[k] == o;
      KeptPart(matches, sorted, n, k);
    }
    forall p | p in matches ensures Meets(p, outs) {
      var i :| 0 <= i < |matches| && matches[i] == p;
      KeptMeets(matches, sorted, n, i);
    }
    forall x ensures !SomeHas(outs, x) <==> Loses(sorted, x) { LostIff(sorted, x); }
    if matches != [] { KeptLongest(matches, sorted, n); }
  }

  /** The conditions of the inner loop, in their order; the last two are dead. */
  method TrimStep(i: Pair, j: Pair) returns (keep: bool, r: Pair)
    requires ValidPair(i) && ValidPair(j)
    ensures TrimBy(i, j) == if keep then Some(r) else None
  {
    keep, r := true, i;
    if j.dst.end <= i.dst.begin || j.dst.begin >= i.dst.end {
      return;
    }
    if j.dst.begin <= i.dst.begin && j.dst.end >= i.dst.end {
      keep := false;
      return;
    }
    if i.dst.end > j.dst.begin && i.dst.begin <= j.dst.begin {
      var delta := i.dst.end - j.dst.begin;
      if delta == Size(i.dst) {
        keep := false;
        return;
      }
      r := ShrinkEnd(i, delta);
      return;
    }
    if i.dst.begin < j.dst.end && i.dst.end >= j.dst.end {
      var delta := j.dst.end - i.dst.begin;
      if delta == Size(i.dst) {
        assert false;
      }
      r := ShrinkBegin(i, delta);
      return;
    }
    assert false;
  }

  /** The inner loop: what is left of i after everything kept so far. */
  method TrimByAll(match': Pair, outs: seq<Pair>) returns (insert: bool, i: Pair)
    requires ValidPair(match') && forall j :: j in outs ==> ValidPair(j)
    ensures TrimAll(match', outs) == if insert then Some(i) else None
  {
    i, insert := match', true;
    var k := 0;
    while k < |outs|
      invariant 0 <= k <= |outs| && insert && ValidPair(i)
      invariant TrimAll(match', outs) == TrimAll(i, outs[k..])
    {
      ghost var rest := outs[k..];
      assert rest[0] == outs[k] && rest[1..] == outs[k + 1..];
      insert, i := TrimStep(i, outs[k]);
      if !insert {
        return;
      }
      k := k + 1;
    }
    assert outs[k..] == [];
  }

  /** The trimmer. */
  method TrimOverlaps(matches: seq<Pair>, ghost e: Range) returns (outs: seq<Pair>)
    requires forall p :: p in matches ==> ValidPair(p)
    ensures Trimmed(matches, outs)
    ensures (forall p :: p in matches ==> Fits(e, p.dst)) ==> forall o :: o in outs ==> Fits(e, o.dst)
  {
    var sorted := SortBySize(matches);
    assert |sorted| == |multiset(sorted)| == |multiset(matches)| == |matches|;
    forall p | p in sorted ensures ValidPair(p) && p in matches { SortKeepsMembers(matches, p); }
    outs := [];
    for n := 0 to |sorted|
      invariant outs == Kept(sorted, n)
    {
      var insert, i := TrimByAll(sorted[n], outs);
      if insert {
        outs := outs + [i];
      }
    }
    KeptIsTrimmed(matches, sorted, |sorted|, outs);
    if forall p :: p in matches ==> Fits(e, p.dst) { KeptFits(e, sorted, |sorted|); }
  }

  // ----- What is left of the extent

  predicate AtBlock(e: Range, p: int) {
    (p - e.begin) % BLOCK == 0
  }

  /** A match lies in the extent, begins at a block and ends at a block or with the extent. */
  predicate Fits(e: Range, r: Range) {
    NonEmpty(r) && Inside(r, e) && AtBlock(e, r.begin) && (AtBlock(e, r.end) || r.end == e.end)
  }

  /** Trimming keeps the ends at blocks. */
  lemma TrimFits(e: Range, i: Pair, j: Pair)
    requires ValidPair(i) && ValidPair(j) && Fits(e, i.dst) && Fits(e, j.dst)
    ensures TrimBy(i, j).Some? ==> Fits(e, TrimBy(i, j).value.dst)
  {
  }

  lemma {:induction false} TrimAllFits(e: Range, i: Pair, outs: seq<Pair>)
    requires ValidPair(i) && Fits(e, i.dst) && forall j :: j in outs ==> ValidPair(j) && Fits(e, j.dst)
    ensures TrimAll(i, outs).Some? ==> Fits(e, TrimAll(i, outs).value.dst)
    decreases |outs|
  {
    if outs != [] {
      TrimFits(e, i, outs[0]);
      var rest := TrimBy(i, outs[0]);
      if rest.Some? { TrimAllFits(e, rest.value, outs[1..]); }
    }
  }

  lemma {:induction false} KeptFits(e: Range, sorted: seq<Pair>, n: nat)
    requires n <= |sorted| && forall p :: p in sorted ==> ValidPair(p) && Fits(e, p.dst)
    ensures forall o :: o in Kept(sorted, n) ==> Fits(e, o.dst)
  {
    if n > 0 {
      KeptFits(e, sorted, n - 1);
      TrimAllFits(e, sorted[n - 1], Kept(sorted, n - 1));
    }
  }

  predicate InRanges(rs: seq<Range>, x: int) {
    exists k :: 0 <= k < |rs| && Has(rs[k], x)
  }

  lemma InRangesPlus(rs: seq<Range>, r: Range, x: int)
    ensures InRanges(rs + [r], x) <==> InRanges(rs, x) || Has(r, x)
  {
    var q := rs + [r];
    if InRanges(rs, x) {
      var k :| 0 <= k < |rs| && Has(rs[k], x);
      assert Has(q[k], x);
    }
    if Has(r, x) { assert Has(q[|rs|], x); }
    if InRanges(q, x) {
      var k :| 0 <= k < |q| && Has(q[k], x);
      assert k < |rs| ==> Has(rs[k], x);
    }
  }

  predicate RangesDisjoint(rs: seq<Range>) {
    forall a, b :: 0 <= a < b < |rs| ==> Disjoint(rs[a], rs[b])
  }

  function Sum(rs: seq<Range>): int {
    if rs == [] then 0 else Sum(rs[..|rs| - 1]) + Size(rs[|rs| - 1])
  }

  /** How many of the bytes [lo, hi) are in the ranges. */
  function Bytes(rs: seq<Range>, lo: int, hi: int): nat
    decreases hi - lo
  {
    if hi <= lo then 0 else Bytes(rs, lo, hi - 1) + if InRanges(rs, hi - 1) then 1 else 0
  }

  lemma {:induction false} BytesOfBlock(rs: seq<Range>, lo: int, a: int, b: int, inside: bool)
    requires lo <= a <= b && forall x :: a <= x < b ==> InRanges(rs, x) == inside
    ensures Bytes(rs, lo, b) == Bytes(rs, lo, a) + if inside then b - a else 0
    decreases b - a
  {
    if a < b { BytesOfBlock(rs, lo, a, b - 1, inside); }
  }

  lemma {:induction false} BytesPlus(rs: seq<Range>, r: Range, lo: int, hi: int)
    requires lo <= r.begin <= r.end && lo <= hi && forall k :: 0 <= k < |rs| ==> Disjoint(rs[k], r)
    ensures Bytes(rs + [r], lo, hi) == Bytes(rs, lo, hi) + if hi <= r.begin then 0 else if hi <= r.end then hi - r.begin else Size(r)
    decreases hi - lo
  {
    if lo < hi {
      BytesPlus(rs, r, lo, hi - 1);
      InRangesPlus(rs, r, hi - 1);
    }
  }

  lemma {:induction false} BytesOfNone(rs: seq<Range>, lo: int, hi: int)
    requires rs == []
    ensures Bytes(rs, lo, hi) == 0
    decreases hi - lo
  {
    if lo < hi { BytesOfNone(rs, lo, hi - 1); }
  }

  /** Disjoint ranges hold as many bytes as their sizes add up to. */
  lemma {:induction false} BytesAreSum(e: Range, rs: seq<Range>)
    requires e.begin <= e.end && RangesDisjoint(rs) && forall k :: 0 <= k < |rs| ==> NonEmpty(rs[k]) && Inside(rs[k], e)
    ensures Bytes(rs, e.begin, e.end) == Sum(rs)
    decreases |rs|
  {
    if rs == [] {
      BytesOfNone(rs, e.begin, e.end);
    } else {
      var init, r := rs[..|rs| - 1], rs[|rs| - 1];
      BytesAreSum(e, init);
      assert rs == init + [r];
      BytesPlus(init, r, e.begin, e.end);
    }
  }

  /** Every byte of the extent is in exactly one of the two lists. */
  ghost predicate Splits(rs: seq<Range>, copies: seq<Range>, lo: int, hi: int) {
    forall x :: lo <= x < hi ==> (InRanges(rs, x) <==> !InRanges(copies, x))
  }

  lemma {:induction false} SplitBytes(rs: seq<Range>, copies: seq<Range>, lo: int, hi: int)
    requires lo <= hi && Splits(rs, copies, lo, hi)
    ensures Bytes(rs, lo, hi) + Bytes(copies, lo, hi) == hi - lo
    decreases hi - lo
  {
    if lo < hi { SplitBytes(rs, copies, lo, hi - 1); }
  }

  // ----- Zero bytes

  /** The first byte of the block that x is in. */
  function BlockStart(e: Range, x: int): int {
    x - (x - e.begin) % BLOCK
  }

  /** How many bytes of the extent, before hi, are in these blocks. */
  function BlockBytesBefore(e: Range, blocks: set<int>, hi: int): nat
    decreases hi - e.begin
  {
    if hi <= e.begin then 0 else BlockBytesBefore(e, blocks, hi - 1) + if BlockStart(e, hi - 1) in blocks then 1 else 0
  }

  /** How many bytes of the extent, before hi, are in blocks that hold zeros and that no range has. */
  function ZeroBytes(e: Range, rs: seq<Range>, zero: set<int>, hi: int): nat
    decreases hi - e.begin
  {
    if hi <= e.begin then 0
    else ZeroBytes(e, rs, zero, hi - 1) + if BlockStart(e, hi - 1) in zero && !InRanges(rs, hi - 1) then 1 else 0
  }

  lemma {:induction false} OneBlockMore(e: Range, blocks: set<int>, p: int, hi: int)
    requires e.begin <= p <= hi <= p + BLOCK && AtBlock(e, p)
    ensures BlockBytesBefore(e, blocks, hi) == BlockBytesBefore(e, blocks, p) + if p in blocks then hi - p else 0
    decreases hi - p
  {
    if p < hi {
      OneBlockMore(e, blocks, p, hi - 1);
      StartOfBlock(e, p, hi - 1);
    }
  }

  lemma StartOfBlock(e: Range, p: int, x: int)
    requires e.begin <= p <= x < p + BLOCK && AtBlock(e, p)
    ensures BlockStart(e, x) == p
  {
    var q := (p - e.begin) / BLOCK;
    assert p - e.begin == q * BLOCK;
    Remainder(q, x - p);
  }

  lemma Remainder(q: int, d: int)
    requires 0 <= d < BLOCK
    ensures (q * BLOCK + d) % BLOCK == d
  {
  }

  lemma StartIsBlock(e: Range, x: nat)
    requires e.begin <= x < e.end
    ensures var p := BlockStart(e, x); e.begin <= p <= x && AtBlock(e, p) && x < NextBlock(e, p)
  {
  }

  /** A block that is not deduped has no byte in any range. */
  lemma {:induction false} ZeroIsUndeduped(e: Range, rs: seq<Range>, zero: set<int>, deduped: set<int>, hi: nat)
    requires hi <= e.end && (forall k :: 0 <= k < |rs| ==> Fits(e, rs[k])) && AreBlocks(e, rs, deduped)
    ensures BlockBytesBefore(e, zero - deduped, hi) == ZeroBytes(e, rs, zero, hi)
    decreases hi
  {
    if e.begin < hi {
      ZeroIsUndeduped(e, rs, zero, deduped, hi - 1);
      StartIsBlock(e, hi - 1);
      BlockIsWhole(e, rs, BlockStart(e, hi - 1));
    }
  }

  // ----- Building the plan

  /** The blocks whose first byte is in the ranges. */
  ghost predicate AreBlocks(e: Range, rs: seq<Range>, blocks: set<int>) {
    forall p {:trigger p in blocks} :: p in blocks <==> AtBlock(e, p) && InRanges(rs, p)
  }

  /** Mark the blocks of one range, and take them off the zero blocks. */
  method MarkRange(e: Range, rs: seq<Range>, k: nat, deduped: set<int>, zero: set<int>, ghost allZero: set<int>)
    returns (deduped': set<int>, zero': set<int>)
    requires k < |rs| && Fits(e, rs[k]) && AreBlocks(e, rs[..k], deduped) && zero == allZero - deduped
    ensures AreBlocks(e, rs[..k + 1], deduped') && zero' == allZero - deduped'
  {
    deduped', zero' := deduped, zero;
    var r, ip := rs[k], rs[k].begin as int;
    while ip < r.end
      invariant r.begin <= ip < r.end + BLOCK && AtBlock(e, ip)
      invariant forall p {:trigger p in deduped'} :: p in deduped' <==> p in deduped || (r.begin <= p < ip && p < r.end && AtBlock(e, p))
      invariant zero' == allZero - deduped'
    {
      deduped', zero' := deduped' + {ip}, zero' - {ip};
      ip := ip + BLOCK;
    }
    assert rs[..k + 1] == rs[..k] + [r];
    forall p ensures p in deduped' <==> AtBlock(e, p) && InRanges(rs[..k + 1], p) {
      InRangesPlus(rs[..k], r, p);
    }
  }

  method MarkDeduped(e: Range, rs: seq<Range>, zero: set<int>) returns (deduped: set<int>, zero': set<int>, bytes: int)
    requires forall k :: 0 <= k < |rs| ==> Fits(e, rs[k])
    ensures AreBlocks(e, rs, deduped) && zero' == zero - deduped && bytes == Sum(rs)
  {
    deduped, zero', bytes := {}, zero, 0;
    for k := 0 to |rs|
      invariant AreBlocks(e, rs[..k], deduped) && zero' == zero - deduped && bytes == Sum(rs[..k])
    {
      deduped, zero' := MarkRange(e, rs, k, deduped, zero', zero);
      bytes := bytes + Size(rs[k]);
      assert rs[..k + 1][..k] == rs[..k];
    }
    assert rs[..|rs|] == rs;
  }

  /** The ranges to copy ascend, are apart from each other, and lie before `last`. */
  ghost predicate CopiesOk(e: Range, copies: seq<Range>, last: int) {
    && (forall c :: c in copies ==> NonEmpty(c) && e.begin <= c.begin && c.end <= last)
    && (forall a, b :: 0 <= a < b < |copies| ==> copies[a].end < copies[b].begin)
  }

  predicate EndBefore(copies: seq<Range>, last: int) {
    forall c :: c in copies ==> c.end < last
  }

  /** The end of the block at p. */
  function NextBlock(e: Range, p: nat): (next: nat)
    requires e.begin <= p < e.end
    ensures p < next <= e.end && (AtBlock(e, p) ==> AtBlock(e, next) || next == e.end)
  {
    if p + BLOCK < e.end then p + BLOCK else e.end
  }

  lemma FitsWholeBlocks(e: Range, r: Range, p: nat, x: int)
    requires Fits(e, r) && e.begin <= p < e.end && AtBlock(e, p) && p <= x < NextBlock(e, p)
    ensures Has(r, x) <==> Has(r, p)
  {
  }

  /** Whether a block is deduped is decided by its first byte. */
  lemma BlockIsWhole(e: Range, rs: seq<Range>, p: nat)
    requires forall k :: 0 <= k < |rs| ==> Fits(e, rs[k])
    requires e.begin <= p < e.end && AtBlock(e, p)
    ensures forall x :: p <= x < NextBlock(e, p) ==> InRanges(rs, x) == InRanges(rs, p)
  {
    forall x | p <= x < NextBlock(e, p) ensures InRanges(rs, x) == InRanges(rs, p) {
      forall k | 0 <= k < |rs| ensures Has(rs[k], x) <==> Has(rs[k], p) { FitsWholeBlocks(e, rs[k], p, x); }
    }
  }

  lemma BlockBytes(e: Range, rs: seq<Range>, p: nat)
    requires forall k :: 0 <= k < |rs| ==> Fits(e, rs[k])
    requires e.begin <= p < e.end && AtBlock(e, p)
    ensures var next := NextBlock(e, p);
            && (forall x :: p <= x < next ==> InRanges(rs, x) == InRanges(rs, p))
            && Bytes(rs, e.begin, next) == Bytes(rs, e.begin, p) + if InRanges(rs, p) then next - p else 0
  {
    BlockIsWhole(e, rs, p);
    BytesOfBlock(rs, e.begin, p, NextBlock(e, p), InRanges(rs, p));
  }

  /** One copy more, up to a block that is deduped. */
  lemma CopyPlus(e: Range, rs: seq<Range>, copies: seq<Range>, last: nat, p: nat)
    requires e.begin <= last < p && CopiesOk(e, copies, last) && EndBefore(copies, last) && Splits(rs, copies, e.begin, last)
    requires forall x :: last <= x < p ==> !InRanges(rs, x)
    ensures CopiesOk(e, copies + [Range(last, p)], p) && Splits(rs, copies + [Range(last, p)], e.begin, p)
  {
    forall x | e.begin <= x < p ensures InRanges(rs, x) <==> !InRanges(copies + [Range(last, p)], x) {
      InRangesPlus(copies, Range(last, p), x);
    }
  }

  lemma CopiesEnd(e: Range, copies: seq<Range>, last: int, x: int)
    requires CopiesOk(e, copies, last) && last <= x
    ensures !InRanges(copies, x)
  {
  }

  /** Walk the extent block by block and collect what is neither deduped. */
  method CopyRest(e: Range, rs: seq<Range>, deduped: set<int>, zero: set<int>) returns (copies: seq<Range>, zeroed: int)
    requires e.begin <= e.end && (forall k :: 0 <= k < |rs| ==> Fits(e, rs[k])) && AreBlocks(e, rs, deduped) && zero !! deduped
    ensures CopiesOk(e, copies, e.end) && Splits(rs, copies, e.begin, e.end)
    ensures zeroed == BlockBytesBefore(e, zero, e.end) && zeroed + Bytes(rs, e.begin, e.end) <= e.end - e.begin
  {
    copies, zeroed := [], 0;
    var last, next := e.begin, e.begin;
    while next < e.end
      invariant e.begin <= last <= next <= e.end && (AtBlock(e, next) || next == e.end)
      invariant CopiesOk(e, copies, last) && EndBefore(copies, last) && Splits(rs, copies, e.begin, last)
      invariant forall x :: last <= x < next ==> !InRanges(rs, x)
      invariant zeroed == BlockBytesBefore(e, zero, next) && zeroed + Bytes(rs, e.begin, next) <= next - e.begin
    {
      var p := next;
      next := NextBlock(e, next);
      assert !(p in zero && p in deduped);
      BlockBytes(e, rs, p);
      OneBlockMore(e, zero, p, next);
      if p in zero {
        zeroed := zeroed + (next - p);
      }
      if p in deduped {
        copies, last := EndCopy(e, rs, copies, last, p, next), next;
      }
    }
    if next > last {
      CopyPlus(e, rs, copies, last, next);
      copies := copies + [Range(last, next)];
    }
  }

  /** The copy that ends where a deduped block begins, if there is one. */
  function EndCopy(e: Range, rs: seq<Range>, copies: seq<Range>, last: nat, p: nat, next: nat): (r: seq<Range>)
    requires e.begin <= last <= p < next && CopiesOk(e, copies, last) && EndBefore(copies, last) && Splits(rs, copies, e.begin, last)
    requires (forall x :: last <= x < p ==> !InRanges(rs, x)) && (forall x :: p <= x < next ==> InRanges(rs, x))
    ensures CopiesOk(e, r, next) && EndBefore(r, next) && Splits(rs, r, e.begin, next)
  {
    EndCopyOk(e, rs, copies, last, p, next);
    if last < p then copies + [Range(last, p)] else copies
  }

  lemma EndCopyOk(e: Range, rs: seq<Range>, copies: seq<Range>, last: nat, p: nat, next: nat)
    requires e.begin <= last <= p < next && CopiesOk(e, copies, last) && EndBefore(copies, last) && Splits(rs, copies, e.begin, last)
    requires (forall x :: last <= x < p ==> !InRanges(rs, x)) && (forall x :: p <= x < next ==> InRanges(rs, x))
    ensures var r := if last < p then copies + [Range(last, p)] else copies;
            CopiesOk(e, r, next) && EndBefore(r, next) && Splits(rs, r, e.begin, next)
  {
    var r := if last < p then copies + [Range(last, p)] else copies;
    if last < p { CopyPlus(e, rs, copies, last, p); }
    forall x | p <= x < next ensures InRanges(rs, x) <==> !InRanges(r, x) { CopiesEnd(e, r, p, x); }
  }

  datatype Plan = Plan(copies: seq<Range>, deduped: int, zeroed: int, copied: int, forceInsert: bool)

  /** The plan is refused: by the caller, because it copies more than half of the extent, or because it takes
      more than 100 operations. */
  predicate Refused(e: Range, rs: seq<Range>, plan: Plan, force: bool) {
    force || 2 * (plan.copied - plan.zeroed) > Size(e) || |rs| + |plan.copies| > 100
  }

  /** From the trimmed matches to the decision: the matches and the copies split the extent exactly, and
      the plan is carried out exactly if it writes at most half of it as new data, in at most 100 operations. */
  method MakePlan(e: Range, rs: seq<Range>, zeroBlocks: set<int>, force: bool) returns (plan: Plan)
    requires NonEmpty(e) && RangesDisjoint(rs) && forall k :: 0 <= k < |rs| ==> Fits(e, rs[k])
    ensures plan.deduped == Sum(rs) && plan.copied == Sum(plan.copies) && CopiesOk(e, plan.copies, e.end)
    ensures plan.zeroed == if force then 0 else ZeroBytes(e, rs, zeroBlocks, e.end)
    ensures force ==> plan.copies == []
    ensures !force && (rs != [] || plan.zeroed > 0) ==> Splits(rs, plan.copies, e.begin, e.end)
    ensures !force && rs == [] && plan.zeroed == 0 ==> plan.copies == []
    ensures plan.zeroed <= plan.copied
    ensures plan.forceInsert <==> Refused(e, rs, plan, force)
  {
    var deduped, zero, bytesDeduped := MarkDeduped(e, rs, zeroBlocks);
    var copies: seq<Range>, zeroed := [], 0;
    if !force {
      copies, zeroed := CopyRest(e, rs, deduped, zero);
      SplitSums(e, rs, copies);
      ZeroIsUndeduped(e, rs, zeroBlocks, deduped, e.end);
      if rs == [] { OneCopy(e, rs, copies); }
    }
    if zeroed == 0 && |copies| == 1 && Size(copies[0]) == Size(e) {
      WholeCopy(e, rs, copies);
      copies := [];
    }
    var copied := TotalSize(copies);
    assert zeroed <= copied;
    var forceInsert := force || copied - zeroed > bytesDeduped + zeroed || |rs| + |copies| > 100;
    plan := Plan(copies, bytesDeduped, zeroed, copied, forceInsert);
  }

  /** With no match the one copy is the whole extent. */
  lemma OneCopy(e: Range, rs: seq<Range>, copies: seq<Range>)
    requires NonEmpty(e) && rs == [] && CopiesOk(e, copies, e.end) && Splits(rs, copies, e.begin, e.end)
    ensures |copies| == 1 && Size(copies[0]) == Size(e)
  {
    assert InRanges(copies, e.begin);
    assert copies[0] in copies && copies[0].begin == e.begin;
    var end := copies[0].end;
    forall j | 0 <= j < |copies| ensures copies[j].begin < copies[j].end <= e.end { assert copies[j] in copies; }
    forall j | 0 <= j < |copies| ensures !Has(copies[j], end) {
      assert j > 0 ==> end < copies[j].begin;
    }
    assert end < e.end ==> InRanges(copies, end);
    assert copies[|copies| - 1].begin < e.end;
  }

  method TotalSize(rs: seq<Range>) returns (total: int)
    ensures total == Sum(rs)
  {
    total := 0;
    for k := 0 to |rs|
      invariant total == Sum(rs[..k])
    {
      total := total + Size(rs[k]);
      assert rs[..k + 1][..k] == rs[..k];
    }
    assert rs[..|rs|] == rs;
  }

  lemma SplitSums(e: Range, rs: seq<Range>, copies: seq<Range>)
    requires NonEmpty(e) && RangesDisjoint(rs) && forall k :: 0 <= k < |rs| ==> Fits(e, rs[k])
    requires CopiesOk(e, copies, e.end) && Splits(rs, copies, e.begin, e.end)
    ensures Sum(rs) + Sum(copies) == Size(e) && Bytes(rs, e.begin, e.end) == Sum(rs)
  {
    BytesAreSum(e, rs);
    BytesAreSum(e, copies);
    SplitBytes(rs, copies, e.begin, e.end);
  }

  /** If one copy takes the whole extent, there was nothing to dedupe. */
  lemma WholeCopy(e: Range, rs: seq<Range>, copies: seq<Range>)
    requires NonEmpty(e) && (forall k :: 0 <= k < |rs| ==> Fits(e, rs[k])) && |copies| == 1 && Size(copies[0]) == Size(e)
    requires CopiesOk(e, copies, e.end) && Splits(rs, copies, e.begin, e.end)
    ensures rs == []
  {
    if rs != [] {
      assert Has(rs[0], rs[0].begin) && InRanges(rs, rs[0].begin);
      assert copies[0] in copies && Has(copies[0], rs[0].begin);
    }
  }

  /** From the matches found to the plan: overlaps go, and the rest of the extent is planned around
      what is kept. */
  method PlanExtent(e: Range, matches: seq<Pair>, zeroBlocks: set<int>, force: bool) returns (outs: seq<Pair>, plan: Plan)
    requires NonEmpty(e) && forall p :: p in matches ==> ValidPair(p) && Fits(e, p.dst)
    ensures Trimmed(matches, outs)
    ensures !force && (matches != [] || plan.zeroed > 0) ==> Splits(Targets(outs), plan.copies, e.begin, e.end)
    ensures !force && matches == [] && plan.zeroed == 0 ==> plan.copies == []
    ensures CopiesOk(e, plan.copies, e.end) && plan.copied == Sum(plan.copies) && plan.deduped == Sum(Targets(outs))
    ensures plan.zeroed == if force then 0 else ZeroBytes(e, Targets(outs), zeroBlocks, e.end)
    ensures plan.zeroed <= plan.copied && plan.deduped + plan.copied <= Size(e)
    ensures plan.forceInsert <==> Refused(e, Targets(outs), plan, force)
  {
    outs := TrimOverlaps(matches, e);
    var rs := Targets(outs);
    forall k | 0 <= k < |rs| ensures Fits(e, rs[k]) { assert outs[k] in outs; }
    assert outs != [] ==> PartOf(outs[0], matches);
    plan := MakePlan(e, rs, zeroBlocks, force);
    if !force && Splits(rs, plan.copies, e.begin, e.end) {
      SplitSums(e, rs, plan.copies);
    } else {
      BytesAreSum(e, rs);
      BytesAtMost(rs, e.begin, e.end);
    }
  }

  function Targets(ps: seq<Pair>): (rs: seq<Range>)
    ensures |rs| == |ps| && forall k :: 0 <= k < |ps| ==> rs[k] == ps[k].dst
  {
    seq(|ps|, k requires 0 <= k < |ps| => ps[k].dst)
  }

  lemma {:induction false} BytesAtMost(rs: seq<Range>, lo: int, hi: int)
    requires lo <= hi
    ensures Bytes(rs, lo, hi) <= hi - lo
    decreases hi - lo
  {
    if lo < hi { BytesAtMost(rs, lo, hi - 1); }
  }
}
