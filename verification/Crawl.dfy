/**
 The extent-mode crawl (SizeTier::find_next_extent and BeesCrawl::restart_crawl_unlocked in
 src/bees-roots.cc) and the position it saves (include/crucible/progress.h).  A crash may happen
 between any two steps; what is saved then must not be past any work that is not done.
 */
module Crawl {

  import opened Common

  // ----- Positions and holds

  /** BeesCrawlState, without the start time, which its order ignores. */
  datatype Position = Position(minTransid: nat, maxTransid: nat, objectid: nat, offset: nat, root: nat)

  /** BeesCrawlState::operator< */
  predicate Less(a: Position, b: Position) {
    || a.minTransid < b.minTransid
    || (a.minTransid == b.minTransid && (
          || a.maxTransid < b.maxTransid
          || (a.maxTransid == b.maxTransid && (
                || a.objectid < b.objectid
                || (a.objectid == b.objectid && (
                      || a.offset < b.offset
                      || (a.offset == b.offset && a.root < b.root)))))))
  }

  /** A ProgressTracker: the holders that exist, and the last state. */
  datatype Tracker = Tracker(holds: map<nat, Position>, end: Position)

  ghost predicate IsFirst(holds: map<nat, Position>, p: Position) {
    p in holds.Values && forall h :: h in holds ==> !Less(holds[h], p)
  }

  lemma {:induction false} FirstExists(holds: map<nat, Position>)
    requires holds != map[]
    ensures exists p :: IsFirst(holds, p)
  {
    var h :| h in holds;
    var rest := holds - {h};
    if rest == map[] {
      assert holds == map[h := holds[h]];
      assert IsFirst(holds, holds[h]);
    } else {
      assert |rest| < |holds| by {
        assert rest.Keys == holds.Keys - {h};
      }
      FirstExists(rest);
      var p :| IsFirst(rest, p);
      var g :| g in rest && rest[g] == p;
      assert g in holds && holds[g] == p;
      var q := if Less(holds[h], p) then holds[h] else p;
      forall x | x in holds ensures !Less(holds[x], q) {
        if x != h { assert holds[x] == rest[x] && !Less(rest[x], p); }
      }
      assert IsFirst(holds, q);
    }
  }

  lemma FirstIsUnique(holds: map<nat, Position>, p: Position, q: Position)
    requires IsFirst(holds, p) && IsFirst(holds, q)
    ensures p == q
  {
    var g :| g in holds && holds[g] == p;
    var h :| h in holds && holds[h] == q;
  }

  /** What begin() returns: the first state in progress, or the end if there is none. */
  ghost function Begin(tr: Tracker): (b: Position)
    ensures if tr.holds == map[] then b == tr.end else IsFirst(tr.holds, b)
  {
    if tr.holds == map[] then tr.end
    else
      FirstExists(tr.holds);
      var p :| IsFirst(tr.holds, p);
      p
  }

  function Hold(tr: Tracker, h: nat, p: Position): Tracker {
    Tracker(tr.holds[h := p], if Less(tr.end, p) then p else tr.end)
  }

  function Release(tr: Tracker, h: nat): Tracker {
    Tracker(tr.holds - {h}, tr.end)
  }

  // ----- The tracker as the code keeps it

  /** m_in_progress, in its order: pairs of state and holder. */
  ghost predicate Represents(q: seq<(Position, nat)>, holds: map<nat, Position>) {
    && (forall i :: 0 <= i < |q| ==> q[i].1 in holds && holds[q[i].1] == q[i].0)
    && (forall h :: h in holds ==> exists i :: 0 <= i < |q| && q[i].1 == h)
    && (forall i, j :: 0 <= i < j < |q| ==> q[i].1 != q[j].1)
  }

  predicate InOrder(q: seq<(Position, nat)>) {
    forall i, j :: 0 <= i < j < |q| ==> !Less(q[j].0, q[i].0)
  }

  /** The head of the ordered set is what begin() promises. */
  lemma HeadIsBegin(q: seq<(Position, nat)>, tr: Tracker)
    requires Represents(q, tr.holds) && InOrder(q)
    ensures Begin(tr) == if q == [] then tr.end else q[0].0
  {
    if q == [] {
      assert tr.holds == map[];
    } else {
      assert q[0].1 in tr.holds && tr.holds[q[0].1] == q[0].0;
      forall h | h in tr.holds ensures !Less(tr.holds[h], q[0].0) {
        var i :| 0 <= i < |q| && q[i].1 == h;
        assert i == 0 || !Less(q[i].0, q[0].0);
      }
      assert IsFirst(tr.holds, q[0].0);
      FirstIsUnique(tr.holds, q[0].0, Begin(tr));
    }
  }

  lemma InsertAt(q: seq<(Position, nat)>, i: nat, x: (Position, nat), r: seq<(Position, nat)>)
    requires i <= |q| && r == q[..i] + [x] + q[i..]
    ensures |r| == |q| + 1 && r[i] == x
    ensures forall k :: 0 <= k < i ==> r[k] == q[k]
    ensures forall k :: i < k < |r| ==> r[k] == q[k - 1]
  {
  }

  lemma InsertRepresents(q: seq<(Position, nat)>, holds: map<nat, Position>, i: nat, p: Position, h: nat, r: seq<(Position, nat)>)
    requires Represents(q, holds) && i <= |q| && h !in holds && r == q[..i] + [(p, h)] + q[i..]
    ensures Represents(r, holds[h := p])
  {
    InsertAt(q, i, (p, h), r);
    InsertedAll(q, holds, i, p, h, r);
    var holds' := holds[h := p];
    forall g | g in holds' ensures exists k :: 0 <= k < |r| && r[k].1 == g {
      if g == h {
        assert r[i].1 == g;
      } else {
        var k :| 0 <= k < |q| && q[k].1 == g;
        var k' := if k < i then k else k + 1;
        assert r[k'] == q[k] && r[k'].1 == g;
      }
    }
  }

  lemma InsertedAll(q: seq<(Position, nat)>, holds: map<nat, Position>, i: nat, p: Position, h: nat, r: seq<(Position, nat)>)
    requires (forall k :: 0 <= k < |q| ==> q[k].1 in holds && holds[q[k].1] == q[k].0) && i <= |q| && h !in holds
    requires forall k, l :: 0 <= k < l < |q| ==> q[k].1 != q[l].1
    requires |r| == |q| + 1 && r[i] == (p, h)
    requires forall k :: 0 <= k < i ==> r[k] == q[k]
    requires forall k :: i < k < |r| ==> r[k] == q[k - 1]
    ensures forall k :: 0 <= k < |r| ==> r[k].1 in holds[h := p] && holds[h := p][r[k].1] == r[k].0
    ensures forall k, l :: 0 <= k < l < |r| ==> r[k].1 != r[l].1
  {
    forall k | 0 <= k < |r| && k != i ensures r[k].1 in holds && holds[r[k].1] == r[k].0 {
      assert r[k] == q[if k < i then k else k - 1];
    }
    forall k, l | 0 <= k < l < |r| ensures r[k].1 != r[l].1 {
      if k != i && l != i {
        assert r[k] == q[if k < i then k else k - 1] && r[l] == q[if l < i then l else l - 1];
      }
    }
  }

  lemma InsertInOrder(q: seq<(Position, nat)>, i: nat, p: Position, h: nat)
    requires InOrder(q) && i <= |q|
    requires forall k :: 0 <= k < i ==> !Less(p, q[k].0)
    requires i < |q| ==> Less(p, q[i].0)
    ensures InOrder(q[..i] + [(p, h)] + q[i..])
  {
    forall k | i <= k < |q| ensures !Less(q[k].0, p) {
      assert k == i || !Less(q[k].0, q[i].0);
    }
  }

  lemma RemoveAt(q: seq<(Position, nat)>, i: nat, r: seq<(Position, nat)>)
    requires i < |q| && r == q[..i] + q[i + 1..]
    ensures |r| == |q| - 1
    ensures forall k :: 0 <= k < i ==> r[k] == q[k]
    ensures forall k :: i <= k < |r| ==> r[k] == q[k + 1]
  {
  }

  lemma RemoveRepresents(q: seq<(Position, nat)>, holds: map<nat, Position>, i: nat, r: seq<(Position, nat)>)
    requires Represents(q, holds) && i < |q| && r == q[..i] + q[i + 1..]
    ensures Represents(r, holds - {q[i].1})
  {
    RemoveAt(q, i, r);
    forall k | 0 <= k < |r| ensures r[k] == q[if k < i then k else k + 1] {
    }
    var holds' := holds - {q[i].1};
    forall g | g in holds' ensures exists k :: 0 <= k < |r| && r[k].1 == g {
      var k :| 0 <= k < |q| && q[k].1 == g;
      var k' := if k < i then k else k - 1;
      assert r[k'] == q[k] && r[k'].1 == g;
    }
  }

  lemma RemoveInOrder(q: seq<(Position, nat)>, i: nat)
    requires InOrder(q) && i < |q|
    ensures InOrder(q[..i] + q[i + 1..])
  {
  }

  class ProgressTracker {
    var inProgress: seq<(Position, nat)>
    var begin: Position
    var end: Position
    ghost var holds: map<nat, Position>

    ghost predicate Valid()
      reads this
    {
      && Represents(inProgress, holds) && InOrder(inProgress)
      && begin == if inProgress == [] then end else inProgress[0].0
    }

    ghost function View(): Tracker
      reads this
    {
      Tracker(holds, end)
    }

    constructor (p: Position)
      ensures Valid() && View() == Tracker(map[], p) && begin == Begin(View())
    {
      inProgress, begin, end, holds := [], p, p, map[];
    }

    /** The holder's constructor. */
    method NewHold(h: nat, p: Position)
      requires Valid() && h !in holds
      modifies this
      ensures Valid() && View() == Hold(old(View()), h, p) && begin == Begin(View())
    {
      var i := 0;
      while i < |inProgress| && !Less(p, inProgress[i].0)
        invariant 0 <= i <= |inProgress|
        invariant forall k :: 0 <= k < i ==> !Less(p, inProgress[k].0)
      {
        i := i + 1;
      }
      InsertRepresents(inProgress, holds, i, p, h, inProgress[..i] + [(p, h)] + inProgress[i..]);
      InsertInOrder(inProgress, i, p, h);
      inProgress, holds := inProgress[..i] + [(p, h)] + inProgress[i..], holds[h := p];
      begin := inProgress[0].0;
      if Less(end, p) {
        end := p;
      }
      HeadIsBegin(inProgress, View());
    }

    /** The holder's destructor, whose assert that the entry is found cannot fail. */
    method DropHold(h: nat)
      requires Valid() && h in holds
      modifies this
      ensures Valid() && View() == Release(old(View()), h) && begin == Begin(View())
    {
      var i := 0;
      while i < |inProgress| && inProgress[i].1 != h
        invariant 0 <= i <= |inProgress|
        invariant forall k :: 0 <= k < i ==> inProgress[k].1 != h
      {
        i := i + 1;
      }
      assert i < |inProgress|;
      RemoveRepresents(inProgress, holds, i, inProgress[..i] + inProgress[i + 1..]);
      RemoveInOrder(inProgress, i);
      inProgress, holds := inProgress[..i] + inProgress[i + 1..], holds - {h};
      if inProgress == [] {
        begin := end;
      } else {
        begin := inProgress[0].0;
      }
      HeadIsBegin(inProgress, View());
    }
  }

  // ----- What is crawled

  /** An extent item: address, length, generation, and whether it is metadata. */
  datatype Extent = Extent(bytenr: nat, length: nat, gen: nat, treeBlock: bool)

  /** One size tier: the extents of the filesystem, the sizes it wants, and the fetcher's scale. */
  datatype Tier = Tier(extents: set<Extent>, minSize: nat, maxSize: nat, scale: nat)

  function End(e: Extent): nat {
    e.bytenr + e.length
  }

  predicate ValidTier(tier: Tier) {
    && tier.scale > 0
    && (forall e :: e in tier.extents ==> e.length > 0 && End(e) < TWO64)
    && (forall e, f :: e in tier.extents && f in tier.extents && e != f ==> End(e) <= f.bytenr || End(f) <= e.bytenr)
  }

  predicate InTier(tier: Tier, e: Extent) {
    e in tier.extents && !e.treeBlock && tier.minSize <= e.length <= tier.maxSize
  }

  predicate InRange(e: Extent, p: Position) {
    p.minTransid <= e.gen <= p.maxTransid
  }

  /** lower_bound may return any extent at or after `from` that does not pass over one whose generation
      is in range; extents outside the range may or may not be seen. */
  predicate MayFetch(tier: Tier, p: Position, from: nat, e: Extent) {
    && e in tier.extents && from <= e.bytenr
    && (forall f :: f in tier.extents && InRange(f, p) && from <= f.bytenr ==> e.bytenr <= f.bytenr)
  }

  predicate MayFindNone(tier: Tier, p: Position, from: nat) {
    forall f :: f in tier.extents && InRange(f, p) ==> f.bytenr < from
  }

  datatype Verdict = Discarded | TrySkip | Taken

  /** The smallest wanted size, rounded down to the fetcher's scale. */
  function RoundedMin(tier: Tier): (r: nat)
    requires tier.scale > 0
    ensures r <= tier.minSize < r + tier.scale && (r > 0 ==> r >= tier.scale)
  {
    assert tier.minSize == tier.minSize / tier.scale * tier.scale + tier.minSize % tier.scale;
    tier.minSize / tier.scale * tier.scale
  }

  /** What the loop does with the extent it found. */
  function Judge(tier: Tier, p: Position, e: Extent): Verdict
    requires tier.scale > 0
  {
    if e.treeBlock then Discarded
    else if e.length > tier.maxSize then Discarded
    else if e.length < tier.minSize then if RoundedMin(tier) <= 128 * 1024 then Discarded else TrySkip
    else if e.gen < p.minTransid || e.gen > p.maxTransid then Discarded
    else Taken
  }

  /** A point inside any wanted extent that starts at `next`, in 64-bit arithmetic. */
  function SkipPoint(tier: Tier, next: nat): (r: nat)
    requires tier.scale > 0 && RoundedMin(tier) >= tier.scale
    // Inside the smallest such extent, and within two steps of the scale from its end.
    ensures next + tier.minSize < TWO64 ==> next <= r < next + tier.minSize < r + 2 * tier.scale
  {
    (next + RoundedMin(tier) - tier.scale) % TWO64
  }

  /** rlower_bound of the skip point returned f, or nothing: where the crawl goes on. */
  function SkipTarget(next: nat, f: Option<Extent>): (r: nat)
    // The later of the two.
    ensures next <= r && (f.Some? ==> f.value.bytenr <= r) && (r == next || (f.Some? && r == f.value.bytenr))
  {
    if f.Some? && f.value.bytenr > next then f.value.bytenr else next
  }

  /** The skip never passes an extent of the tier, even if the skip point wraps around. */
  lemma SkipPassesOnlySmall(tier: Tier, e: Extent, f: Option<Extent>, g: Extent)
    requires ValidTier(tier) && RoundedMin(tier) >= tier.scale && e in tier.extents && g in tier.extents
    requires f.Some? ==> f.value in tier.extents && f.value.bytenr <= SkipPoint(tier, End(e))
    requires End(e) <= g.bytenr < SkipTarget(End(e), f)
    ensures g.length < tier.minSize
  {
    assert g != f.value;
    assert End(g) <= f.value.bytenr;
    var sum := End(e) + RoundedMin(tier) - tier.scale;
    assert SkipPoint(tier, End(e)) <= sum by { ModAtMost(sum); }
  }

  lemma SkipLandsBefore(tier: Tier, e: Extent, f: Option<Extent>, g: Extent)
    requires ValidTier(tier) && RoundedMin(tier) >= tier.scale && e in tier.extents && InTier(tier, g) && End(e) <= g.bytenr
    requires f.Some? ==> f.value in tier.extents && f.value.bytenr <= SkipPoint(tier, End(e))
    ensures SkipTarget(End(e), f) <= g.bytenr
  {
    if g.bytenr < SkipTarget(End(e), f) { SkipPassesOnlySmall(tier, e, f, g); }
  }

  lemma ModAtMost(a: nat)
    ensures a % TWO64 <= a
  {
  }

  // ----- The steps

  datatype Call =
    | NoCall
    | Ready(start: Position, current: nat, hold: nat)
    | Looking(start: Position, hold: nat, prev: nat, extent: Extent)
    | Leaving(locals: set<nat>)

  /** `tasks` are the extents queued and not finished, under the number of the hold they keep. */
  datatype State = State(tracker: Tracker, call: Call, tasks: map<nat, Extent>, finished: set<Extent>,
                         next: nat, deferred: bool)

  datatype Action =
    | StartCall
    | Fetch(e: Extent)
    | Discard
    | Skip(f: Option<Extent>)
    | QueueTask
    | Restart(transidMax: nat)
    | UpToDate
    | Stop
    | DropLocal(h: nat)
    | FinishTask(h: nat)
    | Undefer

  function At(p: Position, objectid: nat): Position {
    p.(objectid := objectid)
  }

  predicate Enabled(tier: Tier, s: State, a: Action)
    requires ValidTier(tier)
  {
    match a
    case StartCall => s.call.NoCall?
    case Fetch(e) => s.call.Ready? && !s.deferred && MayFetch(tier, s.call.start, s.call.current, e)
    case Discard => s.call.Looking? && Judge(tier, s.call.start, s.call.extent).Discarded?
    case Skip(f) => s.call.Looking? && Judge(tier, s.call.start, s.call.extent).TrySkip?
        && (f.Some? ==> f.value in tier.extents && f.value.bytenr <= SkipPoint(tier, End(s.call.extent)))
    case QueueTask => s.call.Looking? && Judge(tier, s.call.start, s.call.extent).Taken?
    case Restart(transidMax) => s.call.Ready? && !s.deferred && MayFindNone(tier, s.call.start, s.call.current)
        && s.tracker.end.maxTransid < transidMax
    case UpToDate => s.call.Ready? && !s.deferred && MayFindNone(tier, s.call.start, s.call.current)
    case Stop => s.call.Ready?
    case DropLocal(h) => s.call.Leaving? && (h in s.call.locals || s.call.locals == {})
    case FinishTask(h) => h in s.tasks
    case Undefer => true
  }

  function Step(tier: Tier, s: State, a: Action): State
    requires ValidTier(tier) && Enabled(tier, s, a)
  {
    var tr := s.tracker;
    match a
    case StartCall =>
      s.(tracker := Hold(tr, s.next, tr.end), call := Ready(tr.end, tr.end.objectid, s.next), next := s.next + 1)
    case Fetch(e) =>
      // Hold the next position; the old hold is kept until the end of the turn.
      s.(tracker := Hold(tr, s.next, At(s.call.start, End(e))),
         call := Looking(s.call.start, s.next, s.call.hold, e), next := s.next + 1)
    case Discard =>
      s.(tracker := Release(tr, s.call.prev), call := Ready(s.call.start, End(s.call.extent), s.call.hold))
    case Skip(f) =>
      s.(tracker := Release(tr, s.call.prev),
         call := Ready(s.call.start, SkipTarget(End(s.call.extent), f), s.call.hold))
    case QueueTask =>
      s.(tracker := Hold(tr, s.next, At(s.call.start, s.call.extent.bytenr)), tasks := s.tasks[s.next := s.call.extent],
         call := Leaving({s.call.hold, s.call.prev}), next := s.next + 1)
    case Restart(transidMax) =>
      s.(tracker := Tracker(tr.holds, Hold(tr, s.next, NextCycle(tr.end, transidMax)).end), call := Leaving({s.call.hold}))
    case UpToDate => s.(deferred := true, call := Leaving({s.call.hold}))
    case Stop => s.(call := Leaving({s.call.hold}))
    case DropLocal(h) =>
      if s.call.locals == {} then s.(call := NoCall)
      else s.(tracker := Release(tr, h), call := Leaving(s.call.locals - {h}))
    case FinishTask(h) =>
      s.(tracker := Release(tr, h), tasks := s.tasks - {h}, finished := s.finished + {s.tasks[h]})
    case Undefer => s.(deferred := false)
  }

  /** The first position of the cycle after the one of p. */
  function NextCycle(p: Position, transidMax: nat): Position {
    Position(p.maxTransid, transidMax, 0, 0, p.root)
  }

  /** A crawl that starts at v, with some extents done by earlier runs. */
  function Initial(v: Position, done: set<Extent>): State {
    State(Tracker(map[], v), NoCall, map[], done, 0, false)
  }

  // ----- What is still to be done

  /** A crawl at position v still has to scan e: in the rest of this cycle or in a later one. */
  predicate Wanted(tier: Tier, v: Position, e: Extent) {
    InTier(tier, e) && (v.maxTransid < e.gen || (v.minTransid <= e.gen && v.objectid <= e.bytenr))
  }

  predicate SameCycle(p: Position, q: Position) {
    p.minTransid == q.minTransid && p.maxTransid == q.maxTransid
  }

  /** The cycle of p is the first one, from the cycle of v on, that covers e's generation. */
  predicate FirstCycle(v: Position, e: Extent, p: Position) {
    e.gen <= p.maxTransid && (p.minTransid < e.gen || (p.minTransid == e.gen && SameCycle(p, v)))
  }

  ghost predicate Covers(v: Position, e: Extent, p: Position) {
    FirstCycle(v, e, p) && p.objectid <= e.bytenr
  }

  /** Two positions are in one cycle, or one cycle ends where, or before, the other begins. */
  predicate Linked(v: Position, p: Position, q: Position) {
    SameCycle(p, q) || (p.maxTransid <= q.minTransid && !SameCycle(q, v)) || (q.maxTransid <= p.minTransid && !SameCycle(p, v))
  }

  ghost predicate TrackerOk(v: Position, s: State) {
    var tr := s.tracker;
    && v.maxTransid <= tr.end.maxTransid && tr.end.minTransid <= tr.end.maxTransid
    && (forall h :: h in tr.holds ==> h < s.next && !Less(tr.end, tr.holds[h]) && tr.holds[h].minTransid <= tr.holds[h].maxTransid)
    && (forall h :: h in tr.holds ==> Linked(v, tr.holds[h], tr.end))
    && (forall g, h :: g in tr.holds && h in tr.holds ==> Linked(v, tr.holds[g], tr.holds[h]))
    && (forall h :: h in s.tasks ==> h in tr.holds)
  }

  ghost predicate CallOk(tier: Tier, s: State) {
    var tr := s.tracker;
    match s.call
    case NoCall => true
    case Ready(start, current, hold) =>
      && hold in tr.holds && hold !in s.tasks && tr.holds[hold] == tr.end && start == At(tr.end, start.objectid)
      && tr.end.objectid <= current
      && (forall e :: InTier(tier, e) ==> e.bytenr < tr.end.objectid || current <= e.bytenr)
    case Looking(start, hold, prev, e) =>
      && hold in tr.holds && prev in tr.holds && hold != prev && hold !in s.tasks && prev !in s.tasks
      && tr.holds[hold] == tr.end && start == At(tr.end, start.objectid) && e in tier.extents && tr.end.objectid == End(e)
      && SameCycle(tr.holds[prev], tr.end) && tr.holds[prev].objectid <= e.bytenr
    case Leaving(locals) => forall h :: h in locals ==> h in tr.holds && h !in s.tasks
  }

  ghost predicate TaskCovers(v: Position, s: State, e: Extent, h: nat) {
    h in s.tasks && h in s.tracker.holds && s.tasks[h] == e && Covers(v, e, s.tracker.holds[h])
  }

  ghost predicate Covered(v: Position, s: State, e: Extent) {
    var tr := s.tracker;
    || tr.end.maxTransid < e.gen
    || Covers(v, e, tr.end)
    || (exists h :: TaskCovers(v, s, e, h))
    || (s.call.Looking? && s.call.extent == e && s.call.prev in tr.holds && Covers(v, e, tr.holds[s.call.prev]))
  }

  ghost predicate AllCovered(tier: Tier, v: Position, s: State) {
    forall e :: Wanted(tier, v, e) && e !in s.finished ==> Covered(v, s, e)
  }

  /** A task's hold is at its extent, in a cycle that covers the extent's generation. */
  ghost predicate TasksOk(tier: Tier, s: State) {
    forall h :: h in s.tasks ==>
      && h in s.tracker.holds && s.tracker.holds[h].objectid == s.tasks[h].bytenr
      && InRange(s.tasks[h], s.tracker.holds[h]) && InTier(tier, s.tasks[h])
  }

  ghost predicate Inv(tier: Tier, v: Position, s: State) {
    TrackerOk(v, s) && CallOk(tier, s) && TasksOk(tier, s) && AllCovered(tier, v, s)
  }

  /** The saved position covers everything that is not finished. */
  lemma BeginIsSafe(tier: Tier, v: Position, s: State, e: Extent)
    requires Inv(tier, v, s) && Wanted(tier, v, e) && e !in s.finished
    ensures Wanted(tier, Begin(s.tracker), e)
  {
    var tr := s.tracker;
    var b := Begin(tr);
    assert Covered(v, s, e);
    if tr.holds != map[] {
      var g :| g in tr.holds && tr.holds[g] == b;
      if tr.end.maxTransid < e.gen {
      } else if Covers(v, e, tr.end) {
        EarlierIsSafe(tier, v, b, tr.end, e);
      } else if exists h :: TaskCovers(v, s, e, h) {
        var h :| TaskCovers(v, s, e, h);
        EarlierIsSafe(tier, v, b, tr.holds[h], e);
      } else {
        EarlierIsSafe(tier, v, b, tr.holds[s.call.prev], e);
      }
    }
  }

  lemma EarlierIsSafe(tier: Tier, v: Position, b: Position, p: Position, e: Extent)
    requires InTier(tier, e) && Covers(v, e, p) && !Less(p, b) && Linked(v, b, p)
    requires b.minTransid <= b.maxTransid && p.minTransid <= p.maxTransid
    ensures Wanted(tier, b, e)
  {
  }

  // ----- Every step keeps the invariant

  /** The steps that make a new hold in the current cycle. */
  predicate Holds(a: Action) {
    a.StartCall? || a.Fetch? || a.QueueTask?
  }

  lemma HoldKeepsTracker(tier: Tier, v: Position, s: State, a: Action)
    requires ValidTier(tier) && TrackerOk(v, s) && CallOk(tier, s) && Enabled(tier, s, a) && Holds(a)
    ensures TrackerOk(v, Step(tier, s, a))
  {
    if a.StartCall? {
      HoldInCycle(v, s, Step(tier, s, a), s.tracker.end);
    } else {
      HoldInCycle(v, s, Step(tier, s, a), At(s.call.start, if a.Fetch? then End(a.e) else s.call.extent.bytenr));
    }
  }

  lemma HoldInCycle(v: Position, s: State, s': State, p: Position)
    requires TrackerOk(v, s) && SameCycle(p, s.tracker.end)
    requires s'.tracker == Hold(s.tracker, s.next, p) && s'.next == s.next + 1
    requires forall h :: h in s'.tasks ==> h in s.tasks || h == s.next
    ensures TrackerOk(v, s')
  {
    assert SameCycle(s'.tracker.end, s.tracker.end);
    forall h | h in s'.tracker.holds ensures Linked(v, s'.tracker.holds[h], s'.tracker.end) {
      assert h != s.next ==> Linked(v, s.tracker.holds[h], s.tracker.end);
    }
  }

  lemma RestartKeepsTracker(tier: Tier, v: Position, s: State, a: Action)
    requires ValidTier(tier) && TrackerOk(v, s) && CallOk(tier, s) && Enabled(tier, s, a) && a.Restart?
    ensures TrackerOk(v, Step(tier, s, a)) && Step(tier, s, a).tracker.end == NextCycle(s.tracker.end, a.transidMax)
  {
  }

  lemma StepTracker(tier: Tier, v: Position, s: State, a: Action)
    requires ValidTier(tier) && TrackerOk(v, s) && CallOk(tier, s) && Enabled(tier, s, a)
    ensures TrackerOk(v, Step(tier, s, a))
  {
    if Holds(a) {
      HoldKeepsTracker(tier, v, s, a);
    } else if a.Restart? {
      RestartKeepsTracker(tier, v, s, a);
    }
  }

  lemma SkipKeepsCall(tier: Tier, s: State, a: Action)
    requires ValidTier(tier) && CallOk(tier, s) && Enabled(tier, s, a) && a.Skip?
    ensures CallOk(tier, Step(tier, s, a))
  {
    var s' := Step(tier, s, a);
    forall e | InTier(tier, e) ensures e.bytenr < s'.tracker.end.objectid || s'.call.current <= e.bytenr {
      if End(s.call.extent) <= e.bytenr { SkipLandsBefore(tier, s.call.extent, a.f, e); }
    }
  }

  lemma StepCall(tier: Tier, v: Position, s: State, a: Action)
    requires ValidTier(tier) && TrackerOk(v, s) && CallOk(tier, s) && Enabled(tier, s, a)
    ensures CallOk(tier, Step(tier, s, a))
  {
    if a.Skip? {
      SkipKeepsCall(tier, s, a);
    } else if a.Fetch? {
      FetchKeepsCall(tier, v, s, a);
    } else if a.QueueTask? || a.Restart? || a.UpToDate? || a.Stop? || a.DropLocal? {
      LeaveKeepsCall(tier, v, s, a);
    }
  }

  lemma LeaveKeepsCall(tier: Tier, v: Position, s: State, a: Action)
    requires ValidTier(tier) && TrackerOk(v, s) && CallOk(tier, s) && Enabled(tier, s, a)
    requires a.QueueTask? || a.Restart? || a.UpToDate? || a.Stop? || a.DropLocal?
    ensures CallOk(tier, Step(tier, s, a))
  {
  }

  lemma FetchKeepsCall(tier: Tier, v: Position, s: State, a: Action)
    requires ValidTier(tier) && TrackerOk(v, s) && CallOk(tier, s) && Enabled(tier, s, a) && a.Fetch?
    ensures CallOk(tier, Step(tier, s, a))
  {
  }

  /** A task's hold stays until the task is finished. */
  lemma TaskKeepsCover(tier: Tier, v: Position, s: State, a: Action, e: Extent, h: nat)
    requires ValidTier(tier) && TrackerOk(v, s) && CallOk(tier, s) && Enabled(tier, s, a)
    requires TaskCovers(v, s, e, h) && e !in Step(tier, s, a).finished
    ensures TaskCovers(v, Step(tier, s, a), e, h)
  {
  }

  /** What was ahead of the crawl is still ahead, or is the extent just found. */
  lemma FetchCovers(tier: Tier, v: Position, s: State, a: Action, e: Extent)
    requires ValidTier(tier) && TrackerOk(v, s) && CallOk(tier, s) && Enabled(tier, s, a) && a.Fetch?
    requires InTier(tier, e) && Covers(v, e, s.tracker.end)
    ensures Covered(v, Step(tier, s, a), e)
  {
    assert InRange(e, s.call.start) && s.call.current <= e.bytenr;
    assert a.e.bytenr <= e.bytenr;
    assert e == a.e || End(a.e) <= e.bytenr;
  }

  /** An extent of the tier in its first cycle is taken, and the task's hold takes over. */
  lemma LookingCovers(tier: Tier, v: Position, s: State, a: Action, e: Extent)
    requires ValidTier(tier) && TrackerOk(v, s) && CallOk(tier, s) && Enabled(tier, s, a)
    requires s.call.Looking? && s.call.extent == e && InTier(tier, e) && Covers(v, e, s.tracker.holds[s.call.prev])
    ensures Covered(v, Step(tier, s, a), e)
  {
    assert Judge(tier, s.call.start, e).Taken?;
    if a.QueueTask? { assert TaskCovers(v, Step(tier, s, a), e, s.next); }
  }

  /** A new cycle starts only when nothing of the old one is ahead. */
  lemma RestartCovers(tier: Tier, v: Position, s: State, a: Action, e: Extent)
    requires ValidTier(tier) && TrackerOk(v, s) && CallOk(tier, s) && Enabled(tier, s, a) && a.Restart?
    requires InTier(tier, e) && (s.tracker.end.maxTransid < e.gen || Covers(v, e, s.tracker.end))
    ensures Covered(v, Step(tier, s, a), e)
  {
    RestartKeepsTracker(tier, v, s, a);
    assert !InRange(e, s.call.start);
    assert s.tracker.end.maxTransid < e.gen;
  }

  lemma StepCovered(tier: Tier, v: Position, s: State, a: Action, e: Extent)
    requires ValidTier(tier) && Inv(tier, v, s) && Enabled(tier, s, a)
    requires Wanted(tier, v, e) && e !in Step(tier, s, a).finished
    ensures Covered(v, Step(tier, s, a), e)
  {
    assert Covered(v, s, e);
    if exists h :: TaskCovers(v, s, e, h) {
      var h :| TaskCovers(v, s, e, h);
      TaskKeepsCover(tier, v, s, a, e, h);
    } else if s.call.Looking? && s.call.extent == e && Covers(v, e, s.tracker.holds[s.call.prev]) {
      LookingCovers(tier, v, s, a, e);
    } else if a.Restart? {
      RestartCovers(tier, v, s, a, e);
    } else if a.Fetch? && s.tracker.end.maxTransid >= e.gen {
      FetchCovers(tier, v, s, a, e);
    } else {
      OtherCovers(tier, v, s, a, e);
    }
  }

  lemma OtherCovers(tier: Tier, v: Position, s: State, a: Action, e: Extent)
    requires ValidTier(tier) && TrackerOk(v, s) && CallOk(tier, s) && Enabled(tier, s, a) && !a.Restart?
    requires s.tracker.end.maxTransid < e.gen || (Covers(v, e, s.tracker.end) && !a.Fetch?)
    ensures Covered(v, Step(tier, s, a), e)
  {
  }

  lemma StepTasks(tier: Tier, v: Position, s: State, a: Action)
    requires ValidTier(tier) && TrackerOk(v, s) && CallOk(tier, s) && TasksOk(tier, s) && Enabled(tier, s, a)
    ensures TasksOk(tier, Step(tier, s, a))
  {
    if a.QueueTask? {
      QueueKeepsTasks(tier, v, s);
    } else {
      OtherKeepsTasks(tier, v, s, a);
    }
  }

  lemma QueueKeepsTasks(tier: Tier, v: Position, s: State)
    requires ValidTier(tier) && TrackerOk(v, s) && CallOk(tier, s) && TasksOk(tier, s) && Enabled(tier, s, QueueTask)
    ensures TasksOk(tier, Step(tier, s, QueueTask))
  {
  }

  lemma OtherKeepsTasks(tier: Tier, v: Position, s: State, a: Action)
    requires ValidTier(tier) && TrackerOk(v, s) && CallOk(tier, s) && TasksOk(tier, s) && Enabled(tier, s, a) && !a.QueueTask?
    ensures TasksOk(tier, Step(tier, s, a))
  {
    var s' := Step(tier, s, a);
    forall h | h in s'.tasks ensures h in s'.tracker.holds && s'.tracker.holds[h] == s.tracker.holds[h] && s'.tasks[h] == s.tasks[h] {
      assert h in s.tracker.holds && h < s.next;
    }
  }

  lemma StepKeepsInv(tier: Tier, v: Position, s: State, a: Action)
    requires ValidTier(tier) && Inv(tier, v, s) && Enabled(tier, s, a)
    ensures Inv(tier, v, Step(tier, s, a))
  {
    StepTracker(tier, v, s, a);
    StepCall(tier, v, s, a);
    StepTasks(tier, v, s, a);
    forall e | Wanted(tier, v, e) && e !in Step(tier, s, a).finished ensures Covered(v, Step(tier, s, a), e) {
      StepCovered(tier, v, s, a, e);
    }
  }

  // ----- Main results

  predicate ValidRun(tier: Tier, s: State, acts: seq<Action>)
    requires ValidTier(tier)
    decreases |acts|
  {
    acts == [] || (Enabled(tier, s, acts[0]) && ValidRun(tier, Step(tier, s, acts[0]), acts[1..]))
  }

  function After(tier: Tier, s: State, acts: seq<Action>): State
    requires ValidTier(tier) && ValidRun(tier, s, acts)
    decreases |acts|
  {
    if acts == [] then s else After(tier, Step(tier, s, acts[0]), acts[1..])
  }

  lemma {:induction false} RunKeepsInv(tier: Tier, v: Position, s: State, acts: seq<Action>)
    requires ValidTier(tier) && Inv(tier, v, s) && ValidRun(tier, s, acts)
    ensures Inv(tier, v, After(tier, s, acts))
    decreases |acts|
  {
    if acts != [] {
      StepKeepsInv(tier, v, s, acts[0]);
      RunKeepsInv(tier, v, Step(tier, s, acts[0]), acts[1..]);
    }
  }

  lemma InitialInv(tier: Tier, v: Position, done: set<Extent>)
    requires v.minTransid <= v.maxTransid
    ensures Inv(tier, v, Initial(v, done))
  {
  }

  /** At every point of every run, all that the crawl had to scan is finished or still to be scanned
      by a crawl that resumes at the saved position. */
  lemma CheckpointIsSafe(tier: Tier, v: Position, done: set<Extent>, acts: seq<Action>, e: Extent)
    requires ValidTier(tier) && v.minTransid <= v.maxTransid && ValidRun(tier, Initial(v, done), acts)
    requires Wanted(tier, v, e)
    ensures var s := After(tier, Initial(v, done), acts);
            e in s.finished || Wanted(tier, Begin(s.tracker), e)
  {
    InitialInv(tier, v, done);
    RunKeepsInv(tier, v, Initial(v, done), acts);
    var s := After(tier, Initial(v, done), acts);
    if e !in s.finished { BeginIsSafe(tier, v, s, e); }
  }

  /** The saved position is never past a queued extent that is not finished: it is in an earlier cycle, or
      in the cycle the extent was queued in and not after the extent. */
  lemma BeginBehindTasks(tier: Tier, v: Position, done: set<Extent>, acts: seq<Action>, h: nat)
    requires ValidTier(tier) && v.minTransid <= v.maxTransid && ValidRun(tier, Initial(v, done), acts)
    ensures var s := After(tier, Initial(v, done), acts);
            h in s.tasks ==>
              var b, e := Begin(s.tracker), s.tasks[h];
              (InRange(e, b) && b.objectid <= e.bytenr) || BeforeCycle(s, b, h)
  {
    InitialInv(tier, v, done);
    RunKeepsInv(tier, v, Initial(v, done), acts);
    var s := After(tier, Initial(v, done), acts);
    if h in s.tasks { BeginBehindTask(tier, v, s, h); }
  }

  /** b is in a cycle that ends where, or before, the cycle begins in which h was queued. */
  ghost predicate BeforeCycle(s: State, b: Position, h: nat) {
    h in s.tracker.holds && !SameCycle(b, s.tracker.holds[h]) && b.maxTransid <= s.tracker.holds[h].minTransid
  }

  lemma BeginBehindTask(tier: Tier, v: Position, s: State, h: nat)
    requires Inv(tier, v, s) && h in s.tasks
    ensures var b, e := Begin(s.tracker), s.tasks[h];
            (InRange(e, b) && b.objectid <= e.bytenr) || BeforeCycle(s, b, h)
  {
    var tr := s.tracker;
    assert h in tr.holds && tr.holds != map[] && IsFirst(tr.holds, Begin(tr));
    var g :| g in tr.holds && tr.holds[g] == Begin(tr);
    assert !Less(tr.holds[h], tr.holds[g]) && Linked(v, tr.holds[g], tr.holds[h]);
  }

  /** Any number of crashes: each run resumes where the last one saved. */
  ghost predicate ValidCrashes(tier: Tier, v: Position, done: set<Extent>, runs: seq<seq<Action>>)
    requires ValidTier(tier)
    decreases |runs|
  {
    runs == [] || (
      && ValidRun(tier, Initial(v, done), runs[0])
      && var s := After(tier, Initial(v, done), runs[0]);
      ValidCrashes(tier, Begin(s.tracker), s.finished, runs[1..]))
  }

  /** The position and the finished extents after the last run. */
  ghost function AfterCrashes(tier: Tier, v: Position, done: set<Extent>, runs: seq<seq<Action>>): (Position, set<Extent>)
    requires ValidTier(tier) && ValidCrashes(tier, v, done, runs)
    decreases |runs|
  {
    if runs == [] then (v, done)
    else
      var s := After(tier, Initial(v, done), runs[0]);
      AfterCrashes(tier, Begin(s.tracker), s.finished, runs[1..])
  }

  /** However often the daemon is killed, no extent it had to scan is lost. */
  lemma {:induction false} CrashesLoseNothing(tier: Tier, v: Position, done: set<Extent>, runs: seq<seq<Action>>, e: Extent)
    requires ValidTier(tier) && v.minTransid <= v.maxTransid && ValidCrashes(tier, v, done, runs)
    requires Wanted(tier, v, e) || e in done
    ensures var (w, finished) := AfterCrashes(tier, v, done, runs);
            e in finished || Wanted(tier, w, e)
    decreases |runs|
  {
    if runs != [] {
      var s := After(tier, Initial(v, done), runs[0]);
      InitialInv(tier, v, done);
      RunKeepsInv(tier, v, Initial(v, done), runs[0]);
      BeginInRange(v, s);
      if e in done {
        FinishedStays(tier, Initial(v, done), runs[0], e);
      } else {
        CheckpointIsSafe(tier, v, done, runs[0], e);
      }
      CrashesLoseNothing(tier, Begin(s.tracker), s.finished, runs[1..], e);
    }
  }

  lemma BeginInRange(v: Position, s: State)
    requires TrackerOk(v, s)
    ensures Begin(s.tracker).minTransid <= Begin(s.tracker).maxTransid
  {
    if s.tracker.holds != map[] {
      var h :| h in s.tracker.holds && s.tracker.holds[h] == Begin(s.tracker);
    }
  }

  lemma {:induction false} FinishedStays(tier: Tier, s: State, acts: seq<Action>, e: Extent)
    requires ValidTier(tier) && ValidRun(tier, s, acts) && e in s.finished
    ensures e in After(tier, s, acts).finished
    decreases |acts|
  {
    if acts != [] { FinishedStays(tier, Step(tier, s, acts[0]), acts[1..], e); }
  }

  /** Once the crawl is in a later cycle and no work is left, every earlier cycle is complete. */
  lemma CyclesComplete(tier: Tier, v: Position, done: set<Extent>, acts: seq<Action>, e: Extent)
    requires ValidTier(tier) && v.minTransid <= v.maxTransid && ValidRun(tier, Initial(v, done), acts)
    requires Wanted(tier, v, e)
    ensures var s := After(tier, Initial(v, done), acts);
            s.tracker.holds == map[] && !SameCycle(s.tracker.end, v) && e.gen <= s.tracker.end.minTransid ==> e in s.finished
  {
    InitialInv(tier, v, done);
    RunKeepsInv(tier, v, Initial(v, done), acts);
    var s := After(tier, Initial(v, done), acts);
    assert e in s.finished || Covered(v, s, e);
  }

  /** The loop makes progress: each fetch and each skip moves the position forward. */
  lemma PositionAdvances(tier: Tier, v: Position, s: State, a: Action)
    requires ValidTier(tier) && Inv(tier, v, s) && Enabled(tier, s, a)
    ensures a.Fetch? ==> Step(tier, s, a).tracker.end.objectid > s.call.current >= s.tracker.end.objectid
    ensures a.Discard? || a.Skip? ==> Step(tier, s, a).call.current >= s.tracker.end.objectid
  {
  }

  // ----- The loop itself

  /** From s the actions are possible and lead to r. */
  ghost predicate Leads(tier: Tier, s: State, acts: seq<Action>, r: State)
    requires ValidTier(tier)
  {
    ValidRun(tier, s, acts) && After(tier, s, acts) == r
  }

  lemma {:induction false} LeadsOn(tier: Tier, s: State, acts: seq<Action>, r: State, more: seq<Action>, u: State)
    requires ValidTier(tier) && Leads(tier, s, acts, r) && Leads(tier, r, more, u)
    ensures Leads(tier, s, acts + more, u)
    decreases |acts|
  {
    if acts == [] {
      assert acts + more == more;
    } else {
      assert (acts + more)[1..] == acts[1..] + more;
      LeadsOn(tier, Step(tier, s, acts[0]), acts[1..], r, more, u);
    }
  }

  lemma LeadsOne(tier: Tier, s: State, acts: seq<Action>, r: State, a: Action)
    requires ValidTier(tier) && Leads(tier, s, acts, r) && Enabled(tier, r, a)
    ensures Leads(tier, s, acts + [a], Step(tier, r, a))
  {
    var r' := Step(tier, r, a);
    assert [a][0] == a && [a][1..] == [];
    assert ValidRun(tier, r', []) && After(tier, r', []) == r';
    assert Leads(tier, r, [a], r');
    LeadsOn(tier, s, acts, r, [a], Step(tier, r, a));
  }

  /** The rest of the cycle, from p on, has to scan e. */
  predicate InCycle(tier: Tier, p: Position, e: Extent) {
    InTier(tier, e) && InRange(e, p) && p.objectid <= e.bytenr
  }

  ghost predicate FirstInCycle(tier: Tier, p: Position, e: Extent) {
    InCycle(tier, p, e) && forall f :: InCycle(tier, p, f) ==> e.bytenr <= f.bytenr
  }

  ghost predicate CycleIsOver(tier: Tier, p: Position) {
    forall e :: !InCycle(tier, p, e)
  }

  /** The extent e is queued, under the number h. */
  ghost predicate Queues(s: State, s': State, e: Extent, h: nat) {
    var p := s.tracker.end;
    && h !in s.tasks && s'.tasks == s.tasks[h := e]
    && s'.tracker == Tracker(s.tracker.holds[h := At(p, e.bytenr)], At(p, End(e))) && h !in s.tracker.holds
  }

  /** What a whole call does: it queues the first extent that the rest of the cycle has to scan; or if there
      is none, it ends the cycle: the crawl waits for new transids, or begins the next cycle. */
  ghost predicate CallDone(tier: Tier, transidMax: nat, s: State, s': State) {
    var p := s.tracker.end;
    && s'.finished == s.finished && s'.call.NoCall?
    && if s.deferred then s'.deferred && s'.tasks == s.tasks && s'.tracker == s.tracker
       else if CycleIsOver(tier, p) then
         && s'.tasks == s.tasks && s'.tracker.holds == s.tracker.holds
         && if p.maxTransid >= transidMax then s'.deferred && SameCycle(s'.tracker.end, p) && s'.tracker.end.objectid >= p.objectid
            else !s'.deferred && s'.tracker.end == NextCycle(p, transidMax)
       else !s'.deferred && exists e, h :: FirstInCycle(tier, p, e) && Queues(s, s', e, h)
  }

  /** No extent that the cycle has to scan was passed over on the way to current. */
  ghost predicate NonePassed(tier: Tier, start: Position, current: nat) {
    forall f :: InCycle(tier, start, f) ==> current <= f.bytenr
  }

  lemma TakenIff(tier: Tier, p: Position, e: Extent)
    requires ValidTier(tier) && e in tier.extents
    ensures Judge(tier, p, e).Taken? <==> InTier(tier, e) && InRange(e, p)
  {
  }

  lemma TakenIsFirst(tier: Tier, start: Position, current: nat, e: Extent)
    requires ValidTier(tier) && NonePassed(tier, start, current) && start.objectid <= current
    requires MayFetch(tier, start, current, e) && Judge(tier, start, e).Taken?
    ensures FirstInCycle(tier, start, e)
  {
    TakenIff(tier, start, e);
  }

  lemma PassedIsUnwanted(tier: Tier, start: Position, current: nat, e: Extent, next: nat)
    requires ValidTier(tier) && NonePassed(tier, start, current)
    requires MayFetch(tier, start, current, e) && !Judge(tier, start, e).Taken?
    requires forall g :: InTier(tier, g) && End(e) <= g.bytenr ==> next <= g.bytenr
    ensures NonePassed(tier, start, next)
  {
    TakenIff(tier, start, e);
    forall f | InCycle(tier, start, f) ensures next <= f.bytenr {
      assert e.bytenr <= f.bytenr && f != e;
      assert End(e) <= f.bytenr;
    }
  }

  lemma NothingFound(tier: Tier, start: Position, current: nat)
    requires NonePassed(tier, start, current) && MayFindNone(tier, start, current)
    ensures CycleIsOver(tier, start)
  {
    forall e ensures !InCycle(tier, start, e) {
    }
  }

  lemma LaterIsLess(p: Position, x: nat, y: nat)
    requires x < y
    ensures Less(At(p, x), At(p, y)) && !Less(At(p, y), At(p, x))
  {
  }

  lemma NextCycleIsLess(p: Position, x: nat, transidMax: nat)
    requires p.minTransid <= p.maxTransid < transidMax
    ensures Less(At(p, x), NextCycle(p, transidMax)) && NextCycle(At(p, x), transidMax) == NextCycle(p, transidMax)
  {
  }

  /** The fetchers keep what lower_bound and rlower_bound promise. */
  ghost predicate FetchersOk(tier: Tier, lower: (Position, nat) -> Option<Extent>, rlower: nat -> Option<Extent>) {
    && (forall p, from {:trigger lower(p, from)} ::
          if lower(p, from).None? then MayFindNone(tier, p, from) else MayFetch(tier, p, from, lower(p, from).value))
    && (forall at {:trigger rlower(at)} :: rlower(at).Some? ==> rlower(at).value in tier.extents && rlower(at).value.bytenr <= at)
  }

  class SizeTier {
    const crawl: ProgressTracker
    var tasks: map<nat, Extent>
    var finished: set<Extent>
    var next: nat
    var deferred: bool

    /** What holds between calls. */
    ghost predicate Valid()
      reads this, crawl
    {
      && crawl.Valid() && (forall h :: h in crawl.holds ==> h < next) && (forall h :: h in tasks ==> h in crawl.holds)
      && crawl.end.objectid < TWO64 && crawl.end.minTransid <= crawl.end.maxTransid
    }

    constructor (p: Position, done: set<Extent>)
      requires p.objectid < TWO64 && p.minTransid <= p.maxTransid
      ensures fresh(crawl) && Valid() && View(NoCall) == Initial(p, done)
    {
      crawl := new ProgressTracker(p);
      tasks, finished, next, deferred := map[], done, 0, false;
    }

    ghost function View(call: Call): State
      reads this, crawl
    {
      State(crawl.View(), call, tasks, finished, next, deferred)
    }

    /** restart_crawl_unlocked, at the end of a cycle. */
    method RestartCrawl(tier: Tier, transidMax: nat, ghost call: Call) returns (ghost a: Action)
      requires ValidTier(tier) && crawl.Valid() && next !in crawl.holds && call.Ready? && !deferred
      requires MayFindNone(tier, call.start, call.current)
      modifies this`deferred, crawl
      ensures crawl.Valid() && Enabled(tier, old(View(call)), a)
      ensures crawl.holds == old(crawl.holds) && deferred == (old(crawl.end).maxTransid >= transidMax)
      ensures crawl.end == if deferred then old(crawl.end) else Hold(old(crawl.View()), next, NextCycle(old(crawl.end), transidMax)).end
      ensures View(Leaving({call.hold})) == Step(tier, old(View(call)), a)
      ensures a == if old(crawl.end).maxTransid >= transidMax then UpToDate else Restart(transidMax)
    {
      if crawl.end.maxTransid >= transidMax {
        deferred := true;
        a := UpToDate;
      } else {
        a := Restart(transidMax);
        SetState(NextCycle(crawl.end, transidMax));
      }
    }

    /** set_state: a hold that is dropped at once, which leaves the end behind. */
    method SetState(p: Position)
      requires crawl.Valid() && next !in crawl.holds
      modifies crawl
      ensures crawl.Valid() && crawl.View() == Tracker(old(crawl.holds), Hold(old(crawl.View()), next, p).end)
    {
      ghost var holds := crawl.holds;
      crawl.NewHold(next, p);
      crawl.DropHold(next);
      assert crawl.holds == holds;
    }

    /** The last local hold goes out of scope. */
    method Leave(tier: Tier, hold: nat) returns (ghost acts: seq<Action>)
      requires ValidTier(tier) && crawl.Valid() && hold in crawl.holds
      modifies crawl
      ensures crawl.Valid() && Leads(tier, old(View(Leaving({hold}))), acts, View(NoCall))
      ensures crawl.holds == old(crawl.holds) - {hold} && crawl.end == old(crawl.end)
    {
      ghost var s := View(Leaving({hold}));
      crawl.DropHold(hold);
      assert {hold} - {hold} == {};
      ghost var s1 := View(Leaving({}));
      assert s1 == Step(tier, s, DropLocal(hold));
      LeadsOne(tier, s, [], s, DropLocal(hold));
      LeadsOne(tier, s, [] + [DropLocal(hold)], s1, DropLocal(hold));
      acts := [] + [DropLocal(hold)] + [DropLocal(hold)];
    }

    /** Both local holds go out of scope. */
    method LeaveTwo(tier: Tier, hold: nat, prev: nat) returns (ghost acts: seq<Action>)
      requires ValidTier(tier) && crawl.Valid() && hold in crawl.holds && prev in crawl.holds && hold != prev
      modifies crawl
      ensures crawl.Valid() && Leads(tier, old(View(Leaving({hold, prev}))), acts, View(NoCall))
      ensures crawl.holds == old(crawl.holds) - {hold, prev} && crawl.end == old(crawl.end)
    {
      ghost var s, held := View(Leaving({hold, prev})), crawl.holds;
      crawl.DropHold(prev);
      assert {hold, prev} - {prev} == {hold};
      ghost var s1 := View(Leaving({hold}));
      assert s1 == Step(tier, s, DropLocal(prev));
      LeadsOne(tier, s, [], s, DropLocal(prev));
      ghost var rest := Leave(tier, hold);
      assert held - {prev} - {hold} == held - {hold, prev};
      LeadsOn(tier, s, [] + [DropLocal(prev)], s1, rest, View(NoCall));
      acts := [] + [DropLocal(prev)] + rest;
    }

    /** The extent is wanted: its task keeps a hold on it, then the call returns. */
    method Queue(tier: Tier, start: Position, hold: nat, prev: nat, e: Extent) returns (ghost acts: seq<Action>)
      requires ValidTier(tier) && crawl.Valid() && next !in crawl.holds
      requires hold in crawl.holds && prev in crawl.holds && hold != prev && Judge(tier, start, e).Taken?
      modifies this, crawl
      ensures crawl.Valid() && Leads(tier, old(View(Looking(start, hold, prev, e))), acts, View(NoCall)) && deferred == old(deferred)
      ensures crawl.holds == old(crawl.holds)[old(next) := At(start, e.bytenr)] - {hold, prev}
      ensures crawl.end == Hold(old(crawl.View()), old(next), At(start, e.bytenr)).end
      ensures tasks == old(tasks)[old(next) := e] && finished == old(finished) && next == old(next) + 1
    {
      ghost var s := View(Looking(start, hold, prev, e));
      crawl.NewHold(next, At(start, e.bytenr));
      tasks := tasks[next := e];
      next := next + 1;
      ghost var s1 := View(Leaving({hold, prev}));
      assert s1 == Step(tier, s, QueueTask);
      LeadsOne(tier, s, [], s, QueueTask);
      ghost var rest := LeaveTwo(tier, hold, prev);
      LeadsOn(tier, s, [] + [QueueTask], s1, rest, View(NoCall));
      acts := [] + [QueueTask] + rest;
    }

    /** The extent is not wanted: go on after it, or after the small ones that follow. */
    method Pass(tier: Tier, rlower: nat -> Option<Extent>, start: Position, hold: nat, prev: nat, e: Extent)
      returns (current: nat, ghost a: Action)
      requires ValidTier(tier) && crawl.Valid() && prev in crawl.holds && e in tier.extents && !Judge(tier, start, e).Taken?
      requires forall at {:trigger rlower(at)} :: rlower(at).Some? ==> rlower(at).value in tier.extents && rlower(at).value.bytenr <= at
      modifies crawl
      ensures crawl.Valid() && crawl.holds == old(crawl.holds) - {prev} && crawl.end == old(crawl.end)
      ensures Enabled(tier, old(View(Looking(start, hold, prev, e))), a)
      ensures View(Ready(start, current, hold)) == Step(tier, old(View(Looking(start, hold, prev, e))), a)
      ensures End(e) <= current < TWO64
      ensures forall g :: InTier(tier, g) && End(e) <= g.bytenr ==> current <= g.bytenr
      ensures Judge(tier, start, e).TrySkip? ==>
                var f := rlower(SkipPoint(tier, End(e))); f.Some? ==> f.value.bytenr <= current
    {
      current, a := End(e), Discard;
      if Judge(tier, start, e).TrySkip? {
        var f := rlower(SkipPoint(tier, current));
        current, a := SkipTarget(current, f), Skip(f);
        forall g | InTier(tier, g) && End(e) <= g.bytenr ensures current <= g.bytenr {
          SkipLandsBefore(tier, e, f, g);
        }
      }
      crawl.DropHold(prev);
    }

    /** In a call: the holds are those from before it and one on the end, and no wanted extent was passed. */
    ghost predicate Searching(tier: Tier, start: Position, current: nat, hold: nat, held: map<nat, Position>)
      reads this, crawl
    {
      && crawl.Valid() && hold !in held && crawl.holds == held[hold := crawl.end] && (forall h :: h in crawl.holds ==> h < next)
      && crawl.end == At(start, crawl.end.objectid) && start.objectid <= crawl.end.objectid <= current < TWO64
      && NonePassed(tier, start, current)
    }

    /** The next position is held, and the hold on the current one is kept until the end of the turn. */
    ghost predicate LookingAt(start: Position, hold: nat, prev: nat, e: Extent, held: map<nat, Position>)
      reads this, crawl
    {
      && crawl.Valid() && hold !in held && prev !in held && hold != prev && (forall h :: h in crawl.holds ==> h < next)
      && prev in crawl.holds && crawl.holds == held[prev := crawl.holds[prev]][hold := crawl.end]
      && crawl.end == At(start, End(e)) && End(e) < TWO64
    }

    method HoldNext(tier: Tier, start: Position, current: nat, hold: nat, e: Extent, ghost held: map<nat, Position>) returns (hold': nat)
      requires ValidTier(tier) && Searching(tier, start, current, hold, held) && !deferred && MayFetch(tier, start, current, e)
      modifies this`next, crawl
      ensures hold' == old(next) && next == old(next) + 1 && LookingAt(start, hold', hold, e, held)
      ensures View(Looking(start, hold', hold, e)) == Step(tier, old(View(Ready(start, current, hold))), Fetch(e))
    {
      hold' := next;
      LaterIsLess(start, crawl.end.objectid, End(e));
      crawl.NewHold(hold', At(start, End(e)));
      next := next + 1;
    }

    method TakeExtent(tier: Tier, start: Position, hold: nat, prev: nat, e: Extent, ghost held: map<nat, Position>)
      returns (ghost acts: seq<Action>)
      requires ValidTier(tier) && LookingAt(start, hold, prev, e, held) && e in tier.extents && Judge(tier, start, e).Taken?
      modifies this, crawl
      ensures crawl.Valid() && deferred == old(deferred) && finished == old(finished) && next == old(next) + 1
      ensures Leads(tier, old(View(Looking(start, hold, prev, e))), acts, View(NoCall))
      ensures tasks == old(tasks)[old(next) := e] && old(next) !in held
      ensures crawl.holds == held[old(next) := At(start, e.bytenr)] && crawl.end == At(start, End(e))
    {
      LaterIsLess(start, e.bytenr, End(e));
      assert next !in crawl.holds && hold in crawl.holds && forall h :: h in held ==> h in crawl.holds;
      OneStays(held, hold, prev, next, crawl.holds[prev], crawl.end, At(start, e.bytenr));
      acts := Queue(tier, start, hold, prev, e);
    }

    method PassExtent(tier: Tier, rlower: nat -> Option<Extent>, start: Position, hold: nat, prev: nat, e: Extent, ghost held: map<nat, Position>)
      returns (current: nat, ghost a: Action)
      requires ValidTier(tier) && LookingAt(start, hold, prev, e, held) && e in tier.extents && !Judge(tier, start, e).Taken?
      requires forall at {:trigger rlower(at)} :: rlower(at).Some? ==> rlower(at).value in tier.extents && rlower(at).value.bytenr <= at
      modifies crawl
      ensures crawl.Valid() && crawl.holds == held[hold := crawl.end] && crawl.end == At(start, End(e))
      ensures Enabled(tier, old(View(Looking(start, hold, prev, e))), a)
      ensures View(Ready(start, current, hold)) == Step(tier, old(View(Looking(start, hold, prev, e))), a)
      ensures End(e) <= current < TWO64
      ensures forall g :: InTier(tier, g) && End(e) <= g.bytenr ==> current <= g.bytenr
    {
      EndStays(held, hold, prev, crawl.holds[prev], crawl.end);
      current, a := Pass(tier, rlower, start, hold, prev, e);
    }

    /** One turn of the loop, for the extent lower_bound found. */
    method Turn(tier: Tier, rlower: nat -> Option<Extent>, start: Position, current: nat, hold: nat, e: Extent, ghost held: map<nat, Position>)
      returns (queued: bool, current': nat, hold': nat, ghost acts: seq<Action>)
      requires ValidTier(tier) && Searching(tier, start, current, hold, held) && !deferred && MayFetch(tier, start, current, e)
      requires forall at {:trigger rlower(at)} :: rlower(at).Some? ==> rlower(at).value in tier.extents && rlower(at).value.bytenr <= at
      modifies this, crawl
      ensures crawl.Valid() && !deferred && finished == old(finished) && next > old(next)
      ensures Leads(tier, old(View(Ready(start, current, hold))), acts, View(if queued then NoCall else Ready(start, current', hold')))
      ensures queued ==> FirstInCycle(tier, start, e) && tasks == old(tasks)[old(next) + 1 := e] && old(next) + 1 !in held
      ensures queued ==> crawl.holds == held[old(next) + 1 := At(start, e.bytenr)] && crawl.end == At(start, End(e))
      ensures queued ==> next == old(next) + 2
      ensures !queued ==> tasks == old(tasks) && current < current' && Searching(tier, start, current', hold', held)
    {
      ghost var s := View(Ready(start, current, hold));
      queued, current' := Judge(tier, start, e).Taken?, End(e);
      hold' := HoldNext(tier, start, current, hold, e, held);
      ghost var s1 := View(Looking(start, hold', hold, e));
      LeadsOne(tier, s, [], s, Fetch(e));
      acts := [] + [Fetch(e)];
      if queued {
        TakenIsFirst(tier, start, current, e);
        ghost var more := TakeExtent(tier, start, hold', hold, e, held);
        LeadsOn(tier, s, acts, s1, more, View(NoCall));
        acts := acts + more;
      } else {
        ghost var a;
        current', a := PassExtent(tier, rlower, start, hold', hold, e, held);
        PassedIsUnwanted(tier, start, current, e, current');
        LeadsOne(tier, s, acts, s1, a);
        acts := acts + [a];
      }
    }

    /** Nothing is left in this cycle. */
    method EndCycle(tier: Tier, transidMax: nat, start: Position, current: nat, hold: nat, ghost held: map<nat, Position>)
      returns (ghost acts: seq<Action>)
      requires ValidTier(tier) && Searching(tier, start, current, hold, held) && !deferred && MayFindNone(tier, start, current)
      requires start.minTransid <= start.maxTransid
      modifies this`deferred, crawl
      ensures crawl.Valid() && Leads(tier, old(View(Ready(start, current, hold))), acts, View(NoCall))
      ensures crawl.holds == held
      ensures if start.maxTransid >= transidMax then deferred && crawl.end == old(crawl.end)
              else !deferred && crawl.end == NextCycle(start, transidMax)
    {
      ghost var s := View(Ready(start, current, hold));
      if start.maxTransid < transidMax { NextCycleIsLess(start, crawl.end.objectid, transidMax); }
      ghost var a := RestartCrawl(tier, transidMax, Ready(start, current, hold));
      LeadsOne(tier, s, [], s, a);
      ghost var s2 := View(Leaving({hold}));
      ghost var more := Leave(tier, hold);
      LastGoes(held, hold, old(crawl.end));
      LeadsOn(tier, s, [] + [a], s2, more, View(NoCall));
      acts := [] + [a] + more;
    }

    /** The position is held. */
    method HoldCurrent(tier: Tier) returns (start: Position, current: nat, hold: nat, ghost acts: seq<Action>)
      requires ValidTier(tier) && Valid()
      modifies this`next, crawl
      ensures start == crawl.end == old(crawl.end) && current == start.objectid && next == old(next) + 1
      ensures Searching(tier, start, current, hold, old(crawl.holds))
      ensures Leads(tier, old(View(NoCall)), acts, View(Ready(start, current, hold)))
    {
      ghost var s := View(NoCall);
      start, current, hold := crawl.end, crawl.end.objectid, next;
      crawl.NewHold(hold, start);
      next := next + 1;
      LeadsOne(tier, s, [], s, StartCall);
      acts := [] + [StartCall];
    }

    /** The crawl waits for new transids. */
    method GiveUp(tier: Tier, start: Position, current: nat, hold: nat, ghost held: map<nat, Position>) returns (ghost acts: seq<Action>)
      requires ValidTier(tier) && Searching(tier, start, current, hold, held)
      modifies crawl
      ensures crawl.Valid() && crawl.holds == held && crawl.end == old(crawl.end)
      ensures Leads(tier, old(View(Ready(start, current, hold))), acts, View(NoCall))
    {
      ghost var s := View(Ready(start, current, hold));
      LeadsOne(tier, s, [], s, Stop);
      ghost var s2 := View(Leaving({hold}));
      ghost var more := Leave(tier, hold);
      LastGoes(held, hold, old(crawl.end));
      LeadsOn(tier, s, [] + [Stop], s2, more, View(NoCall));
      acts := [] + [Stop] + more;
    }

    /** Between calls, and nothing but the holds of a call in progress has changed since s. */
    ghost predicate Since(s: State)
      reads this
    {
      && !deferred && !s.deferred && tasks == s.tasks && finished == s.finished && next > s.next
      && (forall h :: h in s.tracker.holds ==> h < s.next) && (forall h :: h in s.tasks ==> h in s.tracker.holds)
    }

    /** The body of the loop. */
    method Look(tier: Tier, lower: (Position, nat) -> Option<Extent>, rlower: nat -> Option<Extent>, transidMax: nat,
                start: Position, current: nat, hold: nat, ghost s: State)
      returns (done: bool, current': nat, hold': nat, ghost acts: seq<Action>)
      requires ValidTier(tier) && FetchersOk(tier, lower, rlower) && Since(s)
      requires s.tracker.end == start && start.minTransid <= start.maxTransid && Searching(tier, start, current, hold, s.tracker.holds)
      modifies this, crawl
      ensures Leads(tier, old(View(Ready(start, current, hold))), acts, View(if done then NoCall else Ready(start, current', hold')))
      ensures done ==> Valid() && CallDone(tier, transidMax, s, View(NoCall))
      ensures !done ==> current < current' && Since(s) && Searching(tier, start, current', hold', s.tracker.holds)
    {
      var bti := lower(start, current);
      if bti.None? {
        NothingFound(tier, start, current);
        acts := EndCycle(tier, transidMax, start, current, hold, s.tracker.holds);
        done, current', hold' := true, current, hold;
      } else {
        ghost var n := next + 1;
        done, current', hold', acts := Turn(tier, rlower, start, current, hold, bti.value, s.tracker.holds);
        if done { QueuesOne(tier, transidMax, s, View(NoCall), bti.value, n); }
      }
    }

    /** find_next_extent: every call is a run of the steps above. */
    method FindNextExtent(tier: Tier, lower: (Position, nat) -> Option<Extent>, rlower: nat -> Option<Extent>, transidMax: nat)
      returns (again: bool, ghost acts: seq<Action>)
      requires ValidTier(tier) && FetchersOk(tier, lower, rlower) && Valid()
      modifies this, crawl
      ensures Valid() && Leads(tier, old(View(NoCall)), acts, View(NoCall))
      ensures CallDone(tier, transidMax, old(View(NoCall)), View(NoCall))
      ensures again <==> !old(deferred)
    {
      ghost var s := View(NoCall);
      var start, current, hold;
      start, current, hold, acts := HoldCurrent(tier);
      ghost var more, s1;
      while !deferred
        invariant Searching(tier, start, current, hold, s.tracker.holds)
        invariant if deferred then s.deferred && tasks == s.tasks && finished == s.finished && next > s.next && crawl.end == start else Since(s)
        invariant Leads(tier, s, acts, View(Ready(start, current, hold)))
        decreases TWO64 - current
      {
        s1 := View(Ready(start, current, hold));
        var done;
        done, current, hold, more := Look(tier, lower, rlower, transidMax, start, current, hold, s);
        LeadsOn(tier, s, acts, s1, more, View(if done then NoCall else Ready(start, current, hold)));
        acts := acts + more;
        if done {
          return true, acts;
        }
      }
      s1 := View(Ready(start, current, hold));
      more := GiveUp(tier, start, current, hold, s.tracker.holds);
      LeadsOn(tier, s, acts, s1, more, View(NoCall));
      acts := acts + more;
      again := false;
    }
  }

  /** The local holds come and go; the new one stays. */
  lemma OneStays(held: map<nat, Position>, hold: nat, prev: nat, n: nat, q: Position, end: Position, p: Position)
    requires hold !in held && prev !in held && n !in held && n != hold && n != prev
    ensures held[prev := q][hold := end][n := p] - {hold, prev} == held[n := p]
  {
  }

  lemma LastGoes(held: map<nat, Position>, hold: nat, p: Position)
    requires hold !in held
    ensures held[hold := p] - {hold} == held
  {
  }

  lemma EndStays(held: map<nat, Position>, hold: nat, prev: nat, q: Position, end: Position)
    requires hold !in held && prev !in held && hold != prev
    ensures held[prev := q][hold := end] - {prev} == held[hold := end]
  {
  }

  lemma QueuesOne(tier: Tier, transidMax: nat, s: State, s': State, e: Extent, h: nat)
    requires !s.deferred && !s'.deferred && s'.finished == s.finished && s'.call.NoCall?
    requires FirstInCycle(tier, s.tracker.end, e) && Queues(s, s', e, h)
    ensures CallDone(tier, transidMax, s, s')
  {
  }

}
