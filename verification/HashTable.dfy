/**
 Hash table buckets: fixed-size arrays of (hash, address) cells shifted in place, which behave
 like bounded sets kept in least-recently-used order (src/bees-hash.cc, src/bees.h).
 */
module HashTable {

  datatype Cell = Cell(hash: nat, addr: nat)

  const EMPTY := Cell(0, 0)
  const CELLS_PER_BUCKET: nat := 256
  /** BeesAddress::c_toxic_mask */
  const TOXIC: nat := 512

  // ----- What each operation makes of a bucket

  /** The first position of c, or the length. */
  function Find(s: seq<Cell>, c: Cell): (i: nat)
    ensures i <= |s|
    ensures forall j :: 0 <= j < i ==> s[j] != c
    ensures i < |s| <==> c in s
    ensures i < |s| ==> s[i] == c
  {
    if s == [] || s[0] == c then 0 else 1 + Find(s[1..], c)
  }

  /** Move the cell at i (or drop the last one when i is the length) and put c at pos. */
  function Shift(s: seq<Cell>, pos: nat, i: nat, c: Cell): (r: seq<Cell>)
    requires pos <= i <= |s| && pos < |s|
    ensures |r| == |s|
  {
    if i < |s| then s[..pos] + [c] + s[pos..i] + s[i + 1..] else s[..pos] + [c] + s[pos..i - 1]
  }

  lemma ShiftAt(s: seq<Cell>, pos: nat, i: nat, c: Cell, k: nat)
    requires pos <= i <= |s| && pos < |s| && k < |s|
    ensures Shift(s, pos, i, c)[k] == if k == pos then c else if pos < k <= i then s[k - 1] else s[k]
  {
  }

  lemma ShiftIs(s: seq<Cell>, t: seq<Cell>, pos: nat, i: nat, c: Cell)
    requires |t| == |s| && pos <= i <= |s| && pos < |s| && t[pos] == c
    requires forall k :: pos < k <= i && k < |s| ==> t[k] == s[k - 1]
    requires forall k :: 0 <= k < |s| && !(pos <= k <= i) ==> t[k] == s[k]
    ensures t == Shift(s, pos, i, c)
  {
    var r := Shift(s, pos, i, c);
    forall k | 0 <= k < |s| ensures t[k] == r[k] {
      ShiftAt(s, pos, i, c, k);
      if pos < k <= i { assert t[k] == s[k - 1]; }
    }
  }

  function PushFront(s: seq<Cell>, c: Cell): seq<Cell>
    requires s != []
  {
    Shift(s, 0, if c in s then Find(s, c) else Find(s, EMPTY), c)
  }

  /** The first empty cell at or after pos, else the last one before it. */
  function EmptyNear(s: seq<Cell>, pos: nat): (i: nat)
    requires pos < |s| && EMPTY in s
    ensures i < |s| && s[i] == EMPTY
  {
    if EMPTY in s[pos..] then pos + Find(s[pos..], EMPTY) else LastEmpty(s[..pos])
  }

  function LastEmpty(s: seq<Cell>): (i: nat)
    requires EMPTY in s
    ensures i < |s| && s[i] == EMPTY
  {
    if s[|s| - 1] == EMPTY then |s| - 1 else LastEmpty(s[..|s| - 1])
  }

  function PushRandom(s: seq<Cell>, c: Cell, pos: nat): seq<Cell>
    requires pos < |s|
  {
    if c in s then if Find(s, c) > pos then Shift(s, pos, Find(s, c), c) else s
    else if EMPTY in s then s[EmptyNear(s, pos) := c]
    else Shift(s, pos, |s|, c)
  }

  function Erase(s: seq<Cell>, c: Cell): seq<Cell> {
    if c in s then s[Find(s, c) := EMPTY] else s
  }

  /** The cells a lookup of `hash` returns, in bucket order. */
  function Matches(s: seq<Cell>, hash: nat): seq<Cell> {
    if s == [] then []
    else (if s[0].hash == hash && s[0].addr >= 0x1000 then [s[0]] else []) + Matches(s[1..], hash)
  }

  lemma MatchesStep(s: seq<Cell>, hash: nat, before: seq<Cell>)
    requires s != []
    ensures before + Matches(s, hash) ==
        (if s[0].hash == hash && s[0].addr >= 0x1000 then before + [s[0]] else before) + Matches(s[1..], hash)
  {
  }

  // ----- What that means

  /** No pair is stored twice; empty cells do not count. */
  ghost predicate NoDup(s: seq<Cell>) {
    forall i, j :: 0 <= i < j < |s| && s[i] == s[j] ==> s[i] == EMPTY
  }

  /** The stored pairs other than c, in bucket order. */
  ghost function Others(s: seq<Cell>, c: Cell): seq<Cell> {
    if s == [] then [] else (if s[0] == c || s[0] == EMPTY then [] else [s[0]]) + Others(s[1..], c)
  }

  lemma {:induction false} OthersConcat(a: seq<Cell>, b: seq<Cell>, c: Cell)
    ensures Others(a + b, c) == Others(a, c) + Others(b, c)
  {
    if a == [] {
      assert a + b == b;
    } else {
      var head := if a[0] == c || a[0] == EMPTY then [] else [a[0]];
      OthersConcat(a[1..], b, c);
      assert (a + b)[0] == a[0] && (a + b)[1..] == a[1..] + b;
      assert Others(a + b, c) == head + (Others(a[1..], c) + Others(b, c));
      assert (head + Others(a[1..], c)) + Others(b, c) == head + (Others(a[1..], c) + Others(b, c));
    }
  }

  lemma OthersSplit(s: seq<Cell>, i: nat, c: Cell)
    requires i < |s|
    ensures Others(s, c) == Others(s[..i], c) + (if s[i] == c || s[i] == EMPTY then [] else [s[i]]) + Others(s[i + 1..], c)
  {
    assert s == s[..i] + [s[i]] + s[i + 1..];
    OthersConcat(s[..i] + [s[i]], s[i + 1..], c);
    OthersConcat(s[..i], [s[i]], c);
  }

  /** Shifting c into place disturbs no other pair, except that the last one may fall off the end. */
  lemma ShiftKeepsOthers(s: seq<Cell>, pos: nat, i: nat, c: Cell)
    requires pos <= i <= |s| && pos < |s|
    requires i < |s| ==> s[i] == c || s[i] == EMPTY
    ensures Shift(s, pos, i, c)[pos] == c
    ensures Others(Shift(s, pos, i, c), c) == Others(if i < |s| then s else s[..|s| - 1], c)
  {
    if i < |s| {
      var a, b, t := s[..pos], s[pos..i], s[i + 1..];
      assert s == a + b + [s[i]] + t;
      OthersMove(a, b, t, c, s[i]);
    } else {
      var a, b := s[..pos], s[pos..i - 1];
      assert s[..|s| - 1] == a + b;
      OthersSkip(a, b, c, c);
    }
  }

  lemma OthersSkip(a: seq<Cell>, b: seq<Cell>, c: Cell, y: Cell)
    requires y == c || y == EMPTY
    ensures Others(a + [y] + b, c) == Others(a, c) + Others(b, c) == Others(a + b, c)
  {
    OthersConcat(a + [y], b, c);
    OthersConcat(a, [y], c);
    OthersConcat(a, b, c);
    assert Others([y], c) == [];
  }

  lemma OthersMove(a: seq<Cell>, b: seq<Cell>, t: seq<Cell>, c: Cell, y: Cell)
    requires y == c || y == EMPTY
    ensures Others(a + [c] + b + t, c) == Others(a + b + [y] + t, c)
  {
    Associative(a + [c], b, t);
    OthersSkip(a, b + t, c, c);
    Associative(a, b, t);
    OthersSkip(a + b, t, c, y);
  }

  lemma Associative(a: seq<Cell>, b: seq<Cell>, t: seq<Cell>)
    ensures a + b + t == a + (b + t)
  {
  }

  datatype Op = Lookup(hash: nat) | Remove(c: Cell) | Front(c: Cell) | Random(c: Cell, pos: nat)

  function Apply(s: seq<Cell>, op: Op): seq<Cell>
    requires s != [] && (op.Random? ==> op.pos < |s|)
  {
    match op
    case Lookup(_) => s
    case Remove(c) => Erase(s, c)
    case Front(c) => PushFront(s, c)
    case Random(c, pos) => PushRandom(s, c, pos)
  }

  /** A push of c evicts something exactly when c is absent and no cell is empty. */
  predicate Evicts(s: seq<Cell>, op: Op) {
    (op.Front? || op.Random?) && op.c !in s && EMPTY !in s
  }

  /**
   Any push stores its pair, keeps the order of all the others, and drops only the last cell and
   only when it had to.
   */
  lemma PushKeepsOthers(s: seq<Cell>, op: Op)
    requires s != [] && (op.Front? || op.Random?) && (op.Random? ==> op.pos < |s|)
    ensures |Apply(s, op)| == |s| && op.c in Apply(s, op)
    ensures op.Front? ==> Apply(s, op)[0] == op.c
    ensures Others(Apply(s, op), op.c) == Others(if Evicts(s, op) then s[..|s| - 1] else s, op.c)
  {
    var c := op.c;
    match op
    case Front(_) =>
      ShiftKeepsOthers(s, 0, if c in s then Find(s, c) else Find(s, EMPTY), c);
    case Random(_, pos) =>
      if c in s {
        if Find(s, c) > pos { ShiftKeepsOthers(s, pos, Find(s, c), c); }
      } else if EMPTY in s {
        var i := EmptyNear(s, pos);
        OthersSplit(s, i, c);
        OthersSplit(s[i := c], i, c);
        assert s[i := c][..i] == s[..i] && s[i := c][i + 1..] == s[i + 1..];
        assert s[i := c][i] == c;
      } else {
        ShiftKeepsOthers(s, pos, |s|, c);
      }
  }

  /** Erasing leaves a hole where the pair was and nothing else changes. */
  lemma EraseKeepsOthers(s: seq<Cell>, c: Cell)
    ensures |Erase(s, c)| == |s| && Others(Erase(s, c), c) == Others(s, c)
    ensures NoDup(s) && c != EMPTY ==> c !in Erase(s, c)
  {
    if c in s {
      var i := Find(s, c);
      OthersSplit(s, i, c);
      OthersSplit(s[i := EMPTY], i, c);
      assert s[i := EMPTY][..i] == s[..i] && s[i := EMPTY][i + 1..] == s[i + 1..];
    }
  }

  lemma {:induction false} OthersMembers(s: seq<Cell>, c: Cell, x: Cell)
    ensures x in Others(s, c) <==> x in s && x != c && x != EMPTY
  {
    if s != [] { OthersMembers(s[1..], c, x); }
  }

  ghost function Contents(s: seq<Cell>): set<Cell> {
    set c | c in s && c != EMPTY
  }

  /** The bucket refines a set of pairs. */
  lemma ApplyRefinesSet(s: seq<Cell>, op: Op)
    requires s != [] && NoDup(s) && (op.Random? ==> op.pos < |s|) && (op.Lookup? || op.c != EMPTY)
    ensures Contents(Apply(s, op)) ==
        match op
        case Lookup(_) => Contents(s)
        case Remove(c) => Contents(s) - {c}
        case _ => Contents(if Evicts(s, op) then s[..|s| - 1] else s) + {op.c}
  {
    if op.Lookup? { return; }
    if op.Remove? { EraseKeepsOthers(s, op.c); } else { PushKeepsOthers(s, op); }
    var rest := if Evicts(s, op) then s[..|s| - 1] else s;
    forall x | x != op.c ensures x in Contents(Apply(s, op)) <==> x in Contents(rest) {
      OthersMembers(Apply(s, op), op.c, x);
      OthersMembers(rest, op.c, x);
    }
  }

  // ----- No pair is ever stored twice

  lemma ShiftKeepsNoDup(s: seq<Cell>, pos: nat, i: nat, c: Cell)
    requires pos <= i <= |s| && pos < |s| && NoDup(s)
    requires if i < |s| && s[i] == c then true else c !in s && (i < |s| ==> s[i] == EMPTY)
    ensures NoDup(Shift(s, pos, i, c))
  {
    var r := Shift(s, pos, i, c);
    forall j, k | 0 <= j < k < |r| && r[j] == r[k] ensures r[j] == EMPTY {
      ShiftAt(s, pos, i, c, j);
      ShiftAt(s, pos, i, c, k);
    }
  }

  lemma ApplyKeepsNoDup(s: seq<Cell>, op: Op)
    requires s != [] && NoDup(s) && (op.Random? ==> op.pos < |s|)
    ensures |Apply(s, op)| == |s| && NoDup(Apply(s, op))
  {
    match op
    case Lookup(_) =>
    case Remove(c) =>
    case Front(c) =>
      ShiftKeepsNoDup(s, 0, if c in s then Find(s, c) else Find(s, EMPTY), c);
    case Random(c, pos) =>
      if c in s {
        if Find(s, c) > pos { ShiftKeepsNoDup(s, pos, Find(s, c), c); }
      } else if EMPTY !in s {
        ShiftKeepsNoDup(s, pos, |s|, c);
      }
  }

  ghost predicate ValidOps(ops: seq<Op>, n: nat) {
    forall i :: 0 <= i < |ops| && ops[i].Random? ==> ops[i].pos < n
  }

  function Run(s: seq<Cell>, ops: seq<Op>): (r: seq<Cell>)
    requires s != [] && ValidOps(ops, |s|)
    ensures |r| == |s|
  {
    if ops == [] then s
    else
      var last := ops[|ops| - 1];
      Apply(Run(s, ops[..|ops| - 1]), last)
  }

  lemma {:induction false} RunKeepsNoDup(s: seq<Cell>, ops: seq<Op>)
    requires s != [] && NoDup(s) && ValidOps(ops, |s|)
    ensures NoDup(Run(s, ops))
  {
    if ops != [] {
      RunKeepsNoDup(s, ops[..|ops| - 1]);
      ApplyKeepsNoDup(Run(s, ops[..|ops| - 1]), ops[|ops| - 1]);
    }
  }

  // ----- A pair moves back by at most one cell per operation

  ghost predicate Within(s: seq<Cell>, c: Cell, d: nat) {
    exists i :: 0 <= i <= d && i < |s| && s[i] == c
  }

  lemma ShiftMovesOneBack(s: seq<Cell>, pos: nat, j: nat, x: Cell, i: nat)
    requires pos <= j <= |s| && pos < |s| && i + 1 < |s| && i != j
    ensures var i' := if pos <= i < j then i + 1 else i;
            Shift(s, pos, j, x)[i'] == s[i] && Within(Shift(s, pos, j, x), s[i], i')
  {
    var i' := if pos <= i < j then i + 1 else i;
    assert Shift(s, pos, j, x)[i'] == s[i];
  }

  lemma ApplyMovesOneBack(s: seq<Cell>, op: Op, c: Cell, d: nat)
    requires s != [] && (op.Random? ==> op.pos < |s|)
    requires c != EMPTY && d + 1 < |s| && Within(s, c, d) && op != Remove(c)
    ensures Within(Apply(s, op), c, d + 1)
  {
    var i :| 0 <= i <= d && i < |s| && s[i] == c;
    if op.Lookup? || op.Remove? {
      assert Apply(s, op)[i] == c;
    } else {
      var x, pos := op.c, if op.Front? then 0 else op.pos;
      var j := if x in s then Find(s, x) else if op.Front? then Find(s, EMPTY) else |s|;
      if op.Random? && x in s && j <= pos {
        assert Apply(s, op)[i] == c;
      } else if op.Random? && x !in s && EMPTY in s {
        assert Apply(s, op)[i] == c;
      } else if x == c && x in s {
        assert Shift(s, pos, j, c)[pos] == c && pos <= j <= i;
      } else {
        ShiftMovesOneBack(s, pos, j, x, i);
      }
    }
  }

  /** A pair just pushed to the front survives any length - 1 operations that do not erase it. */
  lemma {:induction false} SurvivesAfterFront(s: seq<Cell>, c: Cell, ops: seq<Op>)
    requires s != [] && c != EMPTY
    requires ValidOps(ops, |s|) && |ops| < |s| && Remove(c) !in ops
    ensures Within(Run(PushFront(s, c), ops), c, |ops|)
  {
    if ops == [] {
      assert PushFront(s, c)[0] == c;
    } else {
      var before := ops[..|ops| - 1];
      SurvivesAfterFront(s, c, before);
      ApplyMovesOneBack(Run(PushFront(s, c), before), ops[|ops| - 1], c, |before|);
    }
  }

  // ----- Toxic bits are cleared when an extent is loaded

  predicate IsToxic(c: Cell) {
    c.addr / TOXIC % 2 == 1
  }

  function Cleared(c: Cell): Cell {
    if IsToxic(c) then c.(addr := c.addr - TOXIC) else c
  }

  /** A cleared cell is dropped when the same pair was already there without the bit. */
  function ClearCell(seen: set<Cell>, c: Cell): Cell {
    if IsToxic(c) && Cleared(c) in seen then EMPTY else Cleared(c)
  }

  function ClearToxic(s: seq<Cell>, seen: set<Cell>): (r: seq<Cell>)
    ensures |r| == |s|
    ensures forall i :: 0 <= i < |s| ==> r[i] == ClearCell(seen, s[i])
  {
    if s == [] then [] else [ClearCell(seen, s[0])] + ClearToxic(s[1..], seen)
  }

  lemma ClearedIsNotToxic(c: Cell)
    ensures !IsToxic(Cleared(c)) && (IsToxic(c) <==> Cleared(c) != c)
  {
  }

  lemma ClearedCollide(c: Cell, d: Cell)
    requires c != d && Cleared(c) == Cleared(d)
    ensures (IsToxic(c) && Cleared(c) == d) || (IsToxic(d) && Cleared(d) == c)
  {
  }

  /** Two cells that load as one are cleared. */
  lemma LoadedOnce(seen: set<Cell>, c: Cell, d: Cell)
    requires c in seen && d in seen && ClearCell(seen, c) == ClearCell(seen, d) && (c == d ==> c == EMPTY)
    ensures ClearCell(seen, c) == EMPTY
  {
    ClearedIsNotToxic(c);
    if c != d && Cleared(c) == Cleared(d) { ClearedCollide(c, d); }
  }

  lemma ClearToxicNoDup(s: seq<Cell>, seen: set<Cell>)
    requires NoDup(s) && forall c :: c in s <==> c in seen
    ensures NoDup(ClearToxic(s, seen))
  {
    var r := ClearToxic(s, seen);
    forall i, j | 0 <= i < j < |r| && r[i] == r[j] ensures r[i] == EMPTY {
      assert s[i] in seen && s[j] in seen;
      LoadedOnce(seen, s[i], s[j]);
    }
  }

  /** Loading keeps every pair up to its toxic bit. */
  lemma ClearToxicKeepsPair(s: seq<Cell>, seen: set<Cell>, i: nat)
    requires i < |s| && (forall c :: c in s <==> c in seen) && Cleared(s[i]) != EMPTY
    ensures Cleared(s[i]) in ClearToxic(s, seen)
  {
    var r, c := ClearToxic(s, seen), Cleared(s[i]);
    ClearedIsNotToxic(s[i]);
    if IsToxic(s[i]) && c in seen {
      var j :| 0 <= j < |s| && s[j] == c;
      ClearedIsNotToxic(c);
      assert r[j] == c;
    } else {
      assert r[i] == c;
    }
  }

  /** Loading invents no pair and leaves none toxic. */
  lemma ClearToxicAddsNothing(s: seq<Cell>, seen: set<Cell>, i: nat)
    requires i < |s|
    ensures var c := ClearToxic(s, seen)[i]; !IsToxic(c) && (c == EMPTY || c == Cleared(s[i]))
  {
    ClearedIsNotToxic(s[i]);
  }

  // ----- A bucket over its whole life is a bounded set

  /** A lookup returns exactly the stored pairs with its hash and a usable address, each once. */
  lemma {:induction false} MatchesAre(s: seq<Cell>, hash: nat, c: Cell)
    ensures c in Matches(s, hash) <==> c in s && c.hash == hash && c.addr >= 0x1000
  {
    if s != [] { MatchesAre(s[1..], hash, c); }
  }

  lemma {:induction false} MatchesOnce(s: seq<Cell>, hash: nat)
    requires NoDup(s)
    ensures forall i, j :: 0 <= i < j < |Matches(s, hash)| ==> Matches(s, hash)[i] != Matches(s, hash)[j]
  {
    if s != [] {
      var rest := Matches(s[1..], hash);
      MatchesOnce(s[1..], hash);
      forall i | 0 <= i < |rest| && s[0].hash == hash && s[0].addr >= 0x1000 ensures rest[i] != s[0] {
        MatchesAre(s[1..], hash, rest[i]);
      }
    }
  }

  /** What a set of pairs answers to a lookup. */
  ghost function Answer(contents: set<Cell>, hash: nat): set<Cell> {
    set c | c in contents && c.hash == hash && c.addr >= 0x1000
  }

  lemma LookupAnswers(s: seq<Cell>, hash: nat)
    ensures (set c | c in Matches(s, hash)) == Answer(Contents(s), hash)
  {
    forall c ensures c in Matches(s, hash) <==> c in Answer(Contents(s), hash) { MatchesAre(s, hash, c); }
  }

  /** What happens to a bucket: an operation, or its extent is loaded and toxic bits are cleared. */
  datatype Event = Operate(op: Op) | Load

  predicate ValidEvent(e: Event, n: nat) {
    e.Operate? ==> (e.op.Random? ==> e.op.pos < n) && (e.op.Lookup? || e.op.c != EMPTY)
  }

  ghost function ApplyEvent(s: seq<Cell>, e: Event): (r: seq<Cell>)
    requires s != [] && ValidEvent(e, |s|)
    ensures |r| == |s|
  {
    match e
    case Operate(op) => Apply(s, op)
    case Load => ClearToxic(s, set c | c in s)
  }

  /** What happens to a set of at most n pairs: a push may drop one pair, and only to make room for a new one. */
  ghost predicate SetStep(contents: set<Cell>, n: nat, e: Event, contents': set<Cell>) {
    match e
    case Load => contents' == (set c | c in contents :: Cleared(c)) - {EMPTY}
    case Operate(op) =>
      match op
      case Lookup(_) => contents' == contents
      case Remove(c) => contents' == contents - {c}
      case _ =>
        || contents' == contents + {op.c}
        || (op.c !in contents && |contents| == n && exists x :: x in contents && contents' == contents - {x} + {op.c})
  }

  lemma {:induction false} FullSize(s: seq<Cell>)
    requires NoDup(s) && EMPTY !in s
    ensures |Contents(s)| == |s|
  {
    if s != [] {
      FullSize(s[1..]);
      assert Contents(s) == Contents(s[1..]) + {s[0]};
      assert s[0] !in Contents(s[1..]);
    }
  }

  lemma EvictsLast(s: seq<Cell>, op: Op)
    requires s != [] && NoDup(s) && (op.Front? || op.Random?) && Evicts(s, op)
    ensures op.c !in Contents(s) && |Contents(s)| == |s| && s[|s| - 1] in Contents(s)
    ensures Contents(s[..|s| - 1]) == Contents(s) - {s[|s| - 1]}
  {
    FullSize(s);
    assert s == s[..|s| - 1] + [s[|s| - 1]];
  }

  lemma LoadRefinesSet(s: seq<Cell>, seen: set<Cell>)
    requires forall c :: c in s <==> c in seen
    ensures Contents(ClearToxic(s, seen)) == (set c | c in Contents(s) :: Cleared(c)) - {EMPTY}
  {
    var r, image := ClearToxic(s, seen), (set c | c in Contents(s) :: Cleared(c)) - {EMPTY};
    forall x | x in Contents(r) ensures x in image {
      var i :| 0 <= i < |r| && r[i] == x;
      ClearToxicAddsNothing(s, seen, i);
      assert s[i] in Contents(s);
    }
    forall x | x in image ensures x in Contents(r) {
      var c :| c in Contents(s) && Cleared(c) == x;
      var i :| 0 <= i < |s| && s[i] == c;
      ClearToxicKeepsPair(s, seen, i);
    }
  }

  lemma EventRefinesSet(s: seq<Cell>, e: Event)
    requires s != [] && NoDup(s) && ValidEvent(e, |s|)
    ensures NoDup(ApplyEvent(s, e)) && SetStep(Contents(s), |s|, e, Contents(ApplyEvent(s, e)))
  {
    match e
    case Load =>
      ClearToxicNoDup(s, set c | c in s);
      LoadRefinesSet(s, set c | c in s);
    case Operate(op) =>
      ApplyKeepsNoDup(s, op);
      ApplyRefinesSet(s, op);
      if (op.Front? || op.Random?) && Evicts(s, op) { EvictsLast(s, op); }
  }

  ghost function Lifetime(s: seq<Cell>, es: seq<Event>): (r: seq<Cell>)
    requires s != [] && forall i :: 0 <= i < |es| ==> ValidEvent(es[i], |s|)
    ensures |r| == |s|
  {
    if es == [] then s else ApplyEvent(Lifetime(s, es[..|es| - 1]), es[|es| - 1])
  }

  /** Some sequence of sets leads from one to the other. */
  ghost predicate SetRun(contents: set<Cell>, n: nat, es: seq<Event>, contents': set<Cell>)
    decreases |es|, 0
  {
    if es == [] then contents' == contents else SetRunThen(contents, n, es[..|es| - 1], es[|es| - 1], contents')
  }

  ghost predicate SetRunThen(contents: set<Cell>, n: nat, es: seq<Event>, e: Event, contents': set<Cell>)
    decreases |es|, 1
  {
    exists between :: SetRun(contents, n, es, between) && SetStep(between, n, e, contents')
  }

  /** Over any sequence of lookups, erasures, pushes at any positions and loads, a bucket is a set of pairs
      bounded by its cells, and answers lookups as that set does. */
  lemma {:induction false} LifetimeRefinesSet(s: seq<Cell>, es: seq<Event>, hash: nat)
    requires s != [] && NoDup(s) && forall i :: 0 <= i < |es| ==> ValidEvent(es[i], |s|)
    ensures NoDup(Lifetime(s, es)) && SetRun(Contents(s), |s|, es, Contents(Lifetime(s, es)))
    ensures (set c | c in Matches(Lifetime(s, es), hash)) == Answer(Contents(Lifetime(s, es)), hash)
    decreases |es|
  {
    if es != [] {
      LifetimeRefinesSet(s, es[..|es| - 1], hash);
      var between := Lifetime(s, es[..|es| - 1]);
      EventRefinesSet(between, es[|es| - 1]);
      assert SetRunThen(Contents(s), |s|, es[..|es| - 1], es[|es| - 1], Contents(Lifetime(s, es)));
    }
    LookupAnswers(Lifetime(s, es), hash);
  }

  // ----- A load looks at the whole extent

  /** The cell belongs to bucket k of n. */
  predicate Home(c: Cell, n: nat, k: nat)
    requires n > 0
  {
    c == EMPTY || c.hash % n == k
  }

  /** Every event keeps the cells of a bucket at home, if what is pushed belongs there. */
  lemma EventKeepsHome(s: seq<Cell>, e: Event, n: nat, k: nat)
    requires n > 0 && s != [] && NoDup(s) && ValidEvent(e, |s|) && (forall c :: c in s ==> Home(c, n, k))
    requires e.Operate? && (e.op.Front? || e.op.Random?) ==> Home(e.op.c, n, k)
    ensures forall c :: c in ApplyEvent(s, e) ==> Home(c, n, k)
  {
    EventRefinesSet(s, e);
    forall c | c in ApplyEvent(s, e) ensures Home(c, n, k) {
      if c != EMPTY { assert c in Contents(ApplyEvent(s, e)); }
    }
  }

  /** In a table where every cell is at home, clearing a whole extent does to each bucket what clearing the
      bucket alone does. */
  lemma LoadIsPerBucket(x: seq<Cell>, lo: nat, hi: nat, n: nat, k: nat)
    requires lo <= hi <= |x| && n > 0 && forall i :: lo <= i < hi ==> Home(x[i], n, k)
    requires forall i :: 0 <= i < |x| && !(lo <= i < hi) ==> x[i] == EMPTY || !Home(x[i], n, k)
    ensures ClearToxic(x, set c | c in x)[lo..hi] == ClearToxic(x[lo..hi], set c | c in x[lo..hi])
  {
    var all, own := (set c | c in x), (set c | c in x[lo..hi]);
    forall i | lo <= i < hi ensures ClearCell(all, x[i]) == ClearCell(own, x[i]) {
      CleanTwinIsNear(x, lo, hi, n, k, Cleared(x[i]));
    }
    ClearAgrees(x, lo, hi, all, own);
  }

  lemma ClearAgrees(x: seq<Cell>, lo: nat, hi: nat, all: set<Cell>, own: set<Cell>)
    requires lo <= hi <= |x| && forall i :: lo <= i < hi ==> ClearCell(all, x[i]) == ClearCell(own, x[i])
    ensures ClearToxic(x, all)[lo..hi] == ClearToxic(x[lo..hi], own)
  {
    var a, b := ClearToxic(x, all)[lo..hi], ClearToxic(x[lo..hi], own);
    forall i | 0 <= i < hi - lo ensures a[i] == b[i] {
      assert a[i] == ClearCell(all, x[lo + i]) && x[lo..hi][i] == x[lo + i];
    }
  }

  lemma CleanTwinIsNear(x: seq<Cell>, lo: nat, hi: nat, n: nat, k: nat, c: Cell)
    requires lo <= hi <= |x| && n > 0 && Home(c, n, k)
    requires forall i :: 0 <= i < |x| && !(lo <= i < hi) ==> x[i] == EMPTY || !Home(x[i], n, k)
    ensures c != EMPTY ==> (c in x <==> c in x[lo..hi])
  {
    if c in x && c != EMPTY {
      var j :| 0 <= j < |x| && x[j] == c;
      assert x[lo..hi][j - lo] == c;
    }
  }

  // ----- What comes into a bucket

  lemma ShiftMembers(s: seq<Cell>, pos: nat, i: nat, c: Cell)
    requires pos <= i <= |s| && pos < |s|
    ensures forall x :: x in Shift(s, pos, i, c) ==> x in s || x == c
  {
    var r := Shift(s, pos, i, c);
    forall x | x in r ensures x in s || x == c {
      var k :| 0 <= k < |r| && r[k] == x;
      ShiftAt(s, pos, i, c, k);
    }
  }

  lemma EraseMembers(s: seq<Cell>, c: Cell)
    ensures forall x :: x in Erase(s, c) ==> x in s || x == EMPTY
  {
  }

  lemma PushFrontMembers(s: seq<Cell>, c: Cell)
    requires s != []
    ensures forall x :: x in PushFront(s, c) ==> x in s || x == c
  {
    ShiftMembers(s, 0, if c in s then Find(s, c) else Find(s, EMPTY), c);
  }

  lemma PushRandomMembers(s: seq<Cell>, c: Cell, pos: nat)
    requires pos < |s|
    ensures forall x :: x in PushRandom(s, c, pos) ==> x in s || x == c
  {
    if c in s {
      if Find(s, c) > pos { ShiftMembers(s, pos, Find(s, c), c); }
    } else if EMPTY !in s {
      ShiftMembers(s, pos, |s|, c);
    }
  }

  // ----- Where a push puts the pair

  /** c is at pos, and the cells from there up to the place it came from moved back by one. */
  ghost predicate MovedTo(s: seq<Cell>, r: seq<Cell>, pos: nat, from: nat, c: Cell) {
    && |r| == |s| && pos < |s| && r[pos] == c
    && (forall k :: pos < k <= from && k < |s| ==> r[k] == s[k - 1])
    && (forall k :: 0 <= k < |s| && (k < pos || k > from) ==> r[k] == s[k])
  }

  /** The first cell, from position i on, that holds c. */
  ghost predicate FirstAt(s: seq<Cell>, i: nat, c: Cell, k: nat) {
    i <= k < |s| && s[k] == c && forall j :: i <= j < k ==> s[j] != c
  }

  lemma ShiftMoves(s: seq<Cell>, pos: nat, i: nat, c: Cell)
    requires pos <= i <= |s| && pos < |s|
    ensures MovedTo(s, Shift(s, pos, i, c), pos, i, c)
  {
    forall k | 0 <= k < |s| ensures Shift(s, pos, i, c)[k] == if k == pos then c else if pos < k <= i then s[k - 1] else s[k] {
      ShiftAt(s, pos, i, c, k);
    }
  }

  /** To the front goes the pair, from where it was, else into the first empty cell; if there is neither, the
      last cell is lost. */
  lemma PushFrontPlace(s: seq<Cell>, c: Cell, from: nat)
    requires s != []
    requires if c in s then FirstAt(s, 0, c, from) else if EMPTY in s then FirstAt(s, 0, EMPTY, from) else from == |s|
    ensures MovedTo(s, PushFront(s, c), 0, from, c)
  {
    ShiftMoves(s, 0, from, c);
  }

  /** The empty cell that is filled: the first one from pos on, else the last one before. */
  ghost predicate FillsAt(s: seq<Cell>, pos: nat, k: nat) {
    || FirstAt(s, pos, EMPTY, k)
    || (k < pos < |s| && s[k] == EMPTY && (forall j :: k < j < |s| ==> s[j] != EMPTY))
  }

  /** A pair that is behind pos moves up to pos; one that is in front stays; a new one fills the nearest empty
      cell, or goes to pos and the last cell is lost. */
  lemma PushRandomPlace(s: seq<Cell>, c: Cell, pos: nat, k: nat)
    requires pos < |s|
    ensures FirstAt(s, 0, c, k) ==> if k > pos then MovedTo(s, PushRandom(s, c, pos), pos, k, c) else PushRandom(s, c, pos) == s
    ensures c !in s && FillsAt(s, pos, k) ==> PushRandom(s, c, pos) == s[k := c]
    ensures c !in s && EMPTY !in s ==> MovedTo(s, PushRandom(s, c, pos), pos, |s|, c)
  {
    if c in s {
      if Find(s, c) > pos { ShiftMoves(s, pos, Find(s, c), c); }
    } else if EMPTY in s {
      if FillsAt(s, pos, k) { FillsNear(s, pos, k); }
    } else {
      ShiftMoves(s, pos, |s|, c);
    }
  }

  lemma FillsNear(s: seq<Cell>, pos: nat, k: nat)
    requires pos < |s| && FillsAt(s, pos, k)
    ensures EMPTY in s && EmptyNear(s, pos) == k
  {
    if FirstAt(s, pos, EMPTY, k) {
      assert s[pos..][k - pos] == EMPTY;
      var f := Find(s[pos..], EMPTY);
      assert s[pos + f] == s[pos..][f];
    } else {
      assert EMPTY !in s[pos..];
      LastEmptyIs(s[..pos], k);
    }
  }

  /** The bucket of a hash in a table of n buckets. */
  ghost function Part(t: seq<Cell>, n: nat, hash: nat): (s: seq<Cell>)
    requires n > 0 && |t| == n * CELLS_PER_BUCKET
    ensures |s| == CELLS_PER_BUCKET
  {
    PartFits(n, hash % n);
    t[(hash % n) * CELLS_PER_BUCKET..(hash % n) * CELLS_PER_BUCKET + CELLS_PER_BUCKET]
  }

  lemma PartFits(n: nat, k: nat)
    requires k < n
    ensures k * CELLS_PER_BUCKET + CELLS_PER_BUCKET <= n * CELLS_PER_BUCKET
  {
  }

  ghost predicate OthersSame(t: seq<Cell>, t': seq<Cell>, n: nat, hash: nat)
    requires n > 0 && |t| == |t'| == n * CELLS_PER_BUCKET
  {
    forall h: nat :: h % n != hash % n ==> Part(t', n, h) == Part(t, n, h)
  }

  lemma PartsSame(t: seq<Cell>, t': seq<Cell>, n: nat, hash: nat)
    requires n > 0 && |t| == |t'| == n * CELLS_PER_BUCKET
    requires forall i :: 0 <= i < |t| && i / CELLS_PER_BUCKET != hash % n ==> t'[i] == t[i]
    ensures OthersSame(t, t', n, hash)
  {
    forall h: nat | h % n != hash % n ensures Part(t', n, h) == Part(t, n, h) {
      PartFits(n, h % n);
      forall k | 0 <= k < CELLS_PER_BUCKET ensures Part(t', n, h)[k] == Part(t, n, h)[k] {
        QuotientIs((h % n) * CELLS_PER_BUCKET + k, h % n);
      }
    }
  }

  /** Every cell of the table is in the bucket of its hash. */
  ghost predicate AllHome(t: seq<Cell>, n: nat) {
    n > 0 && forall i :: 0 <= i < |t| ==> Home(t[i], n, i / CELLS_PER_BUCKET)
  }

  lemma PartIsHome(t: seq<Cell>, n: nat, hash: nat)
    requires n > 0 && |t| == n * CELLS_PER_BUCKET && AllHome(t, n)
    ensures forall c :: c in Part(t, n, hash) ==> Home(c, n, hash % n)
  {
    forall c | c in Part(t, n, hash) ensures Home(c, n, hash % n) {
      var k :| 0 <= k < CELLS_PER_BUCKET && Part(t, n, hash)[k] == c;
      PartFits(n, hash % n);
      QuotientIs((hash % n) * CELLS_PER_BUCKET + k, hash % n);
    }
  }

  lemma HomeStays(t: seq<Cell>, t': seq<Cell>, n: nat, hash: nat, c: Cell)
    requires n > 0 && |t| == |t'| == n * CELLS_PER_BUCKET && AllHome(t, n) && c.hash == hash
    requires forall i :: 0 <= i < |t| && i / CELLS_PER_BUCKET != hash % n ==> t'[i] == t[i]
    requires forall x :: x in Part(t', n, hash) ==> x in Part(t, n, hash) || x == c || x == EMPTY
    ensures AllHome(t', n)
  {
    PartIsHome(t, n, hash);
    forall i | 0 <= i < |t'| ensures Home(t'[i], n, i / CELLS_PER_BUCKET) {
      QuotientIs(i, hash % n);
      if i / CELLS_PER_BUCKET == hash % n {
        assert t'[i] == Part(t', n, hash)[i - (hash % n) * CELLS_PER_BUCKET];
      }
    }
  }

  /** A lookup in one bucket finds what there is in the whole table. */
  lemma PartHasAll(t: seq<Cell>, n: nat, hash: nat)
    requires n > 0 && |t| == n * CELLS_PER_BUCKET && AllHome(t, n)
    ensures Answer(Contents(Part(t, n, hash)), hash) == Answer(Contents(t), hash)
  {
    PartFits(n, hash % n);
    forall c | c in Answer(Contents(t), hash) ensures c in Part(t, n, hash) {
      var i :| 0 <= i < |t| && t[i] == c;
      assert Home(t[i], n, i / CELLS_PER_BUCKET);
      QuotientIs(i, hash % n);
      assert c == Part(t, n, hash)[i - (hash % n) * CELLS_PER_BUCKET];
    }
  }

  lemma SliceOfSlice(t: seq<Cell>, from: nat, to: nat, lo: nat, hi: nat)
    requires from <= to <= |t| && lo <= hi <= to - from
    ensures t[from..to][lo..hi] == t[from + lo..from + hi]
  {
    var a, b := t[from..to][lo..hi], t[from + lo..from + hi];
    assert |a| == |b|;
    forall i | 0 <= i < |a| ensures a[i] == b[i] {
      assert a[i] == t[from..to][lo + i];
    }
  }

  lemma SliceIsHome(t: seq<Cell>, n: nat, from: nat, to: nat, lo: nat, k: nat, i: nat)
    requires n > 0 && AllHome(t, n) && from + i < to <= |t| && from + lo == k * CELLS_PER_BUCKET
    ensures var c := t[from..to][i];
            if lo <= i < lo + CELLS_PER_BUCKET then Home(c, n, k) else c == EMPTY || !Home(c, n, k)
  {
    assert t[from..to][i] == t[from + i] && Home(t[from + i], n, (from + i) / CELLS_PER_BUCKET);
    QuotientIs(from + i, k);
  }

  /** Loading the cells between from and to, which are whole buckets, does to the bucket of a hash that is
      among them what clearing it alone does. */
  lemma TableLoad(t: seq<Cell>, n: nat, from: nat, to: nat, hash: nat, lo: nat)
    requires n > 0 && |t| == n * CELLS_PER_BUCKET && AllHome(t, n)
    requires from + lo == (hash % n) * CELLS_PER_BUCKET && from + lo + CELLS_PER_BUCKET <= to <= |t|
    ensures var x := t[from..to];
            ClearToxic(x, set c | c in x)[lo..lo + CELLS_PER_BUCKET] == ClearToxic(Part(t, n, hash), set c | c in Part(t, n, hash))
  {
    var x, k, hi := t[from..to], hash % n, lo + CELLS_PER_BUCKET;
    SliceOfSlice(t, from, to, lo, hi);
    assert x[lo..hi] == Part(t, n, hash);
    forall i | 0 <= i < |x| ensures if lo <= i < hi then Home(x[i], n, k) else x[i] == EMPTY || !Home(x[i], n, k) {
      SliceIsHome(t, n, from, to, lo, k, i);
    }
    LoadIsPerBucket(x, lo, hi, n, k);
  }

  lemma ClearKeepsHome(seen: set<Cell>, c: Cell, n: nat, k: nat)
    requires n > 0 && Home(c, n, k) && (c == EMPTY ==> ClearCell(seen, c) == EMPTY)
    ensures Home(ClearCell(seen, c), n, k)
  {
  }

  lemma QuotientIs(i: int, q: int)
    requires i >= 0
    ensures q * CELLS_PER_BUCKET <= i < q * CELLS_PER_BUCKET + CELLS_PER_BUCKET <==> i / CELLS_PER_BUCKET == q
  {
  }

  lemma SmallModulus(i: nat, n: nat)
    requires i < n
    ensures i % n == i
  {
  }

  class BeesHashTable {
    const buckets: nat
    const cells: array<Cell>

    ghost predicate Valid() {
      0 < buckets && cells.Length == buckets * CELLS_PER_BUCKET
    }

    constructor (n: nat)
      requires 0 < n
      ensures Valid() && buckets == n && fresh(cells) && forall i :: 0 <= i < cells.Length ==> cells[i] == EMPTY
    {
      buckets := n;
      cells := new Cell[n * CELLS_PER_BUCKET](_ => EMPTY);
    }

    /** get_cell_range: where the bucket of a hash begins. */
    function Low(hash: nat): (lo: nat)
      requires Valid()
      ensures lo + CELLS_PER_BUCKET <= cells.Length
    {
      (hash % buckets) * CELLS_PER_BUCKET
    }

    /** Cell i is in the bucket of this hash. */
    predicate InBucket(hash: nat, i: int)
      requires Valid()
    {
      Low(hash) <= i < Low(hash) + CELLS_PER_BUCKET
    }

    /** The table is cut into as many buckets as it has, each for the hashes of one residue: cell i is in the
        bucket numbered i / 256, and in no other. */
    lemma BucketsSplitTable(hash: nat, i: int)
      requires Valid() && 0 <= i < cells.Length
      ensures InBucket(hash, i) <==> i / CELLS_PER_BUCKET == hash % buckets
    {
      QuotientIs(i, hash % buckets);
    }

    lemma BucketsAreApart(h: nat, g: nat, i: int)
      requires Valid() && 0 <= i < cells.Length && InBucket(h, i)
      ensures InBucket(g, i) <==> h % buckets == g % buckets
    {
      BucketsSplitTable(h, i);
      BucketsSplitTable(g, i);
    }

    lemma EveryCellHasBucket(i: int) returns (hash: nat)
      requires Valid() && 0 <= i < cells.Length
      ensures hash < buckets && InBucket(hash, i)
    {
      hash := i / CELLS_PER_BUCKET;
      SmallModulus(hash, buckets);
      BucketsSplitTable(hash, i);
    }

    ghost function Bucket(hash: nat): (s: seq<Cell>)
      requires Valid()
      reads cells
      ensures |s| == CELLS_PER_BUCKET && s == Part(cells[..], buckets, hash)
    {
      cells[Low(hash)..Low(hash) + CELLS_PER_BUCKET]
    }

    /** Only the bucket of this hash changed, from s to what it is now. */
    twostate predicate OnlyBucketChanged(hash: nat)
      requires Valid()
      reads cells
    {
      forall i :: 0 <= i < cells.Length && !(Low(hash) <= i < Low(hash) + CELLS_PER_BUCKET) ==> cells[i] == old(cells[i])
    }

    /** What a change to one bucket leaves alone. */
    lemma OthersStay(t: seq<Cell>, hash: nat, c: Cell)
      requires Valid() && |t| == cells.Length && c.hash == hash
      requires forall i :: 0 <= i < cells.Length && !InBucket(hash, i) ==> cells[i] == t[i]
      requires forall x :: x in Bucket(hash) ==> x in Part(t, buckets, hash) || x == c || x == EMPTY
      ensures OthersSame(t, cells[..], buckets, hash) && (AllHome(t, buckets) ==> AllHome(cells[..], buckets))
    {
      forall i | 0 <= i < cells.Length && i / CELLS_PER_BUCKET != hash % buckets ensures cells[..][i] == t[i] {
        BucketsSplitTable(hash, i);
      }
      PartsSame(t, cells[..], buckets, hash);
      if AllHome(t, buckets) { HomeStays(t, cells[..], buckets, hash, c); }
    }

    /** std::find over lo..hi */
    method FindIn(lo: nat, hi: nat, c: Cell) returns (i: nat)
      requires lo <= hi <= cells.Length
      ensures lo <= i <= hi && i == lo + Find(cells[lo..hi], c)
    {
      i := lo;
      while i < hi && cells[i] != c
        invariant lo <= i <= hi
        invariant forall j :: lo <= j < i ==> cells[j] != c
      {
        i := i + 1;
      }
      if i < hi { assert cells[lo..hi][i - lo] == c; }
    }

    /** The shift loop, dp > first: every cell of from..to moves back by one. */
    method ShiftCells(from: nat, to: nat)
      requires from <= to < cells.Length
      modifies cells
      ensures forall j :: from < j <= to ==> cells[j] == old(cells[j - 1])
      ensures forall j :: 0 <= j < cells.Length && !(from < j <= to) ==> cells[j] == old(cells[j])
    {
      var dp := to;
      while dp > from
        invariant from <= dp <= to
        invariant forall j :: dp < j <= to ==> cells[j] == old(cells[j - 1])
        invariant forall j :: 0 <= j < cells.Length && !(dp < j <= to) ==> cells[j] == old(cells[j])
      {
        cells[dp] := cells[dp - 1];
        dp := dp - 1;
      }
    }

    /** The cells before the i-th move back by one; then c is stored. */
    method ShiftIn(lo: nat, hi: nat, pos: nat, i: nat, c: Cell)
      requires lo <= hi <= cells.Length && pos <= i <= hi - lo && pos < hi - lo
      modifies cells
      ensures cells[lo..hi] == Shift(old(cells[lo..hi]), pos, i, c)
      ensures forall j :: 0 <= j < cells.Length && !(lo <= j < hi) ==> cells[j] == old(cells[j])
    {
      ghost var s := cells[lo..hi];
      ShiftCells(lo + pos, if lo + i == hi then hi - 1 else lo + i);
      cells[lo + pos] := c;
      ghost var t := cells[lo..hi];
      forall k | pos < k <= i && k < |s| ensures t[k] == s[k - 1] {
        assert t[k] == cells[lo + k] && s[k - 1] == old(cells[lo + k - 1]);
      }
      forall k | 0 <= k < |s| && !(pos <= k <= i) ensures t[k] == s[k] {
        assert t[k] == cells[lo + k] && s[k] == old(cells[lo + k]);
      }
      ShiftIs(s, t, pos, i, c);
    }

    method FindCell(hash: nat) returns (rv: seq<Cell>)
      requires Valid()
      ensures rv == Matches(Bucket(hash), hash)
      ensures (set c | c in rv) == Answer(Contents(Bucket(hash)), hash)
      ensures AllHome(cells[..], buckets) ==> (set c | c in rv) == Answer(Contents(cells[..]), hash)
    {
      var lo, hi := Low(hash), Low(hash) + CELLS_PER_BUCKET;
      var i := lo;
      rv := [];
      while i < hi
        invariant lo <= i <= hi
        invariant rv + Matches(cells[i..hi], hash) == Matches(Bucket(hash), hash)
      {
        MatchesStep(cells[i..hi], hash, rv);
        assert cells[i..hi][1..] == cells[i + 1..hi];
        if cells[i].hash == hash && cells[i].addr >= 0x1000 {
          rv := rv + [cells[i]];
        }
        i := i + 1;
      }
      LookupAnswers(Bucket(hash), hash);
      if AllHome(cells[..], buckets) { PartHasAll(cells[..], buckets, hash); }
    }

    method EraseHashAddr(hash: nat, addr: nat)
      requires Valid()
      modifies cells
      ensures Bucket(hash) == Erase(old(Bucket(hash)), Cell(hash, addr))
      ensures OnlyBucketChanged(hash)
      ensures OthersSame(old(cells[..]), cells[..], buckets, hash)
      ensures AllHome(old(cells[..]), buckets) ==> AllHome(cells[..], buckets)
    {
      ghost var t, b := cells[..], Bucket(hash);
      var lo := Low(hash);
      var ip := FindIn(lo, lo + CELLS_PER_BUCKET, Cell(hash, addr));
      if ip < lo + CELLS_PER_BUCKET {
        cells[ip] := EMPTY;
      }
      EraseMembers(b, Cell(hash, addr));
      OthersStay(t, hash, Cell(hash, addr));
    }

    method PushFrontHashAddr(hash: nat, addr: nat) returns (found: bool)
      requires Valid()
      modifies cells
      ensures found == (Cell(hash, addr) in old(Bucket(hash)))
      ensures Bucket(hash) == PushFront(old(Bucket(hash)), Cell(hash, addr))
      ensures OnlyBucketChanged(hash)
      ensures OthersSame(old(cells[..]), cells[..], buckets, hash)
      ensures AllHome(old(cells[..]), buckets) ==> AllHome(cells[..], buckets)
    {
      ghost var t, b := cells[..], Bucket(hash);
      var lo, hi, mv := Low(hash), Low(hash) + CELLS_PER_BUCKET, Cell(hash, addr);
      var ip := FindIn(lo, hi, mv);
      found := ip < hi;
      if !found {
        ip := FindIn(lo, hi, EMPTY);
      }
      ShiftIn(lo, hi, 0, ip - lo, mv);
      PushFrontMembers(b, mv);
      OthersStay(t, hash, mv);
    }

    /** `pos` is the random position. */
    method PushRandomHashAddr(hash: nat, addr: nat, pos: nat) returns (found: bool)
      requires Valid() && pos < CELLS_PER_BUCKET
      modifies cells
      ensures found == (Cell(hash, addr) in old(Bucket(hash)))
      ensures Bucket(hash) == PushRandom(old(Bucket(hash)), Cell(hash, addr), pos)
      ensures OnlyBucketChanged(hash)
      ensures OthersSame(old(cells[..]), cells[..], buckets, hash)
      ensures AllHome(old(cells[..]), buckets) ==> AllHome(cells[..], buckets)
    {
      ghost var t, b := cells[..], Bucket(hash);
      found := PushIn(Low(hash), Low(hash) + CELLS_PER_BUCKET, Cell(hash, addr), pos);
      PushRandomMembers(b, Cell(hash, addr), pos);
      OthersStay(t, hash, Cell(hash, addr));
    }

    method PushIn(lo: nat, hi: nat, mv: Cell, pos: nat) returns (found: bool)
      requires lo <= hi <= cells.Length && pos < hi - lo
      modifies cells
      ensures found == (mv in old(cells[lo..hi])) && cells[lo..hi] == PushRandom(old(cells[lo..hi]), mv, pos)
      ensures forall j :: 0 <= j < cells.Length && !(lo <= j < hi) ==> cells[j] == old(cells[j])
    {
      ghost var s := cells[lo..hi];
      var ip := FindIn(lo, hi, mv);
      found := ip < hi;
      if !found {
        PushNew(lo, hi, mv, pos);
      } else if ip > lo + pos {
        ShiftIn(lo, hi, pos, ip - lo, mv);
      } else {
        assert PushRandom(s, mv, pos) == s;
      }
    }

    /** The pair is not in the bucket. */
    method PushNew(lo: nat, hi: nat, mv: Cell, pos: nat)
      requires lo <= hi <= cells.Length && pos < hi - lo && mv !in cells[lo..hi]
      modifies cells
      ensures cells[lo..hi] == PushRandom(old(cells[lo..hi]), mv, pos)
      ensures forall j :: 0 <= j < cells.Length && !(lo <= j < hi) ==> cells[j] == old(cells[j])
    {
      var ip := FindEmpty(lo, hi, pos);
      if ip == hi {
        ShiftIn(lo, hi, pos, hi - lo, mv);
      } else {
        Store(lo, hi, ip, mv);
      }
    }

    method Store(lo: nat, hi: nat, ip: nat, c: Cell)
      requires lo <= ip < hi <= cells.Length
      modifies cells
      ensures cells[lo..hi] == old(cells[lo..hi])[ip - lo := c]
      ensures forall j :: 0 <= j < cells.Length && j != ip ==> cells[j] == old(cells[j])
    {
      cells[ip] := c;
    }

    /** An empty cell to the back of pos, else the nearest one to the front, else hi. */
    method FindEmpty(lo: nat, hi: nat, pos: nat) returns (ip: nat)
      requires lo <= hi <= cells.Length && pos < hi - lo
      ensures ip == if EMPTY in cells[lo..hi] then lo + EmptyNear(cells[lo..hi], pos) else hi
    {
      ghost var s := cells[lo..hi];
      ip := FindIn(lo + pos, hi, EMPTY);
      assert cells[lo + pos..hi] == s[pos..];
      if ip < hi {
        assert EMPTY in s[pos..] && s[ip - lo] == EMPTY;
        return;
      }
      ip := lo + pos;
      while ip > lo && cells[ip - 1] != EMPTY
        invariant lo <= ip <= lo + pos
        invariant forall j :: ip - lo <= j < pos ==> s[j] != EMPTY
      {
        ip := ip - 1;
      }
      if ip > lo {
        ip := ip - 1;
        LastEmptyIs(s[..pos], ip - lo);
        assert s[ip - lo] == EMPTY;
      } else {
        assert s == s[..pos] + s[pos..];
        ip := hi;
      }
    }

    /** The loop of fetch_missing_extent_by_index over the cells of one loaded extent. */
    method ClearToxicCells(lo: nat, hi: nat)
      requires lo <= hi <= cells.Length
      modifies cells
      ensures cells[lo..hi] == ClearToxic(old(cells[lo..hi]), set c | c in old(cells[lo..hi]))
      ensures forall i :: 0 <= i < cells.Length && !(lo <= i < hi) ==> cells[i] == old(cells[i])
      ensures AllHome(old(cells[..]), buckets) ==> AllHome(cells[..], buckets)
    {
      ghost var t := cells[..];
      var seen := set c | c in cells[lo..hi];
      for cell := lo to hi
        invariant forall i :: lo <= i < cell ==> cells[i] == ClearCell(seen, old(cells[i]))
        invariant forall i :: 0 <= i < cells.Length && !(lo <= i < cell) ==> cells[i] == old(cells[i])
      {
        if IsToxic(cells[cell]) {
          cells[cell] := cells[cell].(addr := cells[cell].addr - TOXIC);
          if cells[cell] in seen {
            cells[cell] := EMPTY;
          }
        }
      }
      if AllHome(t, buckets) {
        forall i | 0 <= i < cells.Length ensures Home(cells[..][i], buckets, i / CELLS_PER_BUCKET) {
          assert Home(t[i], buckets, i / CELLS_PER_BUCKET);
          if lo <= i < hi { ClearKeepsHome(seen, t[i], buckets, i / CELLS_PER_BUCKET); }
        }
      }
    }
  }

  lemma {:induction false} LastEmptyIs(s: seq<Cell>, i: nat)
    requires i < |s| && s[i] == EMPTY && forall j :: i < j < |s| ==> s[j] != EMPTY
    ensures LastEmpty(s) == i
  {
    if i < |s| - 1 { LastEmptyIs(s[..|s| - 1], i); }
  }
}
