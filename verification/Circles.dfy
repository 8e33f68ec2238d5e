/**
 When append and insert (lib/task.cc) close a circle of waiting tasks (Progress): exactly if the task they
 add to is not running and waits already, directly or through others, for one of the tasks added.
 */
module Circles {

  import opened Common
  import opened Tasks
  import opened Progress

  /** Each task of the path waits for the next one. */
  ghost predicate Path(s: State, p: seq<TaskId>) {
    p != [] && forall i :: 0 <= i < |p| - 1 ==> WaitsFor(s, p[i], p[i + 1])
  }

  ghost predicate PathTo(s: State, p: seq<TaskId>, x: TaskId, Z: set<TaskId>) {
    Path(s, p) && p[0] == x && p[|p| - 1] in Z
  }

  /** x is in Z, or waits for one of Z through tasks that are not running. */
  ghost predicate Leads(s: State, x: TaskId, Z: set<TaskId>) {
    exists p :: PathTo(s, p, x, Z)
  }

  lemma LeadsHere(s: State, x: TaskId, Z: set<TaskId>)
    requires x in Z
    ensures Leads(s, x, Z)
  {
    assert PathTo(s, [x], x, Z);
  }

  lemma LeadsOn(s: State, x: TaskId, y: TaskId, Z: set<TaskId>)
    requires WaitsFor(s, x, y) && Leads(s, y, Z)
    ensures Leads(s, x, Z)
  {
    var p :| PathTo(s, p, y, Z);
    var q := [x] + p;
    forall i | 0 <= i < |q| - 1 ensures WaitsFor(s, q[i], q[i + 1]) {
      if i > 0 { assert q[i] == p[i - 1] && q[i + 1] == p[i]; }
    }
    assert PathTo(s, q, x, Z);
  }

  /** From s to s' the tasks Z, and no others, come to wait for parent, and for nothing else. */
  ghost predicate Adds(s: State, s': State, parent: TaskId, Z: set<TaskId>) {
    && parent in s.tasks
    && (forall x, y :: x !in Z ==> (WaitsFor(s', x, y) <==> WaitsFor(s, x, y)))
    && (forall x, y :: x in Z ==> (WaitsFor(s', x, y) <==> y == parent && !s.tasks[parent].isRunning))
  }

  lemma PathCloses(s: State, s': State, parent: TaskId, Z: set<TaskId>, t: TaskId)
    requires Adds(s, s', parent, Z) && t in Z && !s.tasks[parent].isRunning && Leads(s, parent, Z)
    ensures InCircle(s', t)
  {
    var p :| PathTo(s, p, parent, Z);
    var C := (set x | x in p) + {t};
    forall x | x in C ensures Waits(s', C, x) {
      if x in Z {
        assert parent in C && WaitsFor(s', x, parent);
      } else {
        var i :| 0 <= i < |p| && p[i] == x;
        assert p[i + 1] in C && WaitsFor(s', x, p[i + 1]);
      }
    }
    assert Stuck(s', C);
  }

  lemma CircleGrows(s: State, s': State, parent: TaskId, Z: set<TaskId>, t: TaskId)
    requires Adds(s, s', parent, Z) && t in Z && !s.tasks[parent].isRunning && InCircle(s, parent)
    ensures InCircle(s', t)
  {
    var D :| parent in D && Stuck(s, D);
    var C := D + {t};
    forall x | x in C ensures Waits(s', C, x) {
      if x in Z {
        assert parent in C && WaitsFor(s', x, parent);
      } else {
        assert Waits(s, D, x);
        var y :| y in D && WaitsFor(s, x, y);
        assert y in C && WaitsFor(s', x, y);
      }
    }
    assert Stuck(s', C);
  }

  lemma CircleHasParent(s: State, s': State, parent: TaskId, Z: set<TaskId>, t: TaskId)
    requires Adds(s, s', parent, Z) && t in Z && InCircle(s', t)
    ensures !s.tasks[parent].isRunning && (Leads(s, parent, Z) || InCircle(s, parent))
  {
    var C :| t in C && Stuck(s', C);
    assert Waits(s', C, t);
    assert parent in C;
    var D := set x | x in C && !Leads(s, x, Z);
    forall x | x in D ensures Waits(s, D, x) {
      if x in Z { LeadsHere(s, x, Z); }
      assert Waits(s', C, x);
      var y :| y in C && WaitsFor(s', x, y);
      if Leads(s, y, Z) { LeadsOn(s, x, y, Z); }
      assert y in D;
    }
    assert Stuck(s, D);
  }

  /** The circle closes if and only if what is added to waits already for one of those added, or in a circle. */
  lemma ClosesIff(s: State, s': State, parent: TaskId, Z: set<TaskId>, t: TaskId)
    requires Adds(s, s', parent, Z) && t in Z
    ensures InCircle(s', t) <==> !s.tasks[parent].isRunning && (Leads(s, parent, Z) || InCircle(s, parent))
  {
    if InCircle(s', t) { CircleHasParent(s, s', parent, Z, t); }
    if !s.tasks[parent].isRunning && Leads(s, parent, Z) { PathCloses(s, s', parent, Z, t); }
    if !s.tasks[parent].isRunning && InCircle(s, parent) { CircleGrows(s, s', parent, Z, t); }
  }

  /** A set of tasks is stuck anew only if one of those added is in it. */
  lemma NewCircleHasAdded(s: State, s': State, parent: TaskId, Z: set<TaskId>, C: set<TaskId>)
    requires Adds(s, s', parent, Z) && Stuck(s', C) && !Stuck(s, C)
    ensures exists z :: z in C && z in Z
  {
    var x :| x in C && !Waits(s, C, x);
    assert Waits(s', C, x);
    assert x in Z;
  }

  // ----- append and insert

  /** The tasks that insert moves: t and those that wait for it. */
  function Moving(s: State, t: TaskId): set<TaskId>
    requires t in s.tasks
  {
    {t} + set x | x in s.tasks[t].post
  }

  lemma NotRequestedWaitsForNone(s: State, t: TaskId, y: TaskId)
    requires Inv(s) && Live(s, t) && !s.tasks[t].runNow && y in s.tasks
    ensures t !in s.tasks[y].post
  {
    assert TaskOk(s, t);
    assert t !in Queue(s, Post(y));
  }

  lemma WaitsForOne(s: State, x: TaskId, y: TaskId, z: TaskId)
    requires Inv(s) && y in s.tasks && z in s.tasks && x in s.tasks[y].post && x in s.tasks[z].post
    ensures y == z
  {
    assert x in Queue(s, Post(y)) && x in Queue(s, Post(z));
  }

  lemma AppendAdds(s: State, parent: TaskId, t: TaskId)
    requires Inv(s) && Live(s, parent) && Live(s, t) && !s.tasks[t].runNow
    ensures Adds(s, AppendTask(s, parent, t), parent, {t})
  {
    forall y | y in s.tasks ensures t !in s.tasks[y].post { NotRequestedWaitsForNone(s, t, y); }
  }

  lemma InsertAdds(s: State, parent: TaskId, t: TaskId)
    requires Inv(s) && Live(s, parent) && Live(s, t) && !s.tasks[t].runNow && parent != t
    ensures Adds(s, InsertTask(s, parent, t), parent, Moving(s, t))
  {
    forall y | y in s.tasks ensures t !in s.tasks[y].post { NotRequestedWaitsForNone(s, t, y); }
    forall x, y | x in s.tasks[t].post && y in s.tasks && x in s.tasks[y].post ensures y == t { WaitsForOne(s, x, y, t); }
    InsertSplits(s, parent, t);
  }

  lemma AppendClosesIff(s: State, parent: TaskId, t: TaskId)
    requires Inv(s) && Live(s, parent) && Live(s, t) && !s.tasks[t].runNow
    ensures InCircle(AppendTask(s, parent, t), t)
            <==> !s.tasks[parent].isRunning && (Leads(s, parent, {t}) || InCircle(s, parent))
  {
    AppendAdds(s, parent, t);
    ClosesIff(s, AppendTask(s, parent, t), parent, {t}, t);
  }

  lemma InsertClosesIff(s: State, parent: TaskId, t: TaskId)
    requires Inv(s) && Live(s, parent) && Live(s, t) && !s.tasks[t].runNow && parent != t
    ensures InCircle(InsertTask(s, parent, t), t)
            <==> !s.tasks[parent].isRunning && (Leads(s, parent, Moving(s, t)) || InCircle(s, parent))
  {
    InsertAdds(s, parent, t);
    ClosesIff(s, InsertTask(s, parent, t), parent, Moving(s, t), t);
  }

  /** A request that is repeated moves nothing. */
  lemma RepeatClosesNone(s: State, parent: TaskId, t: TaskId, x: TaskId)
    requires Live(s, parent) && Live(s, t) && s.tasks[t].runNow
    ensures InCircle(AppendTask(s, parent, t), x) <==> InCircle(s, x)
  {
    var s' := AppendTask(s, parent, t);
    assert forall y, z :: WaitsFor(s', y, z) <==> WaitsFor(s, y, z);
    forall C ensures Stuck(s', C) <==> Stuck(s, C) {
      assert forall y :: Waits(s', C, y) <==> Waits(s, C, y);
    }
  }

  /** The case of two: a task inserted after one that waits for it, and is not running. */
  lemma InsertAfterWaiter(s: State, parent: TaskId, t: TaskId)
    requires Inv(s) && Live(s, parent) && Live(s, t) && !s.tasks[t].runNow && parent != t
    requires parent in s.tasks[t].post && !s.tasks[parent].isRunning
    ensures InCircle(InsertTask(s, parent, t), t)
  {
    LeadsHere(s, parent, Moving(s, t));
    InsertClosesIff(s, parent, t);
  }
}
