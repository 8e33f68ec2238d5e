/**
 Deferral can close a circle: two tasks that are each turned away at an extent the other one has may end
 up waiting for each other, and then neither is ever started again.
 */
module Deadlock {

  import opened Common
  import opened Deferral
  import T = Tasks
  import L = NamedLocks
  import P = Progress
  import Circles

  // ----- When it happens

  /** The deferral closes a circle if and only if the task it is deferred to has ended its execution and
      waits, directly or through others, for one that waits for this task; or waits in a circle already. */
  lemma DeferClosesIff(s: State, w: Thread)
    requires Inv(s) && LockEnabled(s, L.Defer(w)) && !T.Requested(s.tasks, TaskOf(s.tasks, w))
    ensures var parent, t := Insertion(s, w).parent, TaskOf(s.tasks, w);
            P.InCircle(LockStep(s, L.Defer(w)).tasks, t)
            <==> !s.tasks.tasks[parent].isRunning
                 && (Circles.Leads(s.tasks, parent, Circles.Moving(s.tasks, t)) || P.InCircle(s.tasks, parent))
  {
    DeferEnabled(s, w);
    Circles.InsertClosesIff(s.tasks, Insertion(s, w).parent, TaskOf(s.tasks, w));
  }

  /** The case of two: the task it is deferred to waits for this one, and has ended its execution. */
  lemma DeferAfterWaiter(s: State, w: Thread, parent: TaskId, t: TaskId)
    requires Inv(s) && Deferred(s.locks, w) && Inside(s.tasks, w) && t == TaskOf(s.tasks, w) && !T.Requested(s.tasks, t)
    requires s.locks.pcs[w].owner in s.owners && s.owners[s.locks.pcs[w].owner] == parent
    requires parent in s.tasks.tasks && !s.tasks.tasks[parent].isRunning && parent in s.tasks.tasks[t].post
    ensures LockEnabled(s, L.Defer(w)) && P.InCircle(LockStep(s, L.Defer(w)).tasks, t)
  {
    DeferEnabled(s, w);
    Circles.LeadsHere(s.tasks, parent, Circles.Moving(s.tasks, t));
    DeferClosesIff(s, w);
  }

  lemma CircleStays(s: State, act: Action, C: set<TaskId>, t: TaskId)
    requires Inv(s) && Enabled(s, act) && P.Stuck(s.tasks, C) && t in C
    ensures P.Stuck(Step(s, act).tasks, C) && !Starts(s, act, t)
  {
    if act.Sched? {
      P.StuckStays(s.tasks, act.a, C);
      P.StuckNotStarted(s.tasks, act.a, C, t);
    } else if act.b.Defer? {
      P.StuckStays(s.tasks, Insertion(s, act.b.t), C);
    }
  }

  /** A task in a circle is never started again, whatever scheduler and locks do. */
  lemma {:induction false} NeverAgain(s: State, acts: seq<Action>, C: set<TaskId>, t: TaskId)
    requires Inv(s) && ValidRun(s, acts) && P.Stuck(s.tasks, C) && t in C
    ensures !StartsIn(s, acts, t)
    decreases |acts|
  {
    if acts != [] {
      CircleStays(s, acts[0], C, t);
      StepKeepsInv(s, acts[0]);
      NeverAgain(Step(s, acts[0]), acts[1..], C, t);
    }
  }

  // ----- A run in which it happens

  ghost predicate Reached(s: State) {
    exists acts :: ValidRun(INIT, acts) && After(INIT, acts) == s
  }

  lemma {:induction false} RunThen(s: State, acts: seq<Action>, act: Action)
    requires ValidRun(s, acts) && Enabled(After(s, acts), act)
    ensures ValidRun(s, acts + [act]) && After(s, acts + [act]) == Step(After(s, acts), act)
    decreases |acts|
  {
    var all := acts + [act];
    if acts == [] {
      assert all[1..] == [];
    } else {
      assert all[1..] == acts[1..] + [act];
      RunThen(Step(s, acts[0]), acts[1..], act);
    }
  }

  lemma ReachStep(s: State, act: Action, s': State)
    requires Reached(s) && Enabled(s, act) && s' == Step(s, act)
    ensures Reached(s')
  {
    var acts :| ValidRun(INIT, acts) && After(INIT, acts) == s;
    RunThen(INIT, acts, act);
  }

  lemma SchedStep(ts: T.State, ls: L.State, os: map<nat, TaskId>, a: T.Action, ts': T.State)
    requires Reached(State(ts, ls, os)) && T.Enabled(ts, a) && ts' == T.Step(ts, a) && !a.Destroy?
    requires a.ExecEnd? ==> a.w in ls.pcs ==> ls.pcs[a.w].Idle?
    ensures Reached(State(ts', ls, os))
  {
    ReachStep(State(ts, ls, os), Sched(a), State(ts', ls, os));
  }

  lemma PlainStep(ts: T.State, ls: L.State, os: map<nat, TaskId>, b: L.Action, ls': L.State)
    requires Reached(State(ts, ls, os)) && L.Enabled(ls, b) && ls' == L.Step(ls, b) && !b.TryLock? && !b.Defer?
    requires Actor(b).Some? ==> Inside(ts, Actor(b).value)
    ensures Reached(State(ts, ls', os))
  {
    ReachStep(State(ts, ls, os), Lock(b), State(ts, ls', os));
  }

  /** A thread makes the object of a name that is not in use. */
  lemma Make(ts: T.State, ls: L.State, os: map<nat, TaskId>, w: Thread, k: L.Key)
    requires Reached(State(ts, ls, os)) && Inside(ts, w) && w in ls.pcs && ls.pcs[w].Idle? && k !in ls.names && ls.locks == map[]
    ensures var n := ls.next;
            Reached(State(ts, L.State(ls.names[k := n], ls.values[n := L.Value(k, None)], ls.refs[n := n], map[], ls.pcs[w := L.Holding(k, n)], n + 1), os))
  {
    var n := ls.next;
    var l1 := ls.(pcs := ls.pcs[w := L.Wanting(k)]);
    PlainStep(ts, ls, os, L.Lookup(w, k), l1);
    var l2 := ls.(pcs := ls.pcs[w := L.Checking(k)], locks := map[k := w]);
    assert l1.pcs[w := L.Checking(k)] == l2.pcs;
    PlainStep(ts, l1, os, L.LockKey(w), l2);
    var l3 := l2.(pcs := ls.pcs[w := L.Calling(k)]);
    assert l2.pcs[w := L.Calling(k)] == l3.pcs;
    PlainStep(ts, l2, os, L.LookAgain(w), l3);
    MakeMore(ts, ls, os, w, k, l3);
  }

  lemma MakeMore(ts: T.State, ls: L.State, os: map<nat, TaskId>, w: Thread, k: L.Key, l3: L.State)
    requires l3 == ls.(pcs := ls.pcs[w := L.Calling(k)], locks := map[k := w]) && Reached(State(ts, l3, os)) && Inside(ts, w)
    ensures var n := ls.next;
            Reached(State(ts, L.State(ls.names[k := n], ls.values[n := L.Value(k, None)], ls.refs[n := n], map[], ls.pcs[w := L.Holding(k, n)], n + 1), os))
  {
    var n := ls.next;
    var l4 := L.State(ls.names, ls.values[n := L.Value(k, None)], ls.refs[n := n], map[k := w], ls.pcs[w := L.Created(k, n)], n + 1);
    assert l3.pcs[w := L.Created(k, n)] == l4.pcs;
    PlainStep(ts, l3, os, L.Create(w), l4);
    MakeLast(ts, l4, os, w, k, n);
    assert l4.pcs[w := L.Holding(k, n)] == ls.pcs[w := L.Holding(k, n)];
  }

  lemma MakeLast(ts: T.State, ls: L.State, os: map<nat, TaskId>, w: Thread, k: L.Key, n: nat)
    requires Reached(State(ts, ls, os)) && Inside(ts, w) && w in ls.pcs && ls.pcs[w] == L.Created(k, n)
    requires ls.locks == map[k := w] && n in ls.refs && ls.refs[n] == n
    ensures Reached(State(ts, ls.(names := ls.names[k := n], locks := map[], pcs := ls.pcs[w := L.Holding(k, n)]), os))
  {
    var l5 := ls.(names := ls.names[k := n], pcs := ls.pcs[w := L.Found(k, n)]);
    PlainStep(ts, ls, os, L.Insert(w), l5);
    var l6 := l5.(locks := map[], pcs := ls.pcs[w := L.Holding(k, n)]);
    assert l5.pcs[w := L.Holding(k, n)] == l6.pcs && l5.locks - {k} == l6.locks;
    PlainStep(ts, l5, os, L.UnlockKey(w), l6);
  }

  /** A thread gets the object of a name in use. */
  lemma Share(ts: T.State, ls: L.State, os: map<nat, TaskId>, w: Thread, k: L.Key, h: nat)
    requires Reached(State(ts, ls, os)) && Inside(ts, w) && w in ls.pcs && ls.pcs[w].Idle?
    requires k in ls.names && h in ls.refs && ls.refs[h] == ls.names[k]
    ensures Reached(State(ts, ls.(refs := ls.refs[ls.next := ls.names[k]], pcs := ls.pcs[w := L.Holding(k, ls.next)], next := ls.next + 1), os))
  {
    assert L.LiveAt(ls, k);
    PlainStep(ts, ls, os, L.Lookup(w, k), L.Step(ls, L.Lookup(w, k)));
  }

  ghost predicate NoneDeferred(ls: L.State) {
    forall u :: !Deferred(ls, u)
  }

  /** A thread that has the object, which has no owner, becomes its owner. */
  lemma Grant(ts: T.State, ls: L.State, os: map<nat, TaskId>, w: Thread, k: L.Key, h: nat, v: nat)
    requires Reached(State(ts, ls, os)) && Inside(ts, w) && w in ls.pcs && ls.pcs[w] == L.Holding(k, h) && NoneDeferred(ls)
    requires h in ls.refs && ls.refs[h] == v && v in ls.values && ls.values[v].owner == None
    ensures Reached(State(ts, ls.(values := ls.values[v := ls.values[v].(owner := Some(ls.next))],
                                  pcs := ls.pcs[w := L.Scanning(k, h, ls.next)], next := ls.next + 1), os[ls.next := TaskOf(ts, w)]))
  {
    var s := State(ts, ls, os);
    ReachStep(s, Lock(L.TryLock(w)), Step(s, Lock(L.TryLock(w))));
  }

  /** A thread that has the object is turned away by the owner u. */
  lemma TurnAway(ts: T.State, ls: L.State, os: map<nat, TaskId>, w: Thread, k: L.Key, h: nat, u: Thread)
    requires Reached(State(ts, ls, os)) && Inside(ts, w) && w in ls.pcs && ls.pcs[w] == L.Holding(k, h) && NoneDeferred(ls)
    requires h in ls.refs && ls.refs[h] in ls.values && Scans(ls, u) && ls.values[ls.refs[h]].owner == Some(ls.pcs[u].owner)
    ensures Reached(State(ts, ls.(pcs := ls.pcs[w := L.Deferring(k, h, ls.pcs[u].owner)]), os))
  {
    var s := State(ts, ls, os);
    assert L.OwnerLive(ls, ls.pcs[u].owner);
    ReachStep(s, Lock(L.TryLock(w)), Step(s, Lock(L.TryLock(w))));
  }

  /** A thread that scans gives the extent back. */
  lemma Leave(ts: T.State, ls: L.State, os: map<nat, TaskId>, w: Thread)
    requires Reached(State(ts, ls, os)) && Inside(ts, w) && Scans(ls, w)
    ensures Reached(State(ts, ls.(refs := ls.refs - {ls.pcs[w].handle}, pcs := ls.pcs[w := L.Idle]), os))
  {
    var l1 := L.Step(ls, L.Release(w));
    PlainStep(ts, ls, os, L.Release(w), l1);
    assert l1.pcs[w := L.Idle] == ls.pcs[w := L.Idle];
    PlainStep(ts, l1, os, L.Drop(w), L.Step(l1, L.Drop(w)));
  }

  /** The deferral itself. */
  lemma Hand(ts: T.State, ls: L.State, os: map<nat, TaskId>, w: Thread, parent: TaskId, ts': T.State)
    requires Reached(State(ts, ls, os)) && Inside(ts, w) && Deferred(ls, w)
    requires ls.pcs[w].owner in os && os[ls.pcs[w].owner] == parent && T.Live(ts, parent) && ts' == T.Step(ts, T.Insert(parent, TaskOf(ts, w)))
    ensures Reached(State(ts', ls.(refs := ls.refs - {ls.pcs[w].handle}, pcs := ls.pcs[w := L.Idle]), os))
  {
    var s := State(ts, ls, os);
    ReachStep(s, Lock(L.Defer(w)), Step(s, Lock(L.Defer(w))));
  }

  // The two tasks are 1 and 2, run by workers 0 and 1; the extents are 10 and 20.

  const NEW := T.NEW_TASK
  const BUSY := T.NEW_TASK.(isRunning := true)

  function Queued(): T.State {
    T.State(map[1 := NEW.(runNow := true), 2 := NEW.(runNow := true)], [1, 2], [], map[], 2)
  }

  lemma ReachQueued()
    ensures Reached(State(Queued(), L.INIT, map[]))
  {
    assert ValidRun(INIT, []) && After(INIT, []) == INIT;
    var t1 := T.State(map[1 := NEW], [], [], map[], 1);
    SchedStep(T.INIT, L.INIT, map[], T.Create, t1);
    var t2 := T.State(map[1 := NEW, 2 := NEW], [], [], map[], 2);
    SchedStep(t1, L.INIT, map[], T.Create, t2);
    var t3 := T.State(map[1 := NEW.(runNow := true), 2 := NEW], [1], [], map[], 2);
    SchedStep(t2, L.INIT, map[], T.Run(1), t3);
    SchedStep(t3, L.INIT, map[], T.Run(2), Queued());
  }

  function OneBusy(): T.State {
    T.State(map[1 := BUSY, 2 := NEW.(runNow := true)], [2], [], map[0 := T.Worker(T.Running(1), [])], 2)
  }

  lemma ReachOneBusy()
    ensures Reached(State(OneBusy(), L.INIT, map[]))
  {
    ReachQueued();
    var t1 := Queued().(workers := map[0 := T.Worker(T.Waiting, [])]);
    SchedStep(Queued(), L.INIT, map[], T.StartWorker(0), t1);
    var t2 := t1.(queue := [2], workers := map[0 := T.Worker(T.Popped(1), [])]);
    assert [1, 2][1..] == [2];
    SchedStep(t1, L.INIT, map[], T.Pop(0), t2);
    SchedStep(t2, L.INIT, map[], T.ExecStart(0), OneBusy());
  }

  function BothBusy(): T.State {
    T.State(map[1 := BUSY, 2 := BUSY], [], [], map[0 := T.Worker(T.Running(1), []), 1 := T.Worker(T.Running(2), [])], 2)
  }

  function TwoPopped(): T.State {
    OneBusy().(queue := [], workers := map[0 := T.Worker(T.Running(1), []), 1 := T.Worker(T.Popped(2), [])])
  }

  lemma ReachTwoPopped()
    ensures Reached(State(TwoPopped(), L.INIT, map[]))
  {
    ReachOneBusy();
    var t1 := OneBusy().(workers := map[0 := T.Worker(T.Running(1), []), 1 := T.Worker(T.Waiting, [])]);
    SchedStep(OneBusy(), L.INIT, map[], T.StartWorker(1), t1);
    assert [2][1..] == [];
    SchedStep(t1, L.INIT, map[], T.Pop(1), TwoPopped());
  }

  lemma ReachBothBusy()
    ensures Reached(State(BothBusy(), L.INIT, map[]))
  {
    ReachTwoPopped();
    SchedStep(TwoPopped(), L.INIT, map[], T.ExecStart(1), BothBusy());
  }

  /** Task 2 has extent 10, task 1 has nothing. */
  function TwoScans(): L.State {
    L.State(map[10 := 0], map[0 := L.Value(10, Some(1))], map[0 := 0], map[], map[0 := L.Idle, 1 := L.Scanning(10, 0, 1)], 2)
  }

  function TwoHolds(): L.State {
    L.State(map[10 := 0], map[0 := L.Value(10, None)], map[0 := 0], map[], map[0 := L.Idle, 1 := L.Holding(10, 0)], 1)
  }

  lemma ReachTwoHolds()
    ensures Reached(State(BothBusy(), TwoHolds(), map[]))
  {
    ReachBothBusy();
    var l1 := L.INIT.(pcs := map[0 := L.Idle]);
    PlainStep(BothBusy(), L.INIT, map[], L.Start(0), l1);
    var l2 := L.INIT.(pcs := map[0 := L.Idle, 1 := L.Idle]);
    PlainStep(BothBusy(), l1, map[], L.Start(1), l2);
    Make(BothBusy(), l2, map[], 1, 10);
    assert l2.pcs[1 := L.Holding(10, 0)] == TwoHolds().pcs;
  }

  lemma ReachTwoScans()
    ensures Reached(State(BothBusy(), TwoScans(), map[1 := 2]))
  {
    ReachTwoHolds();
    Grant(BothBusy(), TwoHolds(), map[], 1, 10, 0, 0);
    assert TwoHolds().pcs[1 := L.Scanning(10, 0, 1)] == TwoScans().pcs;
    assert TwoHolds().values[0 := L.Value(10, Some(1))] == TwoScans().values;
  }

  /** Task 1 was turned away at extent 10. */
  function OneWaits(): T.State {
    BothBusy().(tasks := map[1 := BUSY.(runNow := true), 2 := BUSY.(post := [1], sortQueue := true)])
  }

  lemma OneIsInserted()
    ensures T.InsertTask(BothBusy(), 2, 1) == OneWaits()
  {
    var s, s' := BothBusy(), T.InsertTask(BothBusy(), 2, 1);
    T.InsertSplits(s, 2, 1);
    assert s'.tasks.Keys == {1, 2} && s'.tasks[1] == OneWaits().tasks[1];
    assert s'.tasks[2] == OneWaits().tasks[2];
  }

  lemma ReachOneWaits()
    ensures Reached(State(OneWaits(), TwoScans().(next := 3), map[1 := 2]))
  {
    ReachTwoScans();
    Share(BothBusy(), TwoScans(), map[1 := 2], 0, 10, 0);
    var l1 := TwoScans().(refs := map[0 := 0, 2 := 0], pcs := map[0 := L.Holding(10, 2), 1 := L.Scanning(10, 0, 1)], next := 3);
    assert TwoScans().refs[2 := 0] == l1.refs && TwoScans().pcs[0 := L.Holding(10, 2)] == l1.pcs;
    TurnAway(BothBusy(), l1, map[1 := 2], 0, 10, 2, 1);
    var l2 := l1.(pcs := map[0 := L.Deferring(10, 2, 1), 1 := L.Scanning(10, 0, 1)]);
    assert l1.pcs[0 := L.Deferring(10, 2, 1)] == l2.pcs;
    OneIsDeferred(l2);
  }

  lemma OneIsDeferred(l2: L.State)
    requires l2 == TwoScans().(refs := map[0 := 0, 2 := 0], pcs := map[0 := L.Deferring(10, 2, 1), 1 := L.Scanning(10, 0, 1)], next := 3)
    requires Reached(State(BothBusy(), l2, map[1 := 2]))
    ensures Reached(State(OneWaits(), TwoScans().(next := 3), map[1 := 2]))
  {
    OneIsInserted();
    Hand(BothBusy(), l2, map[1 := 2], 0, 2, OneWaits());
    assert l2.refs - {2} == map[0 := 0] && l2.pcs[0 := L.Idle] == TwoScans().pcs;
  }

  /** Task 1 has extent 20, task 2 has given extent 10 back. */
  function OneScans(): L.State {
    L.State(map[10 := 0, 20 := 3], map[0 := L.Value(10, Some(1)), 3 := L.Value(20, Some(4))], map[3 := 3], map[],
            map[0 := L.Scanning(20, 3, 4), 1 := L.Idle], 5)
  }

  lemma ReachOneScans()
    ensures Reached(State(OneWaits(), OneScans(), map[1 := 2, 4 := 1]))
  {
    ReachOneWaits();
    var l1 := TwoScans().(next := 3);
    Make(OneWaits(), l1, map[1 := 2], 0, 20);
    var l2 := L.State(map[10 := 0, 20 := 3], map[0 := L.Value(10, Some(1)), 3 := L.Value(20, None)], map[0 := 0, 3 := 3], map[],
                      map[0 := L.Holding(20, 3), 1 := L.Scanning(10, 0, 1)], 4);
    assert l1.pcs[0 := L.Holding(20, 3)] == l2.pcs && l1.names[20 := 3] == l2.names && l1.refs[3 := 3] == l2.refs;
    assert l1.values[3 := L.Value(20, None)] == l2.values;
    OneIsGranted(l2);
  }

  function BothScan(): L.State {
    L.State(map[10 := 0, 20 := 3], map[0 := L.Value(10, Some(1)), 3 := L.Value(20, Some(4))], map[0 := 0, 3 := 3], map[],
            map[0 := L.Scanning(20, 3, 4), 1 := L.Scanning(10, 0, 1)], 5)
  }

  lemma OneIsGranted(l2: L.State)
    requires l2 == L.State(map[10 := 0, 20 := 3], map[0 := L.Value(10, Some(1)), 3 := L.Value(20, None)], map[0 := 0, 3 := 3], map[],
                           map[0 := L.Holding(20, 3), 1 := L.Scanning(10, 0, 1)], 4)
    requires Reached(State(OneWaits(), l2, map[1 := 2]))
    ensures Reached(State(OneWaits(), OneScans(), map[1 := 2, 4 := 1]))
  {
    Grant(OneWaits(), l2, map[1 := 2], 0, 20, 3, 3);
    var l3 := l2.(values := l2.values[3 := L.Value(20, Some(4))], pcs := l2.pcs[0 := L.Scanning(20, 3, 4)], next := 5);
    assert l3.values == BothScan().values && l3.pcs == BothScan().pcs;
    assert l3 == BothScan() && map[1 := 2][4 := 1] == map[1 := 2, 4 := 1];
    TwoLeaves();
  }

  lemma TwoLeaves()
    requires Reached(State(OneWaits(), BothScan(), map[1 := 2, 4 := 1]))
    ensures Reached(State(OneWaits(), OneScans(), map[1 := 2, 4 := 1]))
  {
    Leave(OneWaits(), BothScan(), map[1 := 2, 4 := 1], 1);
    assert BothScan().refs - {0} == map[3 := 3] && BothScan().pcs[1 := L.Idle] == OneScans().pcs;
  }

  /** Task 2 is turned away at extent 20, and before it is deferred task 1 gives it back and ends. */
  function Ended(): T.State {
    OneWaits().(tasks := map[1 := NEW.(runNow := true), 2 := BUSY.(post := [1], sortQueue := true)],
                workers := map[0 := T.Worker(T.Finished(1), []), 1 := T.Worker(T.Running(2), [])])
  }

  function LastTurnedAway(): L.State {
    OneScans().(refs := map[5 := 3], pcs := map[0 := L.Idle, 1 := L.Deferring(20, 5, 4)], next := 6)
  }

  function TwoAsks(): L.State {
    OneScans().(refs := map[3 := 3, 5 := 3], pcs := map[0 := L.Scanning(20, 3, 4), 1 := L.Holding(20, 5)], next := 6)
  }

  lemma ReachTwoAsks()
    ensures Reached(State(OneWaits(), TwoAsks(), map[1 := 2, 4 := 1]))
  {
    ReachOneScans();
    Share(OneWaits(), OneScans(), map[1 := 2, 4 := 1], 1, 20, 3);
    assert OneScans().refs[5 := 3] == TwoAsks().refs && OneScans().pcs[1 := L.Holding(20, 5)] == TwoAsks().pcs;
  }

  lemma ReachTurnedAway()
    ensures Reached(State(OneWaits(), LastTurnedAway(), map[1 := 2, 4 := 1]))
  {
    ReachTwoAsks();
    TurnAway(OneWaits(), TwoAsks(), map[1 := 2, 4 := 1], 1, 20, 5, 0);
    var l2 := TwoAsks().(pcs := map[0 := L.Scanning(20, 3, 4), 1 := L.Deferring(20, 5, 4)]);
    assert TwoAsks().pcs[1 := L.Deferring(20, 5, 4)] == l2.pcs;
    OneLeaves(l2);
  }

  lemma OneLeaves(l2: L.State)
    requires l2 == OneScans().(refs := map[3 := 3, 5 := 3], pcs := map[0 := L.Scanning(20, 3, 4), 1 := L.Deferring(20, 5, 4)], next := 6)
    requires Reached(State(OneWaits(), l2, map[1 := 2, 4 := 1]))
    ensures Reached(State(OneWaits(), LastTurnedAway(), map[1 := 2, 4 := 1]))
  {
    Leave(OneWaits(), l2, map[1 := 2, 4 := 1], 0);
    assert l2.refs - {3} == map[5 := 3] && l2.pcs[0 := L.Idle] == LastTurnedAway().pcs;
  }

  lemma OneEnds()
    ensures T.Enabled(OneWaits(), T.ExecEnd(0)) && T.Step(OneWaits(), T.ExecEnd(0)) == Ended()
  {
    assert T.EndExec(OneWaits(), 0).tasks == Ended().tasks && T.EndExec(OneWaits(), 0).workers == Ended().workers;
  }

  lemma ReachEnded()
    ensures Reached(State(Ended(), LastTurnedAway(), map[1 := 2, 4 := 1]))
  {
    ReachTurnedAway();
    OneEnds();
    SchedStep(OneWaits(), LastTurnedAway(), map[1 := 2, 4 := 1], T.ExecEnd(0), Ended());
  }

  /** There is a run from the beginning after which the deferral of a task closes a circle, and the task is
      never started again, whatever follows. */
  lemma DeferralCanDeadlock() returns (acts: seq<Action>, w: Thread)
    ensures ValidRun(INIT, acts) && Enabled(After(INIT, acts), Lock(L.Defer(w)))
    ensures var s := After(INIT, acts);
            var s' := Step(s, Lock(L.Defer(w)));
            && P.InCircle(s'.tasks, TaskOf(s.tasks, w))
            && forall rest :: ValidRun(s', rest) ==> !StartsIn(s', rest, TaskOf(s.tasks, w))
  {
    ReachEnded();
    acts :| ValidRun(INIT, acts) && After(INIT, acts) == State(Ended(), LastTurnedAway(), map[1 := 2, 4 := 1]);
    w := 1;
    InitInv();
    RunKeepsInv(INIT, acts);
    ClosesForever(After(INIT, acts), w);
  }

  lemma ClosesForever(s: State, w: Thread)
    requires s == State(Ended(), LastTurnedAway(), map[1 := 2, 4 := 1]) && Inv(s) && w == 1
    ensures LockEnabled(s, L.Defer(w)) && Inside(s.tasks, w)
    ensures var s' := LockStep(s, L.Defer(w));
            && P.InCircle(s'.tasks, TaskOf(s.tasks, w))
            && forall rest :: ValidRun(s', rest) ==> !StartsIn(s', rest, TaskOf(s.tasks, w))
  {
    DeferAfterWaiter(s, w, 1, 2);
    LockKeepsInv(s, L.Defer(w));
    CircleIsForever(LockStep(s, L.Defer(w)), TaskOf(s.tasks, w));
  }

  lemma CircleIsForever(s: State, t: TaskId)
    requires Inv(s) && P.InCircle(s.tasks, t)
    ensures forall rest :: ValidRun(s, rest) ==> !StartsIn(s, rest, t)
  {
    var C :| t in C && P.Stuck(s.tasks, C);
    forall rest | ValidRun(s, rest) ensures !StartsIn(s, rest, t) { NeverAgain(s, rest, C, t); }
  }
}
