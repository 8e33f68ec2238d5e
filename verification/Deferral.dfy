/**
 The scheduler and the lock on an extent together: a worker that is turned away by Exclusion::try_lock
 (lib/task.cc) has its task inserted after the task that scans the extent.  The threads of NamedLocks
 are the workers of Tasks.
 */
module Deferral {

  import opened Common
  import Tasks
  import NamedLocks

  type TaskId = Tasks.TaskId
  type Thread = NamedLocks.Thread

  /** `owners` is the Task that the shared pointer of each owner holds. */
  datatype State = State(tasks: Tasks.State, locks: NamedLocks.State, owners: map<nat, TaskId>)

  const INIT := State(Tasks.INIT, NamedLocks.INIT, map[])

  datatype Action = Sched(a: Tasks.Action) | Lock(b: NamedLocks.Action)

  /** The worker is inside the function of a task. */
  predicate Inside(s: Tasks.State, w: Thread) {
    w in s.workers && s.workers[w].phase.Running? && Tasks.Live(s, s.workers[w].phase.task)
  }

  function TaskOf(s: Tasks.State, w: Thread): TaskId
    requires Inside(s, w)
  {
    s.workers[w].phase.task
  }

  predicate Deferred(s: NamedLocks.State, w: Thread) {
    w in s.pcs && s.pcs[w].Deferring?
  }

  predicate Scans(s: NamedLocks.State, w: Thread) {
    w in s.pcs && s.pcs[w].Scanning?
  }

  /** The thread that takes a step, if it has to be inside a task for it. */
  function Actor(b: NamedLocks.Action): Option<Thread> {
    match b
    case Start(_) | Copy(_) | DropCopy(_) | Destroy(_) => None
    case _ => Some(b.t)
  }

  predicate SchedEnabled(s: State, a: Tasks.Action) {
    && Tasks.Enabled(s.tasks, a)
    // A task's function returns only after it has let go of its locks.
    && (a.ExecEnd? ==> a.w in s.locks.pcs ==> s.locks.pcs[a.w].Idle?)
    // An owner holds its task.
    && (a.Destroy? ==> forall o :: o in s.owners && NamedLocks.OwnerLive(s.locks, o) ==> s.owners[o] != a.t)
  }

  predicate LockEnabled(s: State, b: NamedLocks.Action) {
    && NamedLocks.Enabled(s.locks, b)
    && (Actor(b).Some? ==> Inside(s.tasks, Actor(b).value))
    // The Exclusion's mutex is held until the insertion is done.
    && (b.TryLock? ==> forall u :: u in s.locks.pcs && Deferred(s.locks, u) ==> NamedLocks.ValueOf(s.locks, u) != NamedLocks.ValueOf(s.locks, b.t))
    // What insert demands; DeferralSucceeds shows that it always holds.
    && (b.Defer? ==> var o := s.locks.pcs[b.t].owner;
          o in s.owners && Tasks.Enabled(s.tasks, Tasks.Insert(s.owners[o], TaskOf(s.tasks, b.t))))
  }

  predicate Enabled(s: State, act: Action) {
    match act
    case Sched(a) => SchedEnabled(s, a)
    case Lock(b) => LockEnabled(s, b)
  }

  /** sp->insert(task) */
  function Insertion(s: State, w: Thread): Tasks.Action
    requires LockEnabled(s, NamedLocks.Defer(w))
  {
    Tasks.Insert(s.owners[s.locks.pcs[w].owner], TaskOf(s.tasks, w))
  }

  function LockStep(s: State, b: NamedLocks.Action): State
    requires LockEnabled(s, b)
  {
    var locks := NamedLocks.Step(s.locks, b);
    if b.TryLock? && locks.pcs[b.t].Scanning? then
      State(s.tasks, locks, s.owners[locks.pcs[b.t].owner := TaskOf(s.tasks, b.t)])
    else if b.Defer? then State(Tasks.Step(s.tasks, Insertion(s, b.t)), locks, s.owners)
    else State(s.tasks, locks, s.owners)
  }

  function Step(s: State, act: Action): State
    requires Enabled(s, act)
  {
    match act
    case Sched(a) => State(Tasks.Step(s.tasks, a), s.locks, s.owners)
    case Lock(b) => LockStep(s, b)
  }

  // ----- The invariant

  ghost predicate BusyOk(s: State) {
    forall w :: w in s.locks.pcs && !s.locks.pcs[w].Idle? ==> Inside(s.tasks, w)
  }

  /** The task of an owner is the one that scans, and exists while any thread is being deferred to it. */
  ghost predicate OwnersOk(s: State) {
    && (forall w :: Scans(s.locks, w) ==>
          Inside(s.tasks, w) && s.locks.pcs[w].owner in s.owners && s.owners[s.locks.pcs[w].owner] == TaskOf(s.tasks, w))
    && (forall w :: Deferred(s.locks, w) ==>
          && Inside(s.tasks, w) && s.locks.pcs[w].owner in s.owners
          && Tasks.Live(s.tasks, s.owners[s.locks.pcs[w].owner]) && s.owners[s.locks.pcs[w].owner] != TaskOf(s.tasks, w))
  }

  ghost predicate Inv(s: State) {
    && Tasks.Inv(s.tasks) && NamedLocks.Inv(s.locks)
    && BusyOk(s) && OwnersOk(s)
  }

  // ----- What steps of the scheduler leave alone

  lemma RescueKeepsTask(s: Tasks.State, from: Tasks.Place, sort: bool, at: Option<Tasks.WorkerId>, t: TaskId)
    requires (from.Local? && from.w in s.workers) || (from.Post? && from.t in s.tasks)
    requires at.Some? ==> at.value in s.workers
    requires Tasks.Live(s, t) && t <= s.lastId
    ensures Tasks.Live(Tasks.Rescue(s, from, sort, at), t)
  {
  }

  lemma RescueKeepsPhase(s: Tasks.State, from: Tasks.Place, sort: bool, at: Option<Tasks.WorkerId>, w: Thread)
    requires (from.Local? && from.w in s.workers) || (from.Post? && from.t in s.tasks)
    requires (at.Some? ==> at.value in s.workers) && w in s.workers
    ensures var s' := Tasks.Rescue(s, from, sort, at); w in s'.workers && s'.workers[w].phase == s.workers[w].phase
  {
  }

  lemma RescueKeepsLive(s: Tasks.State, from: Tasks.Place, sort: bool, at: Option<Tasks.WorkerId>, t: TaskId, w: Thread)
    requires (from.Local? && from.w in s.workers) || (from.Post? && from.t in s.tasks)
    requires at.Some? ==> at.value in s.workers
    requires Tasks.Live(s, t) && t <= s.lastId
    ensures Tasks.Live(Tasks.Rescue(s, from, sort, at), t)
    ensures w in s.workers ==> var s' := Tasks.Rescue(s, from, sort, at);
            w in s'.workers && s'.workers[w].phase == s.workers[w].phase
  {
    RescueKeepsTask(s, from, sort, at, t);
    if w in s.workers { RescueKeepsPhase(s, from, sort, at, w); }
  }

  lemma EndKeepsLive(s: Tasks.State, v: Tasks.WorkerId, t: TaskId, w: Thread)
    requires Tasks.Enabled(s, Tasks.ExecEnd(v)) && Tasks.Live(s, t) && t <= s.lastId && w != v
    ensures var s' := Tasks.Step(s, Tasks.ExecEnd(v));
            Tasks.Live(s', t) && (w in s.workers ==> w in s'.workers && s'.workers[w].phase == s.workers[w].phase)
  {
    var x := s.workers[v].phase.task;
    var s1 := Tasks.Requeue(Tasks.SetPhase(Tasks.SetTask(s, x, s.tasks[x].(isRunning := false)), v, Tasks.Finished(x)), x);
    assert Tasks.Live(s1, t) && s1.lastId == s.lastId;
    assert w in s.workers ==> w in s1.workers && s1.workers[w].phase == s.workers[w].phase;
    RescueKeepsLive(s1, Tasks.Post(x), s.tasks[x].sortQueue, Some(v), t, w);
  }

  lemma InsertKeepsLive(s: Tasks.State, parent: TaskId, x: TaskId, t: TaskId)
    requires Tasks.Live(s, parent) && Tasks.Live(s, x) && Tasks.Live(s, t) && parent != x
    ensures Tasks.Live(Tasks.InsertTask(s, parent, x), t) && Tasks.InsertTask(s, parent, x).workers == s.workers
  {
  }

  lemma RequestKeepsLive(s: Tasks.State, a: Tasks.Action, t: TaskId)
    requires Tasks.Enabled(s, a) && Tasks.Live(s, t) && (a.Run? || a.Idle? || a.Append? || a.Insert?)
    ensures Tasks.Live(Tasks.Step(s, a), t) && Tasks.Step(s, a).workers == s.workers
  {
    if a.Insert? && a.parent != a.t { InsertKeepsLive(s, a.parent, a.t, t); }
  }

  /** A task exists until it is destroyed. */
  lemma LiveStays(s: Tasks.State, a: Tasks.Action, t: TaskId)
    requires Tasks.Inv(s) && Tasks.Enabled(s, a) && Tasks.Live(s, t) && !(a.Destroy? && a.t == t)
    ensures Tasks.Live(Tasks.Step(s, a), t)
  {
    assert Tasks.TaskOk(s, t);
    KeepsLive(s, a, t);
  }

  lemma KeepsLive(s: Tasks.State, a: Tasks.Action, t: TaskId)
    requires Tasks.Enabled(s, a) && Tasks.Live(s, t) && t <= s.lastId && !(a.Destroy? && a.t == t)
    ensures Tasks.Live(Tasks.Step(s, a), t)
  {
    match a
    case ExecEnd(v) => EndKeepsLive(s, v, t, v + 1);
    case ExitWorker(v) => RescueKeepsLive(s, Tasks.Local(v), false, None, t, v);
    case Destroy(x, at) => RescueKeepsLive(s, Tasks.Post(x), s.tasks[x].sortQueue, at, t, 0);
    case Run(_) => RequestKeepsLive(s, a, t);
    case Idle(_) => RequestKeepsLive(s, a, t);
    case Append(_, _) => RequestKeepsLive(s, a, t);
    case Insert(_, _) => RequestKeepsLive(s, a, t);
    case _ =>
  }

  /** A worker inside a task stays there until the end of exec. */
  lemma InsideStays(s: Tasks.State, a: Tasks.Action, w: Thread)
    requires Tasks.Inv(s) && Tasks.Enabled(s, a) && Inside(s, w) && a != Tasks.ExecEnd(w)
    ensures Inside(Tasks.Step(s, a), w) && TaskOf(Tasks.Step(s, a), w) == TaskOf(s, w)
  {
    var t := TaskOf(s, w);
    assert Tasks.TaskOk(s, t);
    if a.Destroy? { assert Tasks.Referenced(s, t); }
    KeepsLive(s, a, t);
    KeepsPhase(s, a, w, t);
  }

  lemma KeepsPhase(s: Tasks.State, a: Tasks.Action, w: Thread, t: TaskId)
    requires Tasks.Enabled(s, a) && w in s.workers && s.workers[w].phase == Tasks.Running(t) && a != Tasks.ExecEnd(w)
    requires Tasks.Live(s, t) && t <= s.lastId
    ensures var s' := Tasks.Step(s, a); w in s'.workers && s'.workers[w].phase == Tasks.Running(t)
  {
    match a
    case ExecEnd(v) => EndKeepsLive(s, v, t, w);
    case ExitWorker(v) => RescueKeepsLive(s, Tasks.Local(v), false, None, t, w);
    case Destroy(x, at) => RescueKeepsLive(s, Tasks.Post(x), s.tasks[x].sortQueue, at, t, w);
    case Run(_) => RequestKeepsLive(s, a, t);
    case Idle(_) => RequestKeepsLive(s, a, t);
    case Append(_, _) => RequestKeepsLive(s, a, t);
    case Insert(_, _) => RequestKeepsLive(s, a, t);
    case _ =>
  }

  // ----- Every step keeps the invariant

  /** Who is turned away is turned away by a thread that scans. */
  lemma TurnedAway(s: State, w: Thread, l: NamedLocks.State)
    requires NamedLocks.HandlesOk(s.locks) && NamedLocks.OwnersOk(s.locks)
    requires LockEnabled(s, NamedLocks.TryLock(w)) && l == NamedLocks.Step(s.locks, NamedLocks.TryLock(w)) && Deferred(l, w)
    ensures exists u :: Scans(s.locks, u) && u != w && s.locks.pcs[u].owner == l.pcs[w].owner
  {
    var o := l.pcs[w].owner;
    var u :| u in s.locks.pcs && (s.locks.pcs[u].Scanning? || s.locks.pcs[u].Deferring?) && s.locks.pcs[u].owner == o;
    assert Scans(s.locks, u);
  }

  /** No step of the scheduler takes a busy worker out of its task, or a task from who is deferred to it. */
  lemma SchedFrame(s: State, a: Tasks.Action, ts: Tasks.State)
    requires Inv(s) && SchedEnabled(s, a) && ts == Tasks.Step(s.tasks, a)
    ensures forall w :: w in s.locks.pcs && !s.locks.pcs[w].Idle? ==> Inside(ts, w) && TaskOf(ts, w) == TaskOf(s.tasks, w)
    ensures forall w :: Deferred(s.locks, w) ==> Tasks.Live(ts, s.owners[s.locks.pcs[w].owner])
  {
    forall w | w in s.locks.pcs && !s.locks.pcs[w].Idle? ensures Inside(ts, w) && TaskOf(ts, w) == TaskOf(s.tasks, w) {
      InsideStays(s.tasks, a, w);
    }
    forall w | Deferred(s.locks, w) ensures Tasks.Live(ts, s.owners[s.locks.pcs[w].owner]) {
      assert NamedLocks.OwnerLive(s.locks, s.locks.pcs[w].owner);
      LiveStays(s.tasks, a, s.owners[s.locks.pcs[w].owner]);
    }
  }

  lemma SchedKeepsOwners(s: State, a: Tasks.Action)
    requires Inv(s) && SchedEnabled(s, a)
    ensures BusyOk(Step(s, Sched(a))) && OwnersOk(Step(s, Sched(a)))
  {
    SchedFrame(s, a, Tasks.Step(s.tasks, a));
  }

  lemma SchedKeepsInv(s: State, a: Tasks.Action)
    requires Inv(s) && SchedEnabled(s, a)
    ensures Inv(Step(s, Sched(a)))
  {
    Tasks.StepKeepsInv(s.tasks, a);
    SchedKeepsOwners(s, a);
  }

  /** The steps of a lock that do not end a deferral: no task moves. */
  lemma LockKeepsBusy(s: State, b: NamedLocks.Action)
    requires Inv(s) && LockEnabled(s, b) && !b.Defer?
    ensures BusyOk(Step(s, Lock(b)))
  {
    var s' := Step(s, Lock(b));
    forall w | w in s'.locks.pcs && !s'.locks.pcs[w].Idle? ensures Inside(s'.tasks, w) {
      if Actor(b) != Some(w) { OldPlace(s.locks, b, w); }
    }
  }

  lemma OldPlace(s: NamedLocks.State, b: NamedLocks.Action, w: Thread)
    requires NamedLocks.Enabled(s, b) && Actor(b) != Some(w) && w in NamedLocks.Step(s, b).pcs && !NamedLocks.Step(s, b).pcs[w].Idle?
    ensures w in s.pcs && s.pcs[w] == NamedLocks.Step(s, b).pcs[w]
  {
  }

  lemma NewlyDeferred(s: NamedLocks.State, b: NamedLocks.Action, w: Thread)
    requires NamedLocks.Enabled(s, b) && Actor(b) == Some(w) && Deferred(NamedLocks.Step(s, b), w)
    ensures b.TryLock?
  {
  }

  lemma NewlyScans(s: NamedLocks.State, b: NamedLocks.Action, w: Thread)
    requires NamedLocks.Enabled(s, b) && Actor(b) == Some(w) && Scans(NamedLocks.Step(s, b), w)
    ensures b.TryLock? && NamedLocks.Step(s, b).pcs[w].owner == s.next
  {
  }

  /** What OwnersOk says of one thread. */
  ghost predicate OwnerOk(s: State, w: Thread) {
    && (Scans(s.locks, w) ==>
          Inside(s.tasks, w) && s.locks.pcs[w].owner in s.owners && s.owners[s.locks.pcs[w].owner] == TaskOf(s.tasks, w))
    && (Deferred(s.locks, w) ==>
          && Inside(s.tasks, w) && s.locks.pcs[w].owner in s.owners
          && Tasks.Live(s.tasks, s.owners[s.locks.pcs[w].owner]) && s.owners[s.locks.pcs[w].owner] != TaskOf(s.tasks, w))
  }

  lemma TurnedAwayOk(s: State, w: Thread, l: NamedLocks.State)
    requires Inv(s) && LockEnabled(s, NamedLocks.TryLock(w)) && l == NamedLocks.Step(s.locks, NamedLocks.TryLock(w))
    ensures Deferred(l, w) ==> OwnerOk(State(s.tasks, l, s.owners), w)
  {
    if Deferred(l, w) {
      TurnedAway(s, w, l);
      var u :| Scans(s.locks, u) && u != w && s.locks.pcs[u].owner == l.pcs[w].owner;
      OtherTask(s, u, w);
    }
  }

  lemma OtherTask(s: State, u: Thread, w: Thread)
    requires Inv(s) && Scans(s.locks, u) && u != w && Inside(s.tasks, w)
    ensures s.locks.pcs[u].owner in s.owners && Tasks.Live(s.tasks, s.owners[s.locks.pcs[u].owner])
    ensures Inside(s.tasks, u) && s.owners[s.locks.pcs[u].owner] == TaskOf(s.tasks, u) != TaskOf(s.tasks, w)
  {
    assert s.tasks.workers[u].phase != s.tasks.workers[w].phase;
  }

  lemma LockKeepsOwner(s: State, b: NamedLocks.Action, w: Thread)
    requires Inv(s) && LockEnabled(s, b) && !b.Defer?
    ensures OwnerOk(Step(s, Lock(b)), w)
  {
    var s' := Step(s, Lock(b));
    if Scans(s'.locks, w) || Deferred(s'.locks, w) {
      if Actor(b) == Some(w) {
        if Scans(s'.locks, w) {
          NewlyScans(s.locks, b, w);
        } else {
          NewlyDeferred(s.locks, b, w);
          TurnedAwayOk(s, w, s'.locks);
        }
      } else {
        OldPlace(s.locks, b, w);
        assert OwnerOk(s, w) && s.locks.pcs[w].owner < s.locks.next;
        GrantIsNew(s, b);
      }
    }
  }

  lemma GrantIsNew(s: State, b: NamedLocks.Action)
    requires LockEnabled(s, b) && !b.Defer?
    ensures Step(s, Lock(b)).tasks == s.tasks
    ensures forall o :: o < s.locks.next && o in s.owners ==> o in Step(s, Lock(b)).owners && Step(s, Lock(b)).owners[o] == s.owners[o]
  {
  }

  lemma DeferKeepsOwners(s: State, w: Thread)
    requires Inv(s) && LockEnabled(s, NamedLocks.Defer(w))
    ensures BusyOk(Step(s, Lock(NamedLocks.Defer(w)))) && OwnersOk(Step(s, Lock(NamedLocks.Defer(w))))
  {
    var ts := Tasks.Step(s.tasks, Insertion(s, w));
    SchedFrame(s, Insertion(s, w), ts);
    LeaverKeepsOwners(s, w, State(ts, s.locks, s.owners));
  }

  lemma LeaverKeepsOwners(s: State, w: Thread, s1: State)
    requires NamedLocks.Enabled(s.locks, NamedLocks.Defer(w)) && s1.locks == s.locks && BusyOk(s1) && OwnersOk(s1)
    ensures var s2 := s1.(locks := NamedLocks.Step(s.locks, NamedLocks.Defer(w))); BusyOk(s2) && OwnersOk(s2)
  {
  }

  lemma LockKeepsInv(s: State, b: NamedLocks.Action)
    requires Inv(s) && LockEnabled(s, b)
    ensures Inv(Step(s, Lock(b)))
  {
    NamedLocks.StepKeepsInv(s.locks, b);
    if b.Defer? {
      Tasks.StepKeepsInv(s.tasks, Insertion(s, b.t));
      DeferKeepsOwners(s, b.t);
    } else {
      LockKeepsBusy(s, b);
      forall w ensures OwnerOk(Step(s, Lock(b)), w) { LockKeepsOwner(s, b, w); }
      OwnersEach(Step(s, Lock(b)));
    }
  }

  lemma OwnersEach(s: State)
    requires forall w :: OwnerOk(s, w)
    ensures OwnersOk(s)
  {
    forall w | Scans(s.locks, w) || Deferred(s.locks, w) ensures OwnerOk(s, w) {
    }
  }

  lemma StepKeepsInv(s: State, act: Action)
    requires Inv(s) && Enabled(s, act)
    ensures Inv(Step(s, act))
  {
    match act
    case Sched(a) => SchedKeepsInv(s, a);
    case Lock(b) => LockKeepsInv(s, b);
  }

  // ----- Main results

  predicate ValidRun(s: State, acts: seq<Action>)
    decreases |acts|
  {
    acts == [] || (Enabled(s, acts[0]) && ValidRun(Step(s, acts[0]), acts[1..]))
  }

  function After(s: State, acts: seq<Action>): State
    requires ValidRun(s, acts)
    decreases |acts|
  {
    if acts == [] then s else After(Step(s, acts[0]), acts[1..])
  }

  lemma {:induction false} RunKeepsInv(s: State, acts: seq<Action>)
    requires Inv(s) && ValidRun(s, acts)
    ensures Inv(After(s, acts))
    decreases |acts|
  {
    if acts != [] {
      StepKeepsInv(s, acts[0]);
      RunKeepsInv(Step(s, acts[0]), acts[1..]);
    }
  }

  lemma InitInv()
    ensures Inv(INIT)
  {
    Tasks.InitInv();
  }

  lemma DeferEnabled(s: State, w: Thread)
    requires Inv(s) && Deferred(s.locks, w)
    ensures LockEnabled(s, NamedLocks.Defer(w))
    ensures Insertion(s, w).parent != Insertion(s, w).t && Insertion(s, w).t == TaskOf(s.tasks, w)
  {
  }

  /** A thread that is being deferred can always finish, and the insertion never throws: the task exists,
      and it is not the one it is inserted after. */
  lemma DeferralSucceeds(acts: seq<Action>, w: Thread)
    requires ValidRun(INIT, acts) && Deferred(After(INIT, acts).locks, w)
    ensures var s := After(INIT, acts);
            && Enabled(s, Lock(NamedLocks.Defer(w)))
            && Insertion(s, w).parent != Insertion(s, w).t && Insertion(s, w).t == TaskOf(s.tasks, w)
  {
    InitInv();
    RunKeepsInv(INIT, acts);
    DeferEnabled(After(INIT, acts), w);
  }

  /** A thread that asks for an extent while another scans it is deferred to the task of that thread. */
  lemma DeferredToTask(s: State, w: Thread, u: Thread, s': State)
    requires Inv(s) && LockEnabled(s, NamedLocks.TryLock(w)) && Scans(s.locks, u) && s.locks.pcs[u].key == s.locks.pcs[w].key
    requires s' == LockStep(s, NamedLocks.TryLock(w))
    ensures Deferred(s'.locks, w) && s'.locks.pcs[w].owner in s'.owners && Inside(s.tasks, u) && Inside(s.tasks, w)
    ensures s'.owners[s'.locks.pcs[w].owner] == TaskOf(s.tasks, u) != TaskOf(s.tasks, w)
  {
    NamedLocks.DeferredToScanner(s.locks, w, u);
    OtherTask(s, u, w);
  }

  /** The step starts an execution of t. */
  predicate Starts(s: State, act: Action, t: TaskId)
    requires Enabled(s, act)
  {
    act.Sched? && Tasks.Starts(s.tasks, act.a, t)
  }

  predicate StartsIn(s: State, acts: seq<Action>, t: TaskId)
    requires ValidRun(s, acts)
    decreases |acts|
  {
    acts != [] && (Starts(s, acts[0], t) || StartsIn(Step(s, acts[0]), acts[1..], t))
  }

  lemma RequestStays(s: State, act: Action, t: TaskId)
    requires Inv(s) && Enabled(s, act) && Tasks.Requested(s.tasks, t) && !Starts(s, act, t)
    ensures Tasks.Requested(Step(s, act).tasks, t)
  {
    if act.Sched? {
      Tasks.RequestFate(s.tasks, act.a, t);
    } else if act.b.Defer? {
      Tasks.RequestFate(s.tasks, Insertion(s, act.b.t), t);
    }
  }

  lemma {:induction false} StaysRequested(s: State, acts: seq<Action>, t: TaskId)
    requires Inv(s) && ValidRun(s, acts) && Tasks.Requested(s.tasks, t) && !StartsIn(s, acts, t)
    ensures Tasks.Requested(After(s, acts).tasks, t)
    decreases |acts|
  {
    if acts != [] {
      RequestStays(s, acts[0], t);
      StepKeepsInv(s, acts[0]);
      StaysRequested(Step(s, acts[0]), acts[1..], t);
    }
  }

  lemma PendingUntilStart(s: State, acts: seq<Action>, t: TaskId)
    requires Inv(s) && ValidRun(s, acts) && Tasks.Requested(s.tasks, t)
    ensures StartsIn(s, acts, t) || Tasks.Pending(After(s, acts).tasks, t)
  {
    if !StartsIn(s, acts, t) {
      StaysRequested(s, acts, t);
      RunKeepsInv(s, acts);
      assert Tasks.TaskOk(After(s, acts).tasks, t);
    }
  }

  lemma DeferRequests(s: State, w: Thread)
    requires Inv(s) && LockEnabled(s, NamedLocks.Defer(w))
    ensures Tasks.Requested(LockStep(s, NamedLocks.Defer(w)).tasks, TaskOf(s.tasks, w))
  {
    DeferEnabled(s, w);
    Tasks.RequestFate(s.tasks, Insertion(s, w), TaskOf(s.tasks, w));
  }

  lemma PendingAfterDefer(s: State, w: Thread, after: seq<Action>, s': State)
    requires Inv(s) && LockEnabled(s, NamedLocks.Defer(w)) && s' == LockStep(s, NamedLocks.Defer(w)) && ValidRun(s', after)
    ensures var t := TaskOf(s.tasks, w); StartsIn(s', after, t) || Tasks.Pending(After(s', after).tasks, t)
  {
    DeferRequests(s, w);
    LockKeepsInv(s, NamedLocks.Defer(w));
    PendingUntilStart(s', after, TaskOf(s.tasks, w));
  }

  /** In every interleaving, a task that was turned away at an extent's lock is pending in some queue from
      then on until it is started again. */
  lemma TurnedAwayIsPending(before: seq<Action>, w: Thread, after: seq<Action>)
    requires ValidRun(INIT, before) && Enabled(After(INIT, before), Lock(NamedLocks.Defer(w)))
    requires ValidRun(Step(After(INIT, before), Lock(NamedLocks.Defer(w))), after)
    ensures var s := After(INIT, before);
            var s' := Step(s, Lock(NamedLocks.Defer(w)));
            var t := TaskOf(s.tasks, w);
            StartsIn(s', after, t) || Tasks.Pending(After(s', after).tasks, t)
  {
    InitInv();
    RunKeepsInv(INIT, before);
    PendingAfterDefer(After(INIT, before), w, after, Step(After(INIT, before), Lock(NamedLocks.Defer(w))));
  }

  lemma InsertQueues(s: Tasks.State, parent: TaskId, t: TaskId)
    requires Tasks.Live(s, parent) && Tasks.Live(s, t) && parent != t && !s.tasks[t].runNow
    ensures var s' := Tasks.InsertTask(s, parent, t); parent in s'.tasks && t in s'.tasks[parent].post
  {
  }

  /** If it was not requested already, it is queued after the task that has the extent. */
  lemma QueuedAfterOwner(s: State, w: Thread)
    requires Inv(s) && Enabled(s, Lock(NamedLocks.Defer(w))) && !Tasks.Requested(s.tasks, TaskOf(s.tasks, w))
    ensures var s' := Step(s, Lock(NamedLocks.Defer(w)));
            var parent := s.owners[s.locks.pcs[w].owner];
            parent in s'.tasks.tasks && TaskOf(s.tasks, w) in s'.tasks.tasks[parent].post
  {
    DeferEnabled(s, w);
    InsertQueues(s.tasks, Insertion(s, w).parent, Insertion(s, w).t);
  }
}
