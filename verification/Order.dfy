/**
 In what order the scheduler (Tasks) runs what it was given: where each locked region of lib/task.cc puts a
 task, said of the queues alone, and that no task overtakes another in the global queue.
 */
module Order {

  import opened Common
  import opened Tasks

  /** q is what the list Q in front of L becomes: as it is, or in ascending order of m_id on request. */
  ghost predicate Spliced(Q: seq<TaskId>, L: seq<TaskId>, sort: bool, q: seq<TaskId>) {
    if sort && Q != [] then SortedById(q) && multiset(q) == multiset(Q + L) else q == Q + L
  }

  /** Nothing changed but the tasks in T and the workers in W. */
  ghost predicate Others(s: State, s': State, T: set<TaskId>, W: set<WorkerId>) {
    && (forall t :: t !in T ==> (t in s'.tasks <==> t in s.tasks) && (t in s.tasks ==> s'.tasks[t] == s.tasks[t]))
    && (forall w :: w !in W ==> (w in s'.workers <==> w in s.workers) && (w in s.workers ==> s'.workers[w] == s.workers[w]))
  }

  // ----- Rescue

  lemma SplicedBySort(Q: seq<TaskId>, L: seq<TaskId>, sort: bool)
    requires Q != []
    ensures Spliced(Q, L, sort, if sort then SortById(Q + L) else Q + L)
  {
    SortByIdSorts(Q + L);
  }

  lemma RescueAtWorker(s: State, t: TaskId, sort: bool, w: WorkerId, s': State)
    requires t in s.tasks && w in s.workers && s' == Rescue(s, Post(t), sort, Some(w))
    ensures w in s'.workers && Spliced(s.tasks[t].post, s.workers[w].local, sort, s'.workers[w].local)
    ensures s'.workers[w].phase == s.workers[w].phase && t in s'.tasks && s'.tasks[t] == s.tasks[t].(post := [])
    ensures Others(s, s', {t}, {w}) && s'.queue == s.queue && s'.idleQueue == s.idleQueue && s'.lastId == s.lastId
  {
    var Q, L := s.tasks[t].post, s.workers[w].local;
    if Q == [] {
      assert Q + L == L;
    } else {
      SplicedBySort(Q, L, sort);
    }
  }

  /** Without a worker one task goes to the head of the global queue; of several, a new wrapper goes there
      that keeps them in order, and keeps the sort flag for the worker that will run it. */
  ghost predicate Headed(s: State, s': State, Q: seq<TaskId>, sort: bool) {
    s'.idleQueue == s.idleQueue &&
    if |Q| <= 1 then s'.queue == Q + s.queue && s'.lastId == s.lastId
    else
      var r := s.lastId + 1;
      && s'.queue == [r] + s.queue && s'.lastId == r
      && r in s'.tasks && s'.tasks[r] == NEW_TASK.(wrapper := true, post := Q, sortQueue := sort)
  }

  /** The wrapper that is made for Q, if any. */
  function Wrapper(s: State, Q: seq<TaskId>): set<TaskId> {
    if |Q| <= 1 then {} else {s.lastId + 1}
  }

  lemma RescueToHead(s: State, from: Place, sort: bool, s': State)
    requires (from.Local? && from.w in s.workers) || (from.Post? && from.t in s.tasks && from.t <= s.lastId)
    requires s' == Rescue(s, from, sort, None)
    ensures Headed(s, s', Queue(s, from), sort) && Queue(s', from) == []
    ensures Others(s, s', Wrapper(s, Queue(s, from)) + (if from.Post? then {from.t} else {}), if from.Local? then {from.w} else {})
  {
    if Queue(s, from) == [] { assert [] + s.queue == s.queue; }
  }

  // ----- The end of an execution, and of a task

  /** What runs after t: what was appended to it, and t itself if it was asked to run again and not idly. */
  function Followers(s: State, t: TaskId): seq<TaskId>
    requires t in s.tasks
  {
    s.tasks[t].post + if s.tasks[t].runAgain && !s.tasks[t].idle then [t] else []
  }

  /** The end of exec: the followers go to the front of the worker's own queue, sorted with it on request. */
  lemma ExecEndOrder(s: State, w: WorkerId)
    requires Enabled(s, ExecEnd(w))
    ensures var t, s' := s.workers[w].phase.task, Step(s, ExecEnd(w));
            && w in s'.workers && s'.workers[w].phase == Finished(t)
            && Spliced(Followers(s, t), s.workers[w].local, s.tasks[t].sortQueue, s'.workers[w].local)
            && t in s'.tasks && s'.tasks[t] == s.tasks[t].(isRunning := false, runAgain := false, sortQueue := false, post := [])
            && s'.idleQueue == s.idleQueue + (if s.tasks[t].runAgain && s.tasks[t].idle then [t] else [])
            && Others(s, s', {t}, {w}) && s'.queue == s.queue && s'.lastId == s.lastId
  {
    var t := s.workers[w].phase.task;
    var s1 := Requeue(SetPhase(SetTask(s, t, s.tasks[t].(isRunning := false)), w, Finished(t)), t);
    assert s1.tasks[t].post == Followers(s, t);
    RescueAtWorker(s1, t, s.tasks[t].sortQueue, w, Rescue(s1, Post(t), s.tasks[t].sortQueue, Some(w)));
  }

  /** A task that is destroyed in a worker leaves what was appended to it to that worker, in the same way. */
  lemma DestroyOrder(s: State, t: TaskId, w: WorkerId)
    requires Enabled(s, Destroy(t, Some(w)))
    ensures var s' := Step(s, Destroy(t, Some(w)));
            && w in s'.workers && s'.workers[w].phase == s.workers[w].phase
            && Spliced(s.tasks[t].post, s.workers[w].local, s.tasks[t].sortQueue, s'.workers[w].local)
            && t !in s'.tasks && Others(s, s', {t}, {w})
            && s'.queue == s.queue && s'.idleQueue == s.idleQueue && s'.lastId == s.lastId
  {
    RescueAtWorker(s, t, s.tasks[t].sortQueue, w, Rescue(s, Post(t), s.tasks[t].sortQueue, Some(w)));
  }

  lemma DestroyElsewhere(s: State, t: TaskId)
    requires Enabled(s, Destroy(t, None)) && t <= s.lastId
    ensures var s' := Step(s, Destroy(t, None));
            t !in s'.tasks && Headed(s, s', s.tasks[t].post, s.tasks[t].sortQueue) && Others(s, s', {t} + Wrapper(s, s.tasks[t].post), {})
  {
    RescueToHead(s, Post(t), s.tasks[t].sortQueue, Rescue(s, Post(t), s.tasks[t].sortQueue, None));
  }

  /** A worker that leaves gives its queue back to the head of the global one. */
  lemma ExitOrder(s: State, w: WorkerId)
    requires Enabled(s, ExitWorker(w))
    ensures var s' := Step(s, ExitWorker(w));
            w !in s'.workers && Headed(s, s', s.workers[w].local, false) && Others(s, s', Wrapper(s, s.workers[w].local), {w})
  {
    RescueToHead(s, Local(w), false, Rescue(s, Local(w), false, None));
  }

  // ----- Taking and adding

  /** A worker takes the first task of its own queue, then of the global one, and an idle task only if both
      are empty. */
  lemma PopOrder(s: State, w: WorkerId)
    requires Enabled(s, Pop(w))
    ensures var s', L := Step(s, Pop(w)), s.workers[w].local;
            && w in s'.workers && s'.workers[w].phase.Popped?
            && [s'.workers[w].phase.task] + s'.workers[w].local + s'.queue + s'.idleQueue == L + s.queue + s.idleQueue
            && (L != [] ==> s'.queue == s.queue) && (L != [] || s.queue != [] ==> s'.idleQueue == s.idleQueue)
            && s'.tasks == s.tasks && s'.lastId == s.lastId && Others(s, s', {}, {w})
  {
    var L := s.workers[w].local;
    if L != [] {
      assert L == [L[0]] + L[1..];
    } else if s.queue != [] {
      assert s.queue == [s.queue[0]] + s.queue[1..];
    } else {
      assert s.idleQueue == [s.idleQueue[0]] + s.idleQueue[1..];
    }
  }

  /** run and idle: a task that is neither pending nor running goes to the end of the queue it is asked for;
      one that runs is noted; one that is pending stays where it is. */
  lemma RequestOrder(s: State, t: TaskId, idle: bool)
    requires Live(s, t)
    ensures var s', k := Step(s, if idle then Idle(t) else Run(t)), s.tasks[t];
            && t in s'.tasks && s'.tasks[t] == k.(idle := idle, runNow := true, runAgain := k.runAgain || (!k.runNow && k.isRunning))
            && s'.queue == s.queue + (if !k.runNow && !k.isRunning && !idle then [t] else [])
            && s'.idleQueue == s.idleQueue + (if !k.runNow && !k.isRunning && idle then [t] else [])
            && Others(s, s', {t}, {}) && s'.lastId == s.lastId
  {
  }

  /** append and insert: t goes to the end of the parent's queue; insert also moves what follows t there,
      and asks for the queue to be sorted. */
  lemma AppendOrder(s: State, parent: TaskId, t: TaskId, insert: bool)
    requires Live(s, parent) && Live(s, t) && (insert ==> parent != t) && !s.tasks[t].runNow
    ensures var s' := Step(s, if insert then Insert(parent, t) else Append(parent, t));
            && parent in s'.tasks && t in s'.tasks && s'.tasks[t].runNow && !s'.tasks[t].idle
            && s'.tasks[parent].post == s.tasks[parent].post + [t] + (if insert then s.tasks[t].post else [])
            && s'.tasks[parent].sortQueue == (insert || s.tasks[parent].sortQueue)
            && (parent != t ==> s'.tasks[t].post == if insert then [] else s.tasks[t].post)
            && Others(s, s', {t, parent}, {}) && s'.queue == s.queue && s'.idleQueue == s.idleQueue
  {
    if insert { InsertSplits(s, parent, t); }
  }

  /** Repeating a request, or inserting a task after itself, moves nothing. */
  lemma RepeatOrder(s: State, parent: TaskId, t: TaskId)
    requires Live(s, parent) && Live(s, t)
    ensures Step(s, Insert(t, t)) == s
    ensures s.tasks[t].runNow ==> Step(s, Append(parent, t)) == SetTask(s, t, s.tasks[t].(idle := false))
    ensures s.tasks[t].runNow && parent != t ==> Step(s, Insert(parent, t)) == SetTask(s, t, s.tasks[t].(idle := false))
  {
  }

  // ----- The global queue is first in, first out

  /** x is in front of y in the global queue. */
  ghost predicate InFront(s: State, x: TaskId, y: TaskId) {
    exists i, j :: 0 <= i < j < |s.queue| && s.queue[i] == x && s.queue[j] == y
  }

  /** What a step does to the global queue: it takes the first, puts new ones in front, or puts one behind. */
  ghost predicate QueueMoves(q: seq<TaskId>, q': seq<TaskId>) {
    || q' == q
    || (q != [] && q' == q[1..])
    || (exists x :: q' == [x] + q)
    || (exists x :: q' == q + [x])
  }

  lemma StepMovesQueue(s: State, a: Action)
    requires Enabled(s, a) && (forall t :: t in s.tasks ==> t <= s.lastId)
    ensures QueueMoves(s.queue, Step(s, a).queue)
  {
    var s' := Step(s, a);
    match a
    case Run(t) => RequestOrder(s, t, false); assert s.queue + [] == s.queue;
    case Idle(t) => RequestOrder(s, t, true); assert s.queue + [] == s.queue;
    case Append(parent, t) => if !s.tasks[t].runNow { AppendOrder(s, parent, t, false); }
    case Insert(parent, t) => if !s.tasks[t].runNow && parent != t { AppendOrder(s, parent, t, true); }
    case ExecEnd(w) => ExecEndOrder(s, w);
    case ExitWorker(w) => ExitOrder(s, w); HeadedMoves(s, s', s.workers[w].local, false);
    case Destroy(t, at) =>
      if at.Some? { DestroyOrder(s, t, at.value); }
      else { DestroyElsewhere(s, t); HeadedMoves(s, s', s.tasks[t].post, s.tasks[t].sortQueue); }
    case _ =>
  }

  lemma HeadedMoves(s: State, s': State, Q: seq<TaskId>, sort: bool)
    requires Headed(s, s', Q, sort)
    ensures QueueMoves(s.queue, s'.queue)
  {
    if |Q| == 0 { assert Q + s.queue == s.queue; }
    if |Q| == 1 { assert Q + s.queue == [Q[0]] + s.queue; }
  }

  lemma MoveKeepsOrder(q: seq<TaskId>, q': seq<TaskId>, i: nat, j: nat)
    requires QueueMoves(q, q') && i < j < |q|
    ensures q[j] in q'
    ensures (i == 0 && q' == q[1..]) || exists k, l :: 0 <= k < l < |q'| && q'[k] == q[i] && q'[l] == q[j]
  {
    if q' == q {
      assert q'[i] == q[i] && q'[j] == q[j];
    } else if q' == q[1..] {
      assert q'[j - 1] == q[j];
      if i > 0 { assert q'[i - 1] == q[i]; }
    } else if x :| q' == [x] + q {
      assert q'[i + 1] == q[i] && q'[j + 1] == q[j];
    } else {
      assert q'[i] == q[i] && q'[j] == q[j];
    }
  }

  /** No step takes a task out of the queue before those in front of it. */
  lemma NoOvertaking(s: State, a: Action, x: TaskId, y: TaskId)
    requires Inv(s) && Enabled(s, a) && InFront(s, x, y)
    ensures y in Step(s, a).queue && (x in Step(s, a).queue ==> InFront(Step(s, a), x, y))
  {
    var i, j :| 0 <= i < j < |s.queue| && s.queue[i] == x && s.queue[j] == y;
    var s' := Step(s, a);
    forall t | t in s.tasks ensures t <= s.lastId { assert TaskOk(s, t); }
    StepMovesQueue(s, a);
    MoveKeepsOrder(s.queue, s'.queue, i, j);
    if i == 0 && s'.queue == s.queue[1..] {
      assert NoDup(Queue(s, Global));
      assert x !in s'.queue;
    }
  }

  predicate StaysQueued(s: State, acts: seq<Action>, x: TaskId)
    requires ValidRun(s, acts)
    decreases |acts|
  {
    x in s.queue && (acts == [] || StaysQueued(Step(s, acts[0]), acts[1..], x))
  }

  /** Over any run: as long as x is in the queue, so is whatever was behind it, and still behind it. */
  lemma {:induction false} FirstInFirstOut(s: State, acts: seq<Action>, x: TaskId, y: TaskId)
    requires Inv(s) && ValidRun(s, acts) && InFront(s, x, y) && StaysQueued(s, acts, x)
    ensures InFront(After(s, acts), x, y)
    decreases |acts|
  {
    if acts != [] {
      NoOvertaking(s, acts[0], x, y);
      StepKeepsInv(s, acts[0]);
      FirstInFirstOut(Step(s, acts[0]), acts[1..], x, y);
    }
  }
}
