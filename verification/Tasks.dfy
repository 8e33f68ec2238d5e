/**
 The task scheduler (lib/task.cc) as a state machine: each region that holds a mutex is one step,
 and the steps of any number of threads may interleave in any order.
 */
module Tasks {

  import opened Common

  type TaskId = nat
  type WorkerId = nat

  /** TaskState.  `wrapper` marks the rescue_task that carries a queue to the next worker. */
  datatype Task = Task(runNow: bool, isRunning: bool, runAgain: bool, idle: bool,
                       sortQueue: bool, post: seq<TaskId>, wrapper: bool)

  /** Where a TaskConsumer is in its loop: m_current_task is set from Popped to Finished. */
  datatype Phase = Waiting | Popped(task: TaskId) | Running(task: TaskId) | Finished(task: TaskId)

  datatype Worker = Worker(phase: Phase, local: seq<TaskId>)

  datatype State = State(tasks: map<TaskId, Task>, queue: seq<TaskId>, idleQueue: seq<TaskId>,
                         workers: map<WorkerId, Worker>, lastId: TaskId)

  const NEW_TASK := Task(false, false, false, false, false, [], false)
  const INIT := State(map[], [], [], map[], 0)

  datatype Action =
    | Create
    | Run(t: TaskId)
    | Idle(t: TaskId)
    | Append(parent: TaskId, t: TaskId)
    | Insert(parent: TaskId, t: TaskId)
    | StartWorker(w: WorkerId)
    | Pop(w: WorkerId)
    | ExecStart(w: WorkerId)
    | ExecEnd(w: WorkerId)
    | Drop(w: WorkerId)
    | ExitWorker(w: WorkerId)
    | Destroy(t: TaskId, at: Option<WorkerId>)

  // ----- Places that hold tokens

  /** Everywhere a pending execution of a task can be: the four kinds of queue, in the hands of a
      worker that has popped it, or noted in m_run_again. */
  datatype Place = Global | IdleQueue | Local(w: WorkerId) | Post(t: TaskId) | Held(w: WorkerId) | Again(t: TaskId)

  function Queue(s: State, p: Place): seq<TaskId> {
    match p
    case Global => s.queue
    case IdleQueue => s.idleQueue
    case Local(w) => if w in s.workers then s.workers[w].local else []
    case Post(t) => if t in s.tasks then s.tasks[t].post else []
    case Held(w) => if w in s.workers && s.workers[w].phase.Popped? then [s.workers[w].phase.task] else []
    case Again(t) => if t in s.tasks && s.tasks[t].runAgain then [t] else []
  }

  /** Replace the contents of one of the real queues. */
  function SetQueue(s: State, p: Place, q: seq<TaskId>): State
    requires p.Global? || p.IdleQueue? || (p.Local? && p.w in s.workers) || (p.Post? && p.t in s.tasks)
  {
    match p
    case Global => s.(queue := q)
    case IdleQueue => s.(idleQueue := q)
    case Local(w) => s.(workers := s.workers[w := s.workers[w].(local := q)])
    case Post(t) => s.(tasks := s.tasks[t := s.tasks[t].(post := q)])
  }

  function SetTask(s: State, t: TaskId, k: Task): State {
    s.(tasks := s.tasks[t := k])
  }

  function SetPhase(s: State, w: WorkerId, phase: Phase): State
    requires w in s.workers
  {
    s.(workers := s.workers[w := s.workers[w].(phase := phase)])
  }

  predicate SortedById(q: seq<TaskId>) {
    forall i, j :: 0 <= i < j < |q| ==> q[i] <= q[j]
  }

  function InsertById(x: TaskId, q: seq<TaskId>): (r: seq<TaskId>)
    ensures multiset(r) == multiset([x] + q)
  {
    if q == [] || x <= q[0] then [x] + q
    else
      assert q == [q[0]] + q[1..];
      [q[0]] + InsertById(x, q[1..])
  }

  /** list::sort by m_id */
  function SortById(q: seq<TaskId>): (r: seq<TaskId>)
    ensures multiset(r) == multiset(q)
  {
    if q == [] then []
    else
      assert q == [q[0]] + q[1..];
      InsertById(q[0], SortById(q[1..]))
  }

  lemma InsertedIsMember(x: TaskId, q: seq<TaskId>)
    ensures forall y :: y in InsertById(x, q) ==> y == x || y in q
  {
    forall y | y in InsertById(x, q) ensures y == x || y in q {
      assert y in multiset(InsertById(x, q)) && y in multiset([x] + q);
    }
  }

  lemma {:induction false} InsertKeepsSorted(x: TaskId, q: seq<TaskId>)
    requires SortedById(q)
    ensures SortedById(InsertById(x, q))
  {
    if q != [] && x > q[0] {
      InsertKeepsSorted(x, q[1..]);
      InsertedIsMember(x, q[1..]);
      var r := InsertById(x, q[1..]);
      forall i | 0 <= i < |r| ensures q[0] <= r[i] {
        assert r[i] in r;
      }
    }
  }

  lemma {:induction false} SortByIdSorts(q: seq<TaskId>)
    ensures SortedById(SortById(q)) && multiset(SortById(q)) == multiset(q)
  {
    if q != [] {
      SortByIdSorts(q[1..]);
      InsertKeepsSorted(q[0], SortById(q[1..]));
    }
  }

  // ----- The steps

  /** make_shared<TaskState>("rescue_task"), queued without m_run_now */
  function NewWrapper(s: State, sort: bool): State {
    SetTask(s, s.lastId + 1, NEW_TASK.(wrapper := true, sortQueue := sort)).(lastId := s.lastId + 1)
  }

  /** Move the queue `from` into the post-exec queue of a new wrapper. */
  function Wrap(s: State, from: Place, sort: bool): State
    requires (from.Local? && from.w in s.workers) || (from.Post? && from.t in s.tasks)
  {
    SetQueue(SetQueue(NewWrapper(s, sort), from, []), Post(s.lastId + 1), Queue(s, from))
  }

  /** rescue_queue: empty the queue `from` into the worker's local queue, or the global one. */
  function Rescue(s: State, from: Place, sort: bool, at: Option<WorkerId>): State
    requires (from.Local? && from.w in s.workers) || (from.Post? && from.t in s.tasks)
    requires at.Some? ==> at.value in s.workers
  {
    var q := Queue(s, from);
    if q == [] then s
    else if at.Some? then
      var s1 := SetQueue(s, from, []);
      var local := q + Queue(s1, Local(at.value));
      SetQueue(s1, Local(at.value), if sort then SortById(local) else local)
    else if |q| == 1 then
      SetQueue(SetQueue(s, from, []), Global, q + s.queue)
    else
      SetQueue(Wrap(s, from, sort), Global, [s.lastId + 1] + s.queue)
  }

  predicate Referenced(s: State, t: TaskId) {
    || t in s.queue || t in s.idleQueue
    || (exists w :: w in s.workers && (t in s.workers[w].local || (!s.workers[w].phase.Waiting? && s.workers[w].phase.task == t)))
    || (exists p :: p in s.tasks && t in s.tasks[p].post)
  }

  /** A request is made through a task object, which wrappers never hand out. */
  predicate Live(s: State, t: TaskId) {
    t in s.tasks && !s.tasks[t].wrapper
  }

  predicate Enabled(s: State, a: Action) {
    match a
    case Create => true
    case Run(t) => Live(s, t)
    case Idle(t) => Live(s, t)
    case Append(parent, t) => Live(s, parent) && Live(s, t)
    case Insert(parent, t) => Live(s, parent) && Live(s, t)
    case StartWorker(w) => w !in s.workers
    case Pop(w) => w in s.workers && s.workers[w].phase.Waiting?
        && (s.workers[w].local != [] || s.queue != [] || s.idleQueue != [])
    case ExecStart(w) => w in s.workers && s.workers[w].phase.Popped? && s.workers[w].phase.task in s.tasks
    case ExecEnd(w) => w in s.workers && s.workers[w].phase.Running? && s.workers[w].phase.task in s.tasks
    case Drop(w) => w in s.workers && s.workers[w].phase.Finished?
    case ExitWorker(w) => w in s.workers && s.workers[w].phase.Waiting?
    case Destroy(t, at) => t in s.tasks && !Referenced(s, t) && (at.Some? ==> at.value in s.workers)
  }

  /** run() and idle() */
  function Request(s: State, t: TaskId, idle: bool): State
    requires t in s.tasks
  {
    var k := s.tasks[t].(idle := idle);
    if k.runNow then SetTask(s, t, k)
    else if k.isRunning then SetTask(s, t, k.(runNow := true, runAgain := true))
    else
      var s1 := SetTask(s, t, k.(runNow := true));
      if idle then SetQueue(s1, IdleQueue, s1.idleQueue + [t]) else SetQueue(s1, Global, s1.queue + [t])
  }

  function AppendTask(s: State, parent: TaskId, t: TaskId): State
    requires parent in s.tasks && t in s.tasks
  {
    var k := s.tasks[t].(idle := false);
    if k.runNow then SetTask(s, t, k)
    else
      var s1 := SetTask(s, t, k.(runNow := true));
      SetQueue(s1, Post(parent), s1.tasks[parent].post + [t])
  }

  function InsertTask(s: State, parent: TaskId, t: TaskId): State
    requires parent in s.tasks && t in s.tasks && parent != t
  {
    if s.tasks[t].runNow then AppendTask(s, parent, t)
    else
      var s1 := AppendTask(s, parent, t);
      var s2 := SetTask(s1, parent, s1.tasks[parent].(sortQueue := true));
      SetQueue(SetQueue(s2, Post(t), []), Post(parent), s2.tasks[parent].post + s2.tasks[t].post)
  }

  function PopTask(s: State, w: WorkerId): State
    requires Enabled(s, Pop(w))
  {
    var local := s.workers[w].local;
    if local != [] then SetPhase(SetQueue(s, Local(w), local[1..]), w, Popped(local[0]))
    else if s.queue != [] then SetPhase(SetQueue(s, Global, s.queue[1..]), w, Popped(s.queue[0]))
    else SetPhase(SetQueue(s, IdleQueue, s.idleQueue[1..]), w, Popped(s.idleQueue[0]))
  }

  function StartExec(s: State, w: WorkerId): State
    requires Enabled(s, ExecStart(w))
  {
    var t := s.workers[w].phase.task;
    var k := s.tasks[t];
    if k.isRunning then SetPhase(SetTask(s, t, k.(runAgain := true)), w, Finished(t))
    else SetPhase(SetTask(s, t, k.(runNow := false, isRunning := true)), w, Running(t))
  }

  /** The task queues itself again if it was asked to while it ran. */
  function Requeue(s: State, t: TaskId): State
    requires t in s.tasks
  {
    var k := s.tasks[t];
    if !k.runAgain then s
    else
      var s1 := SetTask(s, t, k.(runAgain := false));
      if k.idle then SetQueue(s1, IdleQueue, s1.idleQueue + [t]) else SetQueue(s1, Post(t), k.post + [t])
  }

  function EndExec(s: State, w: WorkerId): State
    requires Enabled(s, ExecEnd(w))
  {
    var t := s.workers[w].phase.task;
    var s1 := Requeue(SetPhase(SetTask(s, t, s.tasks[t].(isRunning := false)), w, Finished(t)), t);
    var s2 := Rescue(s1, Post(t), s.tasks[t].sortQueue, Some(w));
    SetTask(s2, t, s2.tasks[t].(sortQueue := false))
  }

  function Step(s: State, a: Action): State
    requires Enabled(s, a)
  {
    match a
    case Create => SetTask(s, s.lastId + 1, NEW_TASK).(lastId := s.lastId + 1)
    case Run(t) => Request(s, t, false)
    case Idle(t) => Request(s, t, true)
    case Append(parent, t) => AppendTask(s, parent, t)
    case Insert(parent, t) => if parent == t then s else InsertTask(s, parent, t)  // throws on itself
    case StartWorker(w) => s.(workers := s.workers[w := Worker(Waiting, [])])
    case Pop(w) => PopTask(s, w)
    case ExecStart(w) => StartExec(s, w)
    case ExecEnd(w) => EndExec(s, w)
    case Drop(w) => SetPhase(s, w, Waiting)
    case ExitWorker(w) =>
      var s1 := Rescue(s, Local(w), false, None);
      s1.(workers := s1.workers - {w})
    case Destroy(t, at) =>
      var s1 := Rescue(s, Post(t), s.tasks[t].sortQueue, at);
      s1.(tasks := s1.tasks - {t})
  }

  // ----- The invariant

  predicate NoDup(q: seq<TaskId>) {
    forall i, j :: 0 <= i < j < |q| ==> q[i] != q[j]
  }

  ghost predicate Pending(s: State, t: TaskId) {
    exists p :: t in Queue(s, p)
  }

  /** No task is in two places, or twice in one. */
  ghost predicate TokensOk(s: State) {
    && (forall p :: NoDup(Queue(s, p)))
    && (forall p, q, t :: t in Queue(s, p) && t in Queue(s, q) ==> p == q)
  }

  ghost predicate RunsSomewhere(s: State, t: TaskId) {
    exists w :: w in s.workers && s.workers[w].phase == Running(t)
  }

  /** What holds of each task: its flags say exactly where it is. */
  ghost predicate TaskOk(s: State, t: TaskId)
    requires t in s.tasks
  {
    var k := s.tasks[t];
    && t <= s.lastId
    && (k.runAgain ==> k.isRunning)
    && (k.isRunning <==> RunsSomewhere(s, t))
    && (if k.wrapper then !k.runNow && !k.runAgain && (k.isRunning ==> !Pending(s, t)) else k.runNow <==> Pending(s, t))
  }

  ghost predicate WorkersOk(s: State) {
    && (forall w :: w in s.workers && !s.workers[w].phase.Waiting? ==> s.workers[w].phase.task in s.tasks)
    && (forall v, w :: v in s.workers && w in s.workers && s.workers[v].phase.Running? && s.workers[v].phase == s.workers[w].phase ==> v == w)
  }

  ghost predicate Inv(s: State) {
    && TokensOk(s)
    && (forall t :: Pending(s, t) ==> t in s.tasks)
    && (forall t :: t in s.tasks ==> TaskOk(s, t))
    && WorkersOk(s)
  }

  // ----- How tokens move

  ghost predicate SameElsewhere(s: State, s': State, a: Place, b: Place) {
    forall p :: p != a && p != b ==> Queue(s', p) == Queue(s, p)
  }

  /** Tokens only moved between a and b. */
  ghost predicate Moved(s: State, s': State, a: Place, b: Place) {
    && SameElsewhere(s, s', a, b)
    && NoDup(Queue(s', a)) && NoDup(Queue(s', b))
    && (forall t :: t in Queue(s', a) || t in Queue(s', b) <==> t in Queue(s, a) || t in Queue(s, b))
    && (forall t :: t in Queue(s', a) && t in Queue(s', b) ==> a == b)
  }

  lemma MovedKeepsPending(s: State, s': State, a: Place, b: Place)
    requires Moved(s, s', a, b)
    ensures forall t :: Pending(s', t) <==> Pending(s, t)
  {
    forall t | Pending(s, t) ensures Pending(s', t) {
      var p :| t in Queue(s, p);
      if p == a || p == b { assert t in Queue(s', a) || t in Queue(s', b); } else { assert t in Queue(s', p); }
    }
    forall t | Pending(s', t) ensures Pending(s, t) {
      var p :| t in Queue(s', p);
      if p == a || p == b { assert t in Queue(s, a) || t in Queue(s, b); } else { assert t in Queue(s, p); }
    }
  }

  lemma MovedKeepsTokens(s: State, s': State, a: Place, b: Place)
    requires TokensOk(s) && Moved(s, s', a, b)
    ensures TokensOk(s')
    ensures forall t :: Pending(s', t) <==> Pending(s, t)
  {
    MovedKeepsPending(s, s', a, b);
    forall p, q, t | t in Queue(s', p) && t in Queue(s', q) ensures p == q {
      var p' := if p != a && p != b then p else if t in Queue(s, a) then a else b;
      var q' := if q != a && q != b then q else if t in Queue(s, a) then a else b;
      assert t in Queue(s, p') && t in Queue(s, q');
    }
    forall p ensures NoDup(Queue(s', p)) {
      if p != a && p != b { assert Queue(s', p) == Queue(s, p); }
    }
  }

  /** t got a token, at place a. */
  ghost predicate Added(s: State, s': State, a: Place, t: TaskId) {
    && SameElsewhere(s, s', a, a)
    && NoDup(Queue(s', a))
    && (forall x :: x in Queue(s', a) <==> x in Queue(s, a) || x == t)
  }

  lemma AddedKeepsTokens(s: State, s': State, a: Place, t: TaskId)
    requires TokensOk(s) && !Pending(s, t) && Added(s, s', a, t)
    ensures TokensOk(s')
    ensures forall x :: Pending(s', x) <==> Pending(s, x) || x == t
  {
    assert t in Queue(s', a);
    forall x | Pending(s, x) ensures Pending(s', x) {
      var p :| x in Queue(s, p);
      assert x in Queue(s', p);
    }
    forall x | Pending(s', x) && x != t ensures Pending(s, x) {
      var p :| x in Queue(s', p);
      assert x in Queue(s, p);
    }
    forall p, q, x | x in Queue(s', p) && x in Queue(s', q) ensures p == q {
      if x == t {
        assert t !in Queue(s, p) && t !in Queue(s, q);
      } else {
        assert x in Queue(s, p) && x in Queue(s, q);
      }
    }
    forall p ensures NoDup(Queue(s', p)) {
    }
  }

  /** The only token at place a, that of t, is gone. */
  lemma RemovedKeepsTokens(s: State, s': State, a: Place, t: TaskId)
    requires TokensOk(s) && Queue(s, a) == [t] && Queue(s', a) == [] && SameElsewhere(s, s', a, a)
    ensures TokensOk(s')
    ensures forall x :: Pending(s', x) <==> Pending(s, x) && x != t
  {
    assert t in Queue(s, a);
    forall x | Pending(s, x) && x != t ensures Pending(s', x) {
      var p :| x in Queue(s, p);
      assert x in Queue(s', p);
    }
    forall x | Pending(s', x) ensures Pending(s, x) && x != t {
      var p :| x in Queue(s', p);
      assert x in Queue(s, p);
    }
    forall p ensures NoDup(Queue(s', p)) {
    }
  }

  lemma SetQueueSetsOne(s: State, p: Place, q: seq<TaskId>)
    requires p.Global? || p.IdleQueue? || (p.Local? && p.w in s.workers) || (p.Post? && p.t in s.tasks)
    ensures Queue(SetQueue(s, p, q), p) == q && SameElsewhere(s, SetQueue(s, p, q), p, p)
  {
  }

  lemma NoDupConcat(a: seq<TaskId>, b: seq<TaskId>)
    requires NoDup(a) && NoDup(b) && forall t :: t in a ==> t !in b
    ensures NoDup(a + b)
  {
    forall i, j | 0 <= i < j < |a + b| ensures (a + b)[i] != (a + b)[j] {
      if i < |a| <= j { assert a[i] in a && b[j - |a|] in b; }
    }
  }

  lemma NoDupPermuted(a: seq<TaskId>, b: seq<TaskId>)
    requires NoDup(a) && multiset(a) == multiset(b)
    ensures NoDup(b) && forall t :: t in a <==> t in b
  {
    forall t ensures t in a <==> t in b {
      assert t in a <==> t in multiset(a);
      assert t in b <==> t in multiset(b);
    }
    forall i, j | 0 <= i < j < |b| ensures b[i] != b[j] {
      if b[i] == b[j] {
        var t := b[i];
        assert b == b[..i] + [t] + b[i + 1..j] + [t] + b[j + 1..];
        assert multiset(b)[t] >= 2;
        AtMostOnce(a, t);
      }
    }
  }

  lemma {:induction false} AtMostOnce(a: seq<TaskId>, t: TaskId)
    requires NoDup(a)
    ensures multiset(a)[t] <= 1
  {
    if a != [] {
      AtMostOnce(a[1..], t);
      assert a == [a[0]] + a[1..];
      assert t in multiset(a[1..]) ==> t in a[1..];
    }
  }

  /** Emptying queue a into the front or back of queue b, possibly reordering b, only moves tokens. */
  lemma SpliceMoves(s: State, a: Place, b: Place, q: seq<TaskId>)
    requires TokensOk(s) && a != b
    requires (a.Local? && a.w in s.workers) || (a.Post? && a.t in s.tasks)
    requires b.Global? || (b.Local? && b.w in s.workers) || (b.Post? && b.t in s.tasks)
    requires multiset(q) == multiset(Queue(s, a) + Queue(s, b))
    ensures Moved(s, SetQueue(SetQueue(s, a, []), b, q), a, b)
  {
    var qa, qb := Queue(s, a), Queue(s, b);
    forall t | t in qa ensures t !in qb {
    }
    NoDupConcat(qa, qb);
    NoDupPermuted(qa + qb, q);
    SetQueueSetsOne(s, a, []);
    SetQueueSetsOne(SetQueue(s, a, []), b, q);
    var s' := SetQueue(SetQueue(s, a, []), b, q);
    assert Queue(s', a) == [] && Queue(s', b) == q;
    forall t ensures t in q <==> t in qa || t in qb {
      assert t in qa + qb <==> t in qa || t in qb;
    }
  }

  /** Everything but the queues is as before. */
  ghost predicate SameFlags(s: State, s': State) {
    && s'.workers.Keys == s.workers.Keys
    && (forall w :: w in s.workers ==> s'.workers[w].phase == s.workers[w].phase)
    && (forall t :: t in s.tasks ==> t in s'.tasks && s'.tasks[t].(post := []) == s.tasks[t].(post := []))
    && s.lastId <= s'.lastId
    && (forall t :: t in s'.tasks && t !in s.tasks ==> t <= s'.lastId && s'.tasks[t].wrapper && !s'.tasks[t].isRunning && s'.tasks[t].(post := [], wrapper := false, sortQueue := false) == NEW_TASK)
  }

  ghost predicate Bounded(s: State) {
    && (forall t :: t in s.tasks ==> t <= s.lastId)
    && (forall t :: Pending(s, t) ==> t in s.tasks)
  }

  /** The two outcomes of moving the queue `from` away, as the invariant needs them. */
  ghost predicate Rescued(s: State, s': State, from: Place) {
    && TokensOk(s') && SameFlags(s, s') && Queue(s', from) == []
    && (forall t :: Pending(s', t) <==> Pending(s, t) || (t in s'.tasks && t !in s.tasks))
  }

  lemma SpliceRescues(s: State, from: Place, to: Place, q: seq<TaskId>)
    requires TokensOk(s) && from != to
    requires (from.Local? && from.w in s.workers) || (from.Post? && from.t in s.tasks)
    requires to.Global? || (to.Local? && to.w in s.workers)
    requires multiset(q) == multiset(Queue(s, from) + Queue(s, to))
    ensures Rescued(s, SetQueue(SetQueue(s, from, []), to, q), from)
  {
    var s1 := SetQueue(s, from, []);
    var s' := SetQueue(s1, to, q);
    SpliceMoves(s, from, to, q);
    MovedKeepsTokens(s, s', from, to);
    SetQueueSetsOne(s, from, []);
    SetQueueSetsOne(s1, to, q);
    assert SameFlags(s, s');
    assert s'.tasks.Keys == s.tasks.Keys;
  }

  lemma NewWrapperKeepsTokens(s: State, sort: bool)
    requires TokensOk(s) && Bounded(s)
    ensures var s' := NewWrapper(s, sort);
            && TokensOk(s')
            && (forall p :: Queue(s', p) == Queue(s, p))
            && (forall t :: Pending(s', t) <==> Pending(s, t))
            && !Pending(s, s.lastId + 1)
  {
    var s' := NewWrapper(s, sort);
    assert forall p :: Queue(s', p) == Queue(s, p);
    forall t ensures Pending(s', t) <==> Pending(s, t) {
      if Pending(s, t) { var p :| t in Queue(s, p); assert t in Queue(s', p); }
      if Pending(s', t) { var p :| t in Queue(s', p); assert t in Queue(s, p); }
    }
  }

  /** The wrapper's post-exec queue takes over the tokens of the queue it was made for. */
  lemma WrapTokens(s1: State, from: Place, id: TaskId)
    requires TokensOk(s1) && id in s1.tasks && s1.tasks[id].post == [] && from != Post(id)
    requires (from.Local? && from.w in s1.workers) || (from.Post? && from.t in s1.tasks)
    ensures var s2 := SetQueue(SetQueue(s1, from, []), Post(id), Queue(s1, from));
            && TokensOk(s2) && Queue(s2, from) == []
            && (forall t :: Pending(s2, t) <==> Pending(s1, t))
  {
    var q := Queue(s1, from);
    assert Queue(s1, Post(id)) == [] && q + [] == q;
    SpliceMoves(s1, from, Post(id), q);
    MovedKeepsTokens(s1, SetQueue(SetQueue(s1, from, []), Post(id), q), from, Post(id));
    SetQueueSetsOne(s1, from, []);
  }

  lemma WrapMoves(s: State, from: Place, sort: bool, s2: State, id: TaskId)
    requires TokensOk(s) && Bounded(s) && id == s.lastId + 1
    requires (from.Local? && from.w in s.workers) || (from.Post? && from.t in s.tasks)
    requires s2 == Wrap(s, from, sort)
    ensures TokensOk(s2) && SameFlags(s, s2) && Queue(s2, from) == []
    ensures s2.queue == s.queue && s2.tasks.Keys == s.tasks.Keys + {id}
    ensures !Pending(s2, id)
    ensures forall t :: Pending(s2, t) <==> Pending(s, t)
  {
    NewWrapperKeepsTokens(s, sort);
    WrapTokens(NewWrapper(s, sort), from, id);
    WrapFlags(s, from, sort, s2, id);
  }

  lemma WrapFlags(s: State, from: Place, sort: bool, s2: State, id: TaskId)
    requires id == s.lastId + 1 && forall t :: t in s.tasks ==> t <= s.lastId
    requires (from.Local? && from.w in s.workers) || (from.Post? && from.t in s.tasks)
    requires s2 == Wrap(s, from, sort)
    ensures SameFlags(s, s2) && s2.queue == s.queue && s2.tasks.Keys == s.tasks.Keys + {id}
  {
  }

  lemma PushWrapper(s: State, s2: State, from: Place, id: TaskId)
    requires TokensOk(s2) && SameFlags(s, s2) && Queue(s2, from) == [] && !from.Global?
    requires s2.queue == s.queue && s2.tasks.Keys == s.tasks.Keys + {id} && id !in s.tasks && !Pending(s2, id)
    requires forall t :: Pending(s2, t) <==> Pending(s, t)
    ensures Rescued(s, SetQueue(s2, Global, [id] + s.queue), from)
  {
    var s' := SetQueue(s2, Global, [id] + s.queue);
    SetQueueSetsOne(s2, Global, [id] + s.queue);
    assert id !in Queue(s2, Global);
    NoDupConcat([id], s.queue);
    AddedKeepsTokens(s2, s', Global, id);
  }

  lemma RescueToWorker(s: State, from: Place, sort: bool, w: WorkerId)
    requires TokensOk(s) && Queue(s, from) != []
    requires (from.Local? && from.w in s.workers) || (from.Post? && from.t in s.tasks)
    requires w in s.workers && from != Local(w)
    ensures Rescued(s, Rescue(s, from, sort, Some(w)), from)
  {
    SetQueueSetsOne(s, from, []);
    var local := Queue(s, from) + Queue(s, Local(w));
    var q := if sort then SortById(local) else local;
    SpliceRescues(s, from, Local(w), q);
    assert Rescue(s, from, sort, Some(w)) == SetQueue(SetQueue(s, from, []), Local(w), q);
  }

  lemma RescueOne(s: State, from: Place, sort: bool)
    requires TokensOk(s) && |Queue(s, from)| == 1
    requires (from.Local? && from.w in s.workers) || (from.Post? && from.t in s.tasks)
    ensures Rescued(s, Rescue(s, from, sort, None), from)
  {
    var q := Queue(s, from) + s.queue;
    SpliceRescues(s, from, Global, q);
    assert Rescue(s, from, sort, None) == SetQueue(SetQueue(s, from, []), Global, q);
  }

  lemma RescueMany(s: State, from: Place, sort: bool)
    requires TokensOk(s) && Bounded(s) && |Queue(s, from)| > 1
    requires (from.Local? && from.w in s.workers) || (from.Post? && from.t in s.tasks)
    ensures Rescued(s, Rescue(s, from, sort, None), from)
  {
    var s2, id := Wrap(s, from, sort), s.lastId + 1;
    assert id !in s.tasks;
    assert Rescue(s, from, sort, None) == SetQueue(s2, Global, [id] + s.queue);
    WrapPushed(s, from, sort, s2, id);
  }

  lemma WrapPushed(s: State, from: Place, sort: bool, s2: State, id: TaskId)
    requires TokensOk(s) && Bounded(s) && id == s.lastId + 1 && id !in s.tasks
    requires (from.Local? && from.w in s.workers) || (from.Post? && from.t in s.tasks)
    requires s2 == Wrap(s, from, sort)
    ensures Rescued(s, SetQueue(s2, Global, [id] + s.queue), from)
  {
    WrapMoves(s, from, sort, s2, id);
    PushWrapper(s, s2, from, id);
  }

  lemma RescueNone(s: State, from: Place, sort: bool, at: Option<WorkerId>)
    requires TokensOk(s) && Queue(s, from) == []
    requires (from.Local? && from.w in s.workers) || (from.Post? && from.t in s.tasks)
    requires at.Some? ==> at.value in s.workers
    ensures Rescued(s, Rescue(s, from, sort, at), from)
  {
    assert Rescued(s, s, from);
  }

  /** rescue_queue loses no token: it only adds one for the wrapper it may create. */
  lemma RescueKeepsTokens(s: State, from: Place, sort: bool, at: Option<WorkerId>)
    requires TokensOk(s) && Bounded(s)
    requires (from.Local? && from.w in s.workers) || (from.Post? && from.t in s.tasks)
    requires at.Some? ==> at.value in s.workers && from != Local(at.value)
    ensures Rescued(s, Rescue(s, from, sort, at), from)
  {
    if Queue(s, from) == [] {
      RescueNone(s, from, sort, at);
    } else if at.Some? {
      RescueToWorker(s, from, sort, at.value);
    } else if |Queue(s, from)| == 1 {
      RescueOne(s, from, sort);
    } else {
      RescueMany(s, from, sort);
    }
  }

  // ----- Every step keeps the invariant

  ghost predicate SamePhases(s: State, s': State) {
    && s'.workers.Keys == s.workers.Keys
    && (forall w :: w in s.workers ==> s'.workers[w].phase == s.workers[w].phase)
  }

  lemma SamePhasesRun(s: State, s': State)
    requires SamePhases(s, s')
    ensures forall t :: RunsSomewhere(s', t) <==> RunsSomewhere(s, t)
    ensures WorkersOk(s) && (forall t :: t in s.tasks ==> t in s'.tasks) ==> WorkersOk(s')
  {
    forall t ensures RunsSomewhere(s', t) <==> RunsSomewhere(s, t) {
      if RunsSomewhere(s, t) { var w :| w in s.workers && s.workers[w].phase == Running(t); assert s'.workers[w].phase == Running(t); }
      if RunsSomewhere(s', t) { var w :| w in s'.workers && s'.workers[w].phase == Running(t); assert s.workers[w].phase == Running(t); }
    }
  }

  lemma CreateQueues(s: State)
    requires s.lastId + 1 !in s.tasks
    ensures SameQueues(s, Step(s, Create))
  {
  }

  lemma CreateKeepsInv(s: State)
    requires Inv(s)
    ensures Inv(Step(s, Create))
  {
    var s', id := Step(s, Create), s.lastId + 1;
    assert id !in s.tasks && !Pending(s, id);
    CreateQueues(s);
    SameQueuesKeepTokens(s, s');
    SamePhasesRun(s, s');
    assert !RunsSomewhere(s, id);
    forall t | t in s'.tasks ensures TaskOk(s', t) {
      if t != id { assert TaskOk(s, t); }
    }
  }

  /** A request that leaves the tokens alone or adds one for t, with m_run_now to match. */
  lemma RequestedKeepsInv(s: State, s': State, t: TaskId)
    requires Inv(s) && Live(s, t) && s'.lastId == s.lastId && s'.tasks.Keys == s.tasks.Keys
    requires TokensOk(s') && SamePhases(s, s')
    requires forall x :: Pending(s', x) <==> Pending(s, x) || x == t
    requires forall x :: x in s.tasks && x != t ==> s'.tasks[x].(post := [], sortQueue := false) == s.tasks[x].(post := [], sortQueue := false)
    requires var k, k' := s.tasks[t], s'.tasks[t];
             k'.runNow && !k'.wrapper && k'.isRunning == k.isRunning && (k'.runAgain ==> k.runAgain || k.isRunning)
    ensures Inv(s')
  {
    SamePhasesRun(s, s');
    forall x | x in s'.tasks ensures TaskOk(s', x) {
      assert TaskOk(s, x);
    }
  }

  lemma PendingWhenRunNow(s: State, t: TaskId)
    requires Inv(s) && Live(s, t)
    ensures s.tasks[t].runNow <==> Pending(s, t)
  {
    assert TaskOk(s, t);
  }

  ghost predicate SameQueues(s: State, s': State) {
    forall p :: Queue(s', p) == Queue(s, p)
  }

  lemma SameQueuesKeepTokens(s: State, s': State)
    requires TokensOk(s) && SameQueues(s, s')
    ensures TokensOk(s')
    ensures forall t :: Pending(s', t) <==> Pending(s, t)
  {
    assert Queue(s', Global) == Queue(s, Global) && NoDup(Queue(s, Global));
    MovedKeepsTokens(s, s', Global, Global);
  }

  lemma PushKeepsTokens(s: State, s': State, a: Place, t: TaskId)
    requires TokensOk(s) && !Pending(s, t)
    requires Queue(s', a) == Queue(s, a) + [t] && SameElsewhere(s, s', a, a)
    ensures TokensOk(s')
    ensures forall x :: Pending(s', x) <==> Pending(s, x) || x == t
  {
    assert t !in Queue(s, a);
    NoDupConcat(Queue(s, a), [t]);
    AddedKeepsTokens(s, s', a, t);
  }

  /** Where run() and idle() put a new token. */
  function RequestPlace(s: State, t: TaskId, idle: bool): Place
    requires t in s.tasks
  {
    if s.tasks[t].isRunning then Again(t) else if idle then IdleQueue else Global
  }

  lemma RequestQueues(s: State, t: TaskId, idle: bool)
    requires t in s.tasks
    ensures var s', a := Request(s, t, idle), RequestPlace(s, t, idle);
            if s.tasks[t].runNow then SameQueues(s, s')
            else !s.tasks[t].runAgain ==> Queue(s', a) == Queue(s, a) + [t] && SameElsewhere(s, s', a, a)
  {
    var s', a := Request(s, t, idle), RequestPlace(s, t, idle);
    if !s.tasks[t].runNow && !s.tasks[t].runAgain {
      assert s'.tasks[t].post == s.tasks[t].post;
      assert Queue(s', a) == Queue(s, a) + [t];
      forall p | p != a ensures Queue(s', p) == Queue(s, p) {
      }
    }
  }

  lemma RequestKeepsInv(s: State, t: TaskId, idle: bool)
    requires Inv(s) && Live(s, t)
    ensures Inv(Request(s, t, idle))
  {
    var s' := Request(s, t, idle);
    PendingWhenRunNow(s, t);
    RequestQueues(s, t, idle);
    if s.tasks[t].runNow {
      SameQueuesKeepTokens(s, s');
    } else {
      assert s.tasks[t].runAgain ==> t in Queue(s, Again(t));
      PushKeepsTokens(s, s', RequestPlace(s, t, idle), t);
    }
    RequestedKeepsInv(s, s', t);
  }

  lemma AppendQueues(s: State, parent: TaskId, t: TaskId)
    requires parent in s.tasks && t in s.tasks
    ensures var s', a := AppendTask(s, parent, t), Post(parent);
            if s.tasks[t].runNow then SameQueues(s, s')
            else Queue(s', a) == Queue(s, a) + [t] && SameElsewhere(s, s', a, a)
  {
    var s', a := AppendTask(s, parent, t), Post(parent);
    forall p | p != a ensures Queue(s', p) == Queue(s, p) {
    }
  }

  lemma AppendKeepsInv(s: State, parent: TaskId, t: TaskId)
    requires Inv(s) && Live(s, parent) && Live(s, t)
    ensures Inv(AppendTask(s, parent, t))
  {
    var s' := AppendTask(s, parent, t);
    PendingWhenRunNow(s, t);
    AppendQueues(s, parent, t);
    if s.tasks[t].runNow {
      SameQueuesKeepTokens(s, s');
    } else {
      PushKeepsTokens(s, s', Post(parent), t);
    }
    RequestedKeepsInv(s, s', t);
  }

  /** Steps that only move tokens and touch no flag of a task but m_sort_queue. */
  lemma SpliceKeepsInv(s: State, s': State)
    requires Inv(s) && TokensOk(s') && SamePhases(s, s') && s'.lastId == s.lastId && s'.tasks.Keys == s.tasks.Keys
    requires forall x :: Pending(s', x) <==> Pending(s, x)
    requires forall x :: x in s.tasks ==> s'.tasks[x].(post := [], sortQueue := false) == s.tasks[x].(post := [], sortQueue := false)
    ensures Inv(s')
  {
    SamePhasesRun(s, s');
    forall x | x in s'.tasks ensures TaskOk(s', x) {
      assert TaskOk(s, x);
    }
  }

  lemma SortQueueTokens(s: State, t: TaskId, flag: bool)
    requires TokensOk(s) && t in s.tasks
    ensures var s' := SetTask(s, t, s.tasks[t].(sortQueue := flag));
            TokensOk(s') && (forall x :: Pending(s', x) <==> Pending(s, x)) && SamePhases(s, s')
  {
    var s' := SetTask(s, t, s.tasks[t].(sortQueue := flag));
    assert SameQueues(s, s');
    SameQueuesKeepTokens(s, s');
  }

  lemma SortFlagKeepsInv(s: State, parent: TaskId)
    requires Inv(s) && parent in s.tasks
    ensures Inv(SetTask(s, parent, s.tasks[parent].(sortQueue := true)))
  {
    SortQueueTokens(s, parent, true);
    SpliceKeepsInv(s, SetTask(s, parent, s.tasks[parent].(sortQueue := true)));
  }

  lemma InsertKeepsInv(s: State, parent: TaskId, t: TaskId)
    requires Inv(s) && Live(s, parent) && Live(s, t) && parent != t
    ensures Inv(InsertTask(s, parent, t))
  {
    AppendKeepsInv(s, parent, t);
    if !s.tasks[t].runNow {
      var s1 := AppendTask(s, parent, t);
      SortFlagKeepsInv(s1, parent);
      SplicePostKeepsInv(SetTask(s1, parent, s1.tasks[parent].(sortQueue := true)), parent, t);
    }
  }

  lemma SplicePostMoves(s: State, parent: TaskId, t: TaskId, q: seq<TaskId>)
    requires TokensOk(s) && parent in s.tasks && t in s.tasks && parent != t
    requires q == s.tasks[parent].post + s.tasks[t].post
    ensures var s' := SetQueue(SetQueue(s, Post(t), []), Post(parent), q);
            TokensOk(s') && (forall x :: Pending(s', x) <==> Pending(s, x))
  {
    SpliceMoves(s, Post(t), Post(parent), q);
    MovedKeepsTokens(s, SetQueue(SetQueue(s, Post(t), []), Post(parent), q), Post(t), Post(parent));
  }

  lemma SplicePostKeepsInv(s: State, parent: TaskId, t: TaskId)
    requires Inv(s) && parent in s.tasks && t in s.tasks && parent != t
    ensures Inv(SetQueue(SetQueue(s, Post(t), []), Post(parent), s.tasks[parent].post + s.tasks[t].post))
  {
    var q := s.tasks[parent].post + s.tasks[t].post;
    SplicePostMoves(s, parent, t, q);
    SpliceKeepsInv(s, SetQueue(SetQueue(s, Post(t), []), Post(parent), q));
  }

  // ----- Worker steps

  lemma StartWorkerKeepsInv(s: State, w: WorkerId)
    requires Inv(s) && w !in s.workers
    ensures Inv(Step(s, StartWorker(w)))
  {
    var s' := Step(s, StartWorker(w));
    assert SameQueues(s, s');
    SameQueuesKeepTokens(s, s');
    PhaseChangeRuns(s, s', w);
    forall t | t in s'.tasks ensures TaskOk(s', t) {
      assert TaskOk(s, t);
    }
  }

  /** Only worker w changed phase, and it neither starts nor stops running a task. */
  lemma PhaseChangeRuns(s: State, s': State, w: WorkerId)
    requires forall v :: v != w ==> (v in s'.workers <==> v in s.workers)
    requires forall v :: v != w && v in s.workers ==> s'.workers[v].phase == s.workers[v].phase
    requires w in s.workers ==> !s.workers[w].phase.Running?
    requires w in s'.workers ==> !s'.workers[w].phase.Running?
    ensures forall t :: RunsSomewhere(s', t) <==> RunsSomewhere(s, t)
  {
    forall t ensures RunsSomewhere(s', t) <==> RunsSomewhere(s, t) {
      if RunsSomewhere(s, t) { var v :| v in s.workers && s.workers[v].phase == Running(t); assert v != w && s'.workers[v].phase == Running(t); }
      if RunsSomewhere(s', t) { var v :| v in s'.workers && s'.workers[v].phase == Running(t); assert v != w && s.workers[v].phase == Running(t); }
    }
  }

  function PopPlace(s: State, w: WorkerId): Place
    requires w in s.workers
  {
    if s.workers[w].local != [] then Local(w) else if s.queue != [] then Global else IdleQueue
  }

  lemma PopQueues(s: State, w: WorkerId)
    requires Enabled(s, Pop(w))
    ensures var s', a := PopTask(s, w), PopPlace(s, w);
            && Queue(s, a) != [] && Queue(s', a) == Queue(s, a)[1..]
            && Queue(s, Held(w)) == [] && Queue(s', Held(w)) == [Queue(s, a)[0]]
            && SameElsewhere(s, s', a, Held(w))
            && s'.tasks == s.tasks && s'.lastId == s.lastId
            && s'.workers.Keys == s.workers.Keys && s'.workers[w].phase == Popped(Queue(s, a)[0])
            && (forall v :: v in s.workers && v != w ==> s'.workers[v] == s.workers[v])
  {
  }

  lemma PopKeepsInv(s: State, w: WorkerId)
    requires Inv(s) && Enabled(s, Pop(w))
    ensures Inv(Step(s, Pop(w)))
  {
    var s', a := PopTask(s, w), PopPlace(s, w);
    PopQueues(s, w);
    var q := Queue(s, a);
    assert q == [q[0]] + q[1..] && NoDup(q);
    assert q[0] in q && Pending(s, q[0]);
    PopMoves(s, s', a, w);
    MovedKeepsTokens(s, s', a, Held(w));
    PhaseChangeRuns(s, s', w);
    forall t | t in s'.tasks ensures TaskOk(s', t) {
      assert TaskOk(s, t);
    }
  }

  lemma PopMoves(s: State, s': State, a: Place, w: WorkerId)
    requires SameElsewhere(s, s', a, Held(w)) && a != Held(w)
    requires Queue(s, a) != [] && NoDup(Queue(s, a)) && Queue(s', a) == Queue(s, a)[1..]
    requires Queue(s, Held(w)) == [] && Queue(s', Held(w)) == [Queue(s, a)[0]]
    ensures Moved(s, s', a, Held(w))
  {
    var q := Queue(s, a);
    assert q == [q[0]] + q[1..];
  }

  lemma StartExecQueues(s: State, w: WorkerId)
    requires Enabled(s, ExecStart(w))
    ensures var s', t := StartExec(s, w), s.workers[w].phase.task;
            && Queue(s, Held(w)) == [t] && Queue(s', Held(w)) == []
            && (if s.tasks[t].isRunning then Queue(s', Again(t)) == [t] && SameElsewhere(s, s', Held(w), Again(t))
                else SameElsewhere(s, s', Held(w), Held(w)))
  {
  }

  lemma ExecStartKeepsInv(s: State, w: WorkerId)
    requires Inv(s) && Enabled(s, ExecStart(w))
    ensures Inv(Step(s, ExecStart(w)))
  {
    var s', t := StartExec(s, w), s.workers[w].phase.task;
    StartExecQueues(s, w);
    assert TaskOk(s, t);
    assert t in Queue(s, Held(w)) && Pending(s, t);
    if s.tasks[t].isRunning {
      assert t !in Queue(s, Again(t));
      assert Queue(s, Again(t)) == [];
      assert Moved(s, s', Held(w), Again(t));
      MovedKeepsTokens(s, s', Held(w), Again(t));
      PhaseChangeRuns(s, s', w);
    } else {
      RemovedKeepsTokens(s, s', Held(w), t);
      StartRuns(s, s', w, t);
    }
    forall x | x in s'.tasks ensures TaskOk(s', x) {
      assert TaskOk(s, x);
    }
  }

  /** Worker w started to run t. */
  lemma StartRuns(s: State, s': State, w: WorkerId, t: TaskId)
    requires w in s.workers && !s.workers[w].phase.Running?
    requires s'.workers == s.workers[w := s.workers[w].(phase := Running(t))]
    ensures forall x :: RunsSomewhere(s', x) <==> RunsSomewhere(s, x) || x == t
  {
    assert s'.workers[w].phase == Running(t);
    forall x | RunsSomewhere(s, x) ensures RunsSomewhere(s', x) {
      var v :| v in s.workers && s.workers[v].phase == Running(x);
      assert s'.workers[v].phase == Running(x);
    }
    forall x | RunsSomewhere(s', x) && x != t ensures RunsSomewhere(s, x) {
      var v :| v in s'.workers && s'.workers[v].phase == Running(x);
      assert s.workers[v].phase == Running(x);
    }
  }

  lemma DropKeepsInv(s: State, w: WorkerId)
    requires Inv(s) && Enabled(s, Drop(w))
    ensures Inv(Step(s, Drop(w)))
  {
    var s' := Step(s, Drop(w));
    assert SameQueues(s, s');
    SameQueuesKeepTokens(s, s');
    PhaseChangeRuns(s, s', w);
    forall t | t in s'.tasks ensures TaskOk(s', t) {
      assert TaskOk(s, t);
    }
  }

  lemma RemoveWorkerQueues(s: State, w: WorkerId)
    requires w in s.workers && Queue(s, Local(w)) == [] && s.workers[w].phase.Waiting?
    ensures SameQueues(s, s.(workers := s.workers - {w}))
  {
  }

  lemma ExitKeepsInv(s: State, w: WorkerId)
    requires Inv(s) && Enabled(s, ExitWorker(w))
    ensures Inv(Step(s, ExitWorker(w)))
  {
    InvBounded(s);
    RescueKeepsTokens(s, Local(w), false, None);
    ExitRescued(s, Rescue(s, Local(w), false, None), w);
  }

  lemma ExitRescued(s: State, s1: State, w: WorkerId)
    requires Inv(s) && w in s.workers && s.workers[w].phase.Waiting? && Rescued(s, s1, Local(w))
    ensures Inv(s1.(workers := s1.workers - {w}))
  {
    var s' := s1.(workers := s1.workers - {w});
    RemoveWorkerQueues(s1, w);
    SameQueuesKeepTokens(s1, s');
    PhaseChangeRuns(s, s', w);
    RescuedKeepsTasks(s, s1, s', Local(w));
  }

  lemma InvBounded(s: State)
    requires Inv(s)
    ensures Bounded(s)
  {
    forall t | t in s.tasks ensures t <= s.lastId { assert TaskOk(s, t); }
  }

  /** After a rescue every task is as before; a wrapper, if any, is new, pending and not running. */
  lemma RescuedKeepsTasks(s: State, s1: State, s': State, from: Place)
    requires Inv(s) && Rescued(s, s1, from)
    requires TokensOk(s') && s'.lastId == s1.lastId && s'.tasks == s1.tasks
    requires forall t :: Pending(s', t) <==> Pending(s1, t)
    requires forall t :: RunsSomewhere(s', t) <==> RunsSomewhere(s, t)
    requires forall w :: w in s'.workers ==> w in s.workers && s'.workers[w].phase == s.workers[w].phase
    ensures Inv(s')
  {
    forall t | t in s'.tasks ensures TaskOk(s', t) {
      if t in s.tasks {
        assert TaskOk(s, t);
      } else {
        assert !RunsSomewhere(s, t);
      }
    }
  }

  lemma UnreferencedNotPending(s: State, t: TaskId)
    requires Inv(s) && t in s.tasks && !Referenced(s, t)
    ensures !Pending(s, t) && !RunsSomewhere(s, t) && !s.tasks[t].isRunning && !s.tasks[t].runAgain
  {
    PendingReferenced(s, t);
    assert TaskOk(s, t);
  }

  lemma PendingReferenced(s: State, t: TaskId)
    ensures RunsSomewhere(s, t) ==> Referenced(s, t)
    ensures Pending(s, t) ==> Referenced(s, t) || (t in s.tasks && s.tasks[t].runAgain)
  {
    if RunsSomewhere(s, t) {
      var w :| w in s.workers && s.workers[w].phase == Running(t);
    }
    if Pending(s, t) {
      var p :| t in Queue(s, p);
      match p
      case Local(w) => assert w in s.workers;
      case Held(w) => assert w in s.workers;
      case Post(x) => assert x in s.tasks;
      case _ =>
    }
  }

  lemma RemoveTaskQueues(s: State, t: TaskId)
    requires t in s.tasks && Queue(s, Post(t)) == [] && !s.tasks[t].runAgain
    ensures SameQueues(s, s.(tasks := s.tasks - {t}))
  {
  }

  lemma RemoveTaskKeepsInv(s: State, t: TaskId)
    requires Inv(s) && t in s.tasks && Queue(s, Post(t)) == [] && !s.tasks[t].runAgain && !Pending(s, t)
    requires forall w :: w in s.workers && !s.workers[w].phase.Waiting? ==> s.workers[w].phase.task != t
    ensures Inv(s.(tasks := s.tasks - {t}))
  {
    var s' := s.(tasks := s.tasks - {t});
    RemoveTaskQueues(s, t);
    SameQueuesKeepTokens(s, s');
    SamePhasesRun(s, s');
    forall x | x in s'.tasks ensures TaskOk(s', x) {
      assert TaskOk(s, x);
    }
  }

  lemma DestroyKeepsInv(s: State, t: TaskId, at: Option<WorkerId>)
    requires Inv(s) && Enabled(s, Destroy(t, at))
    ensures Inv(Step(s, Destroy(t, at)))
  {
    var s1 := Rescue(s, Post(t), s.tasks[t].sortQueue, at);
    InvBounded(s);
    UnreferencedNotPending(s, t);
    RescueKeepsTokens(s, Post(t), s.tasks[t].sortQueue, at);
    DestroyRescued(s, s1, t);
  }

  lemma DestroyRescued(s: State, s1: State, t: TaskId)
    requires Inv(s) && t in s.tasks && !Referenced(s, t) && Rescued(s, s1, Post(t))
    ensures Inv(s1.(tasks := s1.tasks - {t}))
  {
    UnreferencedNotPending(s, t);
    SamePhasesRun(s, s1);
    RescuedKeepsTasks(s, s1, s1, Post(t));
    RemoveTaskKeepsInv(s1, t);
  }

  lemma RequeueKeepsTokens(s: State, t: TaskId)
    requires TokensOk(s) && t in s.tasks
    ensures TokensOk(Requeue(s, t))
    ensures forall x :: Pending(Requeue(s, t), x) <==> Pending(s, x)
  {
    if s.tasks[t].runAgain {
      var a := if s.tasks[t].idle then IdleQueue else Post(t);
      RequeueQueues(s, t);
      assert t in Queue(s, Again(t));
      assert t !in Queue(s, a);
      NoDupConcat(Queue(s, a), [t]);
      MovedKeepsTokens(s, Requeue(s, t), Again(t), a);
    }
  }

  lemma RequeueQueues(s: State, t: TaskId)
    requires t in s.tasks && s.tasks[t].runAgain
    ensures var s', a := Requeue(s, t), if s.tasks[t].idle then IdleQueue else Post(t);
            && Queue(s, Again(t)) == [t] && Queue(s', Again(t)) == []
            && Queue(s', a) == Queue(s, a) + [t]
            && SameElsewhere(s, s', Again(t), a)
  {
  }

  /** The first half of the end of exec(): the task is no longer running. */
  function StopRunning(s: State, w: WorkerId): State
    requires Enabled(s, ExecEnd(w))
  {
    var t := s.workers[w].phase.task;
    SetPhase(SetTask(s, t, s.tasks[t].(isRunning := false)), w, Finished(t))
  }

  lemma StopRunningRuns(s: State, w: WorkerId)
    requires Enabled(s, ExecEnd(w)) && WorkersOk(s)
    ensures SameQueues(s, StopRunning(s, w))
    ensures forall x :: RunsSomewhere(StopRunning(s, w), x) <==> RunsSomewhere(s, x) && x != s.workers[w].phase.task
    ensures WorkersOk(StopRunning(s, w))
  {
    var s', t := StopRunning(s, w), s.workers[w].phase.task;
    forall x | RunsSomewhere(s, x) && x != t ensures RunsSomewhere(s', x) {
      var v :| v in s.workers && s.workers[v].phase == Running(x);
      assert s'.workers[v].phase == Running(x);
    }
    forall x | RunsSomewhere(s', x) ensures RunsSomewhere(s, x) && x != t {
      var v :| v in s'.workers && s'.workers[v].phase == Running(x);
      assert v != w && s.workers[v].phase == Running(x);
    }
  }

  lemma EndExecTokens(s: State, w: WorkerId)
    requires Inv(s) && Enabled(s, ExecEnd(w))
    ensures var t := s.workers[w].phase.task;
            var s1 := Requeue(StopRunning(s, w), t);
            && TokensOk(s1) && Bounded(s1) && s1.tasks.Keys == s.tasks.Keys
            && (forall x :: Pending(s1, x) <==> Pending(s, x))
            && SamePhases(StopRunning(s, w), s1)
            && s1.tasks[t].(post := []) == s.tasks[t].(post := [], isRunning := false, runAgain := false)
            && (forall x :: x in s.tasks && x != t ==> s1.tasks[x] == s.tasks[x])
            && s1.lastId == s.lastId
  {
    var t := s.workers[w].phase.task;
    StopRunningRuns(s, w);
    InvBounded(s);
    SameQueuesKeepTokens(s, StopRunning(s, w));
    RequeueKeepsTokens(StopRunning(s, w), t);
  }

  /** What is known once the task has been marked as not running and queued again. */
  ghost predicate Stopped(s: State, s1: State, t: TaskId) {
    && t in s.tasks && s1.tasks.Keys == s.tasks.Keys && s1.lastId == s.lastId
    && TokensOk(s1) && Bounded(s1) && WorkersOk(s1)
    && (forall x :: Pending(s1, x) <==> Pending(s, x))
    && (forall x :: RunsSomewhere(s1, x) <==> RunsSomewhere(s, x) && x != t)
    && s1.tasks[t].(post := []) == s.tasks[t].(post := [], isRunning := false, runAgain := false)
    && (forall x :: x in s.tasks && x != t ==> s1.tasks[x] == s.tasks[x])
  }

  lemma EndExecStops(s: State, w: WorkerId)
    requires Inv(s) && Enabled(s, ExecEnd(w))
    ensures var t := s.workers[w].phase.task;
            Stopped(s, Requeue(StopRunning(s, w), t), t)
  {
    var t := s.workers[w].phase.task;
    EndExecTokens(s, w);
    StopRunningRuns(s, w);
    SamePhasesRun(StopRunning(s, w), Requeue(StopRunning(s, w), t));
  }

  lemma StoppedKeepsInv(s: State, s1: State, t: TaskId, w: WorkerId, sort: bool)
    requires Stopped(s, s1, t) && w in s1.workers
    requires forall x :: x in s.tasks ==> TaskOk(s, x)
    ensures var s2 := Rescue(s1, Post(t), sort, Some(w));
            t in s2.tasks && Inv(SetTask(s2, t, s2.tasks[t].(sortQueue := false)))
  {
    FinishShape(s1, t, sort, w);
    var s2 := Rescue(s1, Post(t), sort, Some(w));
    var s' := SetTask(s2, t, s2.tasks[t].(sortQueue := false));
    SamePhasesRun(s1, s');
    EndedTasks(s, s', t);
  }

  lemma FinishShape(s1: State, t: TaskId, sort: bool, w: WorkerId)
    requires TokensOk(s1) && Bounded(s1) && t in s1.tasks && w in s1.workers
    ensures var s2 := Rescue(s1, Post(t), sort, Some(w));
            t in s2.tasks &&
            var s' := SetTask(s2, t, s2.tasks[t].(sortQueue := false));
            && TokensOk(s') && SamePhases(s1, s') && s'.tasks.Keys == s1.tasks.Keys && s'.lastId == s1.lastId
            && (forall x :: Pending(s', x) <==> Pending(s1, x))
            && (forall x :: x in s1.tasks && x != t ==> s'.tasks[x].(post := []) == s1.tasks[x].(post := []))
            && s'.tasks[t].(post := []) == s1.tasks[t].(post := [], sortQueue := false)
  {
    EndExecRescue(s1, t, sort, w);
    SortQueueTokens(Rescue(s1, Post(t), sort, Some(w)), t, false);
  }

  lemma ExecEndKeepsInv(s: State, w: WorkerId)
    requires Inv(s) && Enabled(s, ExecEnd(w))
    ensures Inv(Step(s, ExecEnd(w)))
  {
    var t := s.workers[w].phase.task;
    EndExecStops(s, w);
    StoppedKeepsInv(s, Requeue(StopRunning(s, w), t), t, w, s.tasks[t].sortQueue);
  }

  lemma EndExecRescue(s1: State, t: TaskId, sort: bool, w: WorkerId)
    requires TokensOk(s1) && Bounded(s1) && t in s1.tasks && w in s1.workers
    ensures var s2 := Rescue(s1, Post(t), sort, Some(w));
            && TokensOk(s2) && SamePhases(s1, s2) && s2.tasks.Keys == s1.tasks.Keys && s2.lastId == s1.lastId
            && (forall x :: Pending(s2, x) <==> Pending(s1, x))
            && (forall x :: x in s1.tasks ==> s2.tasks[x].(post := []) == s1.tasks[x].(post := []))
  {
    RescueKeepsTokens(s1, Post(t), sort, Some(w));
  }

  lemma EndedTasks(s: State, s': State, t: TaskId)
    requires t in s.tasks && s'.tasks.Keys == s.tasks.Keys && s.lastId <= s'.lastId
    requires forall x :: x in s.tasks ==> TaskOk(s, x)
    requires forall x :: Pending(s', x) <==> Pending(s, x)
    requires forall x :: RunsSomewhere(s', x) <==> RunsSomewhere(s, x) && x != t
    requires s'.tasks[t].(post := []) == s.tasks[t].(post := [], isRunning := false, runAgain := false, sortQueue := false)
    requires forall x :: x in s.tasks && x != t ==> s'.tasks[x].(post := []) == s.tasks[x].(post := [])
    ensures forall x :: x in s'.tasks ==> TaskOk(s', x)
  {
    forall x | x in s'.tasks ensures TaskOk(s', x) {
      assert TaskOk(s, x);
      assert s'.tasks[x].runNow == s.tasks[x].runNow;
      assert s'.tasks[x].wrapper == s.tasks[x].wrapper;
    }
  }

  // ----- Main results

  lemma StepKeepsInv(s: State, a: Action)
    requires Inv(s) && Enabled(s, a)
    ensures Inv(Step(s, a))
  {
    match a
    case Create => CreateKeepsInv(s);
    case Run(t) => RequestKeepsInv(s, t, false);
    case Idle(t) => RequestKeepsInv(s, t, true);
    case Append(parent, t) => AppendKeepsInv(s, parent, t);
    case Insert(parent, t) => if parent != t { InsertKeepsInv(s, parent, t); }
    case StartWorker(w) => StartWorkerKeepsInv(s, w);
    case Pop(w) => PopKeepsInv(s, w);
    case ExecStart(w) => ExecStartKeepsInv(s, w);
    case ExecEnd(w) => ExecEndKeepsInv(s, w);
    case Drop(w) => DropKeepsInv(s, w);
    case ExitWorker(w) => ExitKeepsInv(s, w);
    case Destroy(t, at) => DestroyKeepsInv(s, t, at);
  }

  // ----- Whole runs

  /** Every action could be taken when it was: one interleaving of all threads. */
  predicate ValidRun(s: State, acts: seq<Action>)
    decreases |acts|
  {
    acts == [] || (Enabled(s, acts[0]) && ValidRun(Step(s, acts[0]), acts[1..]))
  }

  function After(s: State, acts: seq<Action>): State
    requires ValidRun(s, acts)
    decreases |acts|
  {
    if acts == [] then s else After(Step(s, acts[0]), acts[1..])
  }

  /** From an empty scheduler, no interleaving ever leaves the invariant. */
  lemma {:induction false} RunKeepsInv(s: State, acts: seq<Action>)
    requires Inv(s) && ValidRun(s, acts)
    ensures Inv(After(s, acts))
    decreases |acts|
  {
    if acts != [] {
      StepKeepsInv(s, acts[0]);
      RunKeepsInv(Step(s, acts[0]), acts[1..]);
    }
  }

  lemma InitInv()
    ensures Inv(INIT)
  {
    assert forall p :: Queue(INIT, p) == [];
  }

  /** No task runs in two workers at once, and no task has two pending executions. */
  lemma OneAtATime(acts: seq<Action>, v: WorkerId, w: WorkerId, p: Place, i: nat, q: Place, j: nat)
    requires ValidRun(INIT, acts)
    ensures var s := After(INIT, acts);
            && (v in s.workers && w in s.workers && v != w && s.workers[v].phase.Running? && s.workers[w].phase.Running?
                ==> s.workers[v].phase.task != s.workers[w].phase.task)
            && (i < |Queue(s, p)| && j < |Queue(s, q)| && Queue(s, p)[i] == Queue(s, q)[j] ==> p == q && i == j)
  {
    InitInv();
    RunKeepsInv(INIT, acts);
    var s := After(INIT, acts);
    if i < |Queue(s, p)| && j < |Queue(s, q)| && Queue(s, p)[i] == Queue(s, q)[j] {
      assert Queue(s, p)[i] in Queue(s, q);
      assert NoDup(Queue(s, p));
    }
  }

  /** m_run_now counts the pending executions: there is one exactly when the flag is set. */
  lemma FlagIsToken(acts: seq<Action>, t: TaskId)
    requires ValidRun(INIT, acts) && Live(After(INIT, acts), t)
    ensures var s := After(INIT, acts);
            && (s.tasks[t].runNow <==> exists p :: t in Queue(s, p))
            && (s.tasks[t].isRunning <==> exists w :: w in s.workers && s.workers[w].phase == Running(t))
  {
    InitInv();
    RunKeepsInv(INIT, acts);
    assert TaskOk(After(INIT, acts), t);
  }

  // ----- No request is lost, and none is served twice

  predicate Requested(s: State, t: TaskId) {
    Live(s, t) && s.tasks[t].runNow
  }

  /** The step starts the task's function. */
  predicate Starts(s: State, a: Action, t: TaskId)
    requires Enabled(s, a)
  {
    a.ExecStart? && s.workers[a.w].phase == Popped(t) && Live(s, t) && !s.tasks[t].isRunning
  }

  predicate Requests(a: Action, t: TaskId) {
    match a
    case Run(x) => x == t
    case Idle(x) => x == t
    case Append(_, x) => x == t
    case Insert(p, x) => x == t && p != t
    case _ => false
  }

  /** A request ends when, and only when, the function starts; a request makes one pending execution. */
  lemma RequestFate(s: State, a: Action, t: TaskId)
    requires Inv(s) && Enabled(s, a)
    ensures Requested(Step(s, a), t) <==> (Requested(s, t) && !Starts(s, a, t)) || Requests(a, t)
    ensures Starts(s, a, t) ==> Requested(s, t) && RunsSomewhere(Step(s, a), t)
  {
    if a.Destroy? {
      UnreferencedNotPending(s, a.t);
      assert TaskOk(s, a.t);
      assert t in s.tasks ==> TaskOk(s, t);
      RescueKeepsFlags(s, Post(a.t), s.tasks[a.t].sortQueue, a.at, t);
    } else if a.ExitWorker? {
      assert t in s.tasks ==> TaskOk(s, t);
      RescueKeepsFlags(s, Local(a.w), false, None, t);
    } else if a.ExecEnd? {
      EndExecKeepsFlags(s, a.w, t);
    } else if a.ExecStart? {
      if Starts(s, a, t) { StartIsRequested(s, a.w, t); }
    } else {
      if t in s.tasks { assert TaskOk(s, t); }
      OtherStepFate(s, a, t);
    }
  }

  lemma OtherStepFate(s: State, a: Action, t: TaskId)
    requires Enabled(s, a) && !a.Destroy? && !a.ExitWorker? && !a.ExecEnd? && !a.ExecStart?
    requires t in s.tasks ==> t <= s.lastId
    ensures Requested(Step(s, a), t) <==> Requested(s, t) || Requests(a, t)
  {
    match a
    case Run(x) => RequestSetsFlag(s, x, false, t);
    case Idle(x) => RequestSetsFlag(s, x, true, t);
    case Append(parent, x) => AppendSetsFlag(s, parent, x, t);
    case Insert(parent, x) => if parent != x { InsertSetsFlag(s, parent, x, t); }
    case _ =>
  }

  lemma RequestSetsFlag(s: State, x: TaskId, idle: bool, t: TaskId)
    requires Live(s, x)
    ensures Requested(Request(s, x, idle), t) <==> Requested(s, t) || x == t
  {
  }

  lemma AppendSetsFlag(s: State, parent: TaskId, x: TaskId, t: TaskId)
    requires Live(s, parent) && Live(s, x)
    ensures Requested(AppendTask(s, parent, x), t) <==> Requested(s, t) || x == t
  {
  }

  lemma InsertSetsFlag(s: State, parent: TaskId, x: TaskId, t: TaskId)
    requires Live(s, parent) && Live(s, x) && parent != x
    ensures Requested(InsertTask(s, parent, x), t) <==> Requested(s, t) || x == t
  {
    AppendSetsFlag(s, parent, x, t);
    if !s.tasks[x].runNow { InsertSplits(s, parent, x); }
  }

  lemma StartIsRequested(s: State, w: WorkerId, t: TaskId)
    requires Inv(s) && Enabled(s, ExecStart(w)) && Starts(s, ExecStart(w), t)
    ensures Requested(s, t) && RunsSomewhere(Step(s, ExecStart(w)), t)
  {
    assert t in Queue(s, Held(w));
    assert TaskOk(s, t);
    assert Step(s, ExecStart(w)).workers[w].phase == Running(t);
  }

  lemma RescueKeepsFlags(s: State, from: Place, sort: bool, at: Option<WorkerId>, t: TaskId)
    requires t in s.tasks ==> t <= s.lastId
    requires (from.Local? && from.w in s.workers) || (from.Post? && from.t in s.tasks && from.t <= s.lastId)
    requires at.Some? ==> at.value in s.workers
    ensures Requested(Rescue(s, from, sort, at), t) <==> Requested(s, t)
  {
    var s' := Rescue(s, from, sort, at);
    if at == None && |Queue(s, from)| > 1 {
      assert t in s'.tasks && t != s.lastId + 1 ==> t in s.tasks;
    }
  }

  lemma EndExecKeepsFlags(s: State, w: WorkerId, t: TaskId)
    requires Enabled(s, ExecEnd(w))
    ensures Requested(Step(s, ExecEnd(w)), t) <==> Requested(s, t)
  {
  }

  function Ones(b: bool): nat {
    if b then 1 else 0
  }

  function CountRequests(acts: seq<Action>, t: TaskId): nat {
    if acts == [] then 0 else Ones(Requests(acts[0], t)) + CountRequests(acts[1..], t)
  }

  function CountStarts(s: State, acts: seq<Action>, t: TaskId): nat
    requires ValidRun(s, acts)
    decreases |acts|
  {
    if acts == [] then 0 else Ones(Starts(s, acts[0], t)) + CountStarts(Step(s, acts[0]), acts[1..], t)
  }

  /** A task is executed at most once per request, and not at all without one. */
  lemma {:induction false} StartsAreRequested(s: State, acts: seq<Action>, t: TaskId)
    requires Inv(s) && ValidRun(s, acts)
    ensures CountStarts(s, acts, t) + Ones(Requested(After(s, acts), t)) <= CountRequests(acts, t) + Ones(Requested(s, t))
    decreases |acts|
  {
    if acts != [] {
      RequestFate(s, acts[0], t);
      StepKeepsInv(s, acts[0]);
      StartsAreRequested(Step(s, acts[0]), acts[1..], t);
    }
  }

  /** However the run goes on after a request, the task has a pending execution until its function
      is started after the request: no move between queues, no worker exit and no destruction of
      another task loses it. */
  lemma {:induction false} NeverLost(s: State, acts: seq<Action>, t: TaskId)
    requires Inv(s) && ValidRun(s, acts) && Requested(s, t)
    ensures CountStarts(s, acts, t) == 0 ==> Requested(After(s, acts), t) && Pending(After(s, acts), t)
    decreases |acts|
  {
    if acts == [] {
      assert TaskOk(s, t);
    } else {
      RequestFate(s, acts[0], t);
      StepKeepsInv(s, acts[0]);
      if !Starts(s, acts[0], t) { NeverLost(Step(s, acts[0]), acts[1..], t); }
    }
  }

  /** A request made in any reachable state is served after it or still pending. */
  lemma RequestServed(before: seq<Action>, a: Action, after: seq<Action>, t: TaskId)
    requires ValidRun(INIT, before) && Enabled(After(INIT, before), a) && Requests(a, t)
    requires ValidRun(Step(After(INIT, before), a), after)
    ensures var s := Step(After(INIT, before), a);
            CountStarts(s, after, t) == 0 ==> Pending(After(s, after), t)
  {
    InitInv();
    RunKeepsInv(INIT, before);
    RequestFate(After(INIT, before), a, t);
    StepKeepsInv(After(INIT, before), a);
    NeverLost(Step(After(INIT, before), a), after, t);
  }

  // ----- The code, region by region

  /** The scheduler's shared state.  Each method is one region that runs under the locks, written as
      the source writes it, and is proved to be the step of the same name. */
  class TaskMaster {
    var tasks: map<TaskId, Task>
    var queue: seq<TaskId>
    var idleQueue: seq<TaskId>
    var workers: map<WorkerId, Worker>
    var lastId: TaskId

    function View(): State
      reads this
    {
      State(tasks, queue, idleQueue, workers, lastId)
    }

    constructor ()
      ensures View() == INIT && Inv(View())
    {
      tasks, queue, idleQueue, workers, lastId := map[], [], [], map[], 0;
      new;
      InitInv();
    }

    method CreateTask() returns (id: TaskId)
      modifies this
      ensures View() == Step(old(View()), Create)
      ensures id == lastId
    {
      lastId := lastId + 1;
      tasks := tasks[lastId := NEW_TASK];
      id := lastId;
    }

    method RunTask(t: TaskId)
      requires Live(View(), t)
      modifies this
      ensures View() == Step(old(View()), Run(t))
    {
      tasks := tasks[t := tasks[t].(idle := false)];
      if !tasks[t].runNow {
        tasks := tasks[t := tasks[t].(runNow := true)];
        if tasks[t].isRunning {
          tasks := tasks[t := tasks[t].(runAgain := true)];
        } else {
          queue := queue + [t];
        }
      }
    }

    method IdleTask(t: TaskId)
      requires Live(View(), t)
      modifies this
      ensures View() == Step(old(View()), Idle(t))
    {
      tasks := tasks[t := tasks[t].(idle := true)];
      if !tasks[t].runNow {
        tasks := tasks[t := tasks[t].(runNow := true)];
        if tasks[t].isRunning {
          tasks := tasks[t := tasks[t].(runAgain := true)];
        } else {
          idleQueue := idleQueue + [t];
        }
      }
    }

    method Append(parent: TaskId, t: TaskId)
      requires Live(View(), parent) && Live(View(), t)
      modifies this
      ensures View() == Step(old(View()), Action.Append(parent, t))
    {
      if !tasks[t].runNow {
        tasks := tasks[t := tasks[t].(runNow := true)];
        tasks := tasks[parent := tasks[parent].(post := tasks[parent].post + [t])];
      }
      tasks := tasks[t := tasks[t].(idle := false)];
    }

    /** Returns false where the source throws: a task cannot be inserted after itself. */
    method Insert(parent: TaskId, t: TaskId) returns (ok: bool)
      requires Live(View(), parent) && Live(View(), t)
      modifies this
      ensures View() == Step(old(View()), Action.Insert(parent, t))
      ensures ok == (parent != t)
    {
      if parent == t {
        return false;
      }
      ghost var s := View();
      var task := tasks[t];
      if !task.runNow {
        task := task.(runNow := true);
        var queue := tasks[parent].post + [t] + task.post;
        tasks := tasks[parent := tasks[parent].(sortQueue := true, post := queue)];
        task := task.(post := []);
        InsertSplits(s, parent, t);
      }
      tasks := tasks[t := task.(idle := false)];
      ok := true;
    }

    /** One turn of the worker loop up to the unlock; false when there is nothing to do. */
    method PopNext(w: WorkerId) returns (found: bool)
      requires w in workers && workers[w].phase.Waiting?
      modifies this
      ensures found == Enabled(old(View()), Pop(w))
      ensures View() == if found then Step(old(View()), Pop(w)) else old(View())
    {
      var worker := workers[w];
      if worker.local != [] {
        workers := workers[w := Worker(Popped(worker.local[0]), worker.local[1..])];
      } else if queue != [] {
        workers := workers[w := worker.(phase := Popped(queue[0]))];
        queue := queue[1..];
      } else if idleQueue != [] {
        workers := workers[w := worker.(phase := Popped(idleQueue[0]))];
        idleQueue := idleQueue[1..];
      } else {
        return false;
      }
      found := true;
    }

    /** The first locked region of exec(): decide whether to run the function. */
    method BeginExec(w: WorkerId) returns (run: bool)
      requires w in workers && workers[w].phase.Popped? && workers[w].phase.task in tasks
      modifies this
      ensures View() == Step(old(View()), ExecStart(w))
      ensures run == old(!tasks[workers[w].phase.task].isRunning)
    {
      var t := workers[w].phase.task;
      if tasks[t].isRunning {
        tasks := tasks[t := tasks[t].(runAgain := true)];
        workers := workers[w := workers[w].(phase := Finished(t))];
        run := false;
      } else {
        tasks := tasks[t := tasks[t].(runNow := false)];
        tasks := tasks[t := tasks[t].(isRunning := true)];
        workers := workers[w := workers[w].(phase := Running(t))];
        run := true;
      }
    }

    /** rescue_queue on a post-exec queue or a worker's queue. */
    method RescueQueue(from: Place, sort: bool, at: Option<WorkerId>)
      requires (from.Local? && from.w in workers) || (from.Post? && from.t in tasks && from.t <= lastId)
      requires at.Some? ==> at.value in workers
      modifies this
      ensures View() == Rescue(old(View()), from, sort, at)
    {
      var q := Queue(View(), from);
      if q == [] {
        return;
      }
      if from.Local? {
        workers := workers[from.w := workers[from.w].(local := [])];
      } else {
        tasks := tasks[from.t := tasks[from.t].(post := [])];
      }
      if at.Some? {
        var local := q + workers[at.value].local;
        if sort {
          local := SortById(local);
        }
        workers := workers[at.value := workers[at.value].(local := local)];
      } else if |q| == 1 {
        queue := q + queue;
      } else {
        lastId := lastId + 1;
        tasks := tasks[lastId := NEW_TASK.(wrapper := true, post := q, sortQueue := sort)];
        queue := [lastId] + queue;
      }
    }

    /** The second locked region of exec(). */
    method FinishExec(w: WorkerId)
      requires Enabled(View(), ExecEnd(w)) && workers[w].phase.task <= lastId
      modifies this
      ensures View() == Step(old(View()), ExecEnd(w))
    {
      var t := workers[w].phase.task;
      var sort := tasks[t].sortQueue;
      tasks := tasks[t := tasks[t].(isRunning := false)];
      workers := workers[w := workers[w].(phase := Finished(t))];
      if tasks[t].runAgain {
        tasks := tasks[t := tasks[t].(runAgain := false)];
        if tasks[t].idle {
          idleQueue := idleQueue + [t];
        } else {
          tasks := tasks[t := tasks[t].(post := tasks[t].post + [t])];
        }
      }
      RescueQueue(Post(t), sort, Some(w));
      tasks := tasks[t := tasks[t].(sortQueue := false)];
    }

    /** The worker leaves: its local queue goes back to the global one. */
    method Exit(w: WorkerId)
      requires Enabled(View(), ExitWorker(w))
      modifies this
      ensures View() == Step(old(View()), ExitWorker(w))
    {
      RescueQueue(Local(w), false, None);
      workers := workers - {w};
    }

    /** ~TaskState */
    method DestroyTask(t: TaskId, at: Option<WorkerId>)
      requires Enabled(View(), Destroy(t, at)) && t <= lastId
      modifies this
      ensures View() == Step(old(View()), Destroy(t, at))
    {
      RescueQueue(Post(t), tasks[t].sortQueue, at);
      tasks := tasks - {t};
    }
  }

  lemma LastUpdatesWin(m: map<TaskId, Task>, p: TaskId, t: TaskId, a: Task, b: Task, c: Task, d: Task, e: Task)
    requires p != t
    ensures m[t := a][p := b][p := c][t := d][p := e] == m[p := e][t := d]
  {
  }

  /** Appending the task and then its queue, in the order of the source. */
  lemma InsertSplits(s: State, parent: TaskId, t: TaskId)
    requires parent in s.tasks && t in s.tasks && parent != t && !s.tasks[t].runNow
    ensures InsertTask(s, parent, t).tasks ==
            s.tasks[parent := s.tasks[parent].(sortQueue := true, post := s.tasks[parent].post + [t] + s.tasks[t].post)]
                   [t := s.tasks[t].(runNow := true, idle := false, post := [])]
    ensures InsertTask(s, parent, t) == s.(tasks := InsertTask(s, parent, t).tasks)
  {
    var k, q := s.tasks[t].(runNow := true, idle := false), s.tasks[parent];
    var post := q.post + [t];
    LastUpdatesWin(s.tasks, parent, t, k, q.(post := post), q.(post := post, sortQueue := true),
                   k.(post := []), q.(post := post + k.post, sortQueue := true));
  }
}
