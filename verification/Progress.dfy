/**
 Which requests of the scheduler (Tasks) can be served.  A task in the post-exec queue of another waits
 for it; tasks that wait for each other in a circle are never started, and all others can be.
 */
module Progress {

  import opened Common
  import opened Tasks

  /** x is in the post-exec queue of a member of C that is not running. */
  ghost predicate Waits(s: State, C: set<TaskId>, x: TaskId) {
    exists y :: y in C && WaitsFor(s, x, y)
  }

  ghost predicate WaitsFor(s: State, x: TaskId, y: TaskId) {
    y in s.tasks && !s.tasks[y].isRunning && x in s.tasks[y].post
  }

  /** Every member of C waits for another one, or for itself.  A task that is running now may be in C for
      the sake of its next execution, but nothing in C waits for it. */
  ghost predicate Stuck(s: State, C: set<TaskId>) {
    forall x {:trigger Waits(s, C, x)} :: x in C ==> Waits(s, C, x)
  }

  ghost predicate InCircle(s: State, t: TaskId) {
    exists C :: t in C && Stuck(s, C)
  }

  // ----- Once stuck, always stuck

  /** Only its own execution or destruction takes tasks out of y's queue, and y cannot be executed or
      destroyed while it is in a queue itself. */
  lemma WaitStays(s: State, a: Action, x: TaskId, y: TaskId, z: TaskId)
    requires Inv(s) && Enabled(s, a) && WaitsFor(s, x, y) && z in s.tasks && y in s.tasks[z].post
    ensures WaitsFor(Step(s, a), x, y)
  {
    assert y in Queue(s, Post(z)) && Pending(s, y);
    assert TaskOk(s, y);
    match a
    case Destroy(t, at) =>
      assert Referenced(s, y);
      RescueKeepsPost(s, Post(t), s.tasks[t].sortQueue, at, y);
    case ExitWorker(w) =>
      RescueKeepsPost(s, Local(w), false, None, y);
    case ExecStart(w) =>
      assert s.workers[w].phase.task in Queue(s, Held(w));
    case ExecEnd(w) =>
      EndKeepsPost(s, w, y);
    case Insert(parent, t) =>
      if parent != t { InsertKeepsPost(s, parent, t, x, y); }
    case _ =>
      OtherKeepsPost(s, a, x, y);
  }

  lemma OtherKeepsPost(s: State, a: Action, x: TaskId, y: TaskId)
    requires Enabled(s, a) && WaitsFor(s, x, y) && y <= s.lastId
    requires a.Create? || a.Run? || a.Idle? || a.Append? || a.StartWorker? || a.Pop? || a.Drop?
    ensures WaitsFor(Step(s, a), x, y)
  {
  }

  lemma InsertKeepsPost(s: State, parent: TaskId, t: TaskId, x: TaskId, y: TaskId)
    requires Live(s, parent) && Live(s, t) && parent != t && WaitsFor(s, x, y) && (y == t ==> s.tasks[t].runNow)
    ensures WaitsFor(InsertTask(s, parent, t), x, y)
  {
    if !s.tasks[t].runNow { InsertSplits(s, parent, t); }
  }

  lemma RescueKeepsPost(s: State, from: Place, sort: bool, at: Option<WorkerId>, y: TaskId)
    requires (from.Local? && from.w in s.workers) || (from.Post? && from.t in s.tasks && from.t != y)
    requires at.Some? ==> at.value in s.workers
    requires y in s.tasks && y <= s.lastId
    ensures y in Rescue(s, from, sort, at).tasks && Rescue(s, from, sort, at).tasks[y] == s.tasks[y]
  {
  }

  lemma EndKeepsPost(s: State, w: WorkerId, y: TaskId)
    requires Enabled(s, ExecEnd(w)) && y in s.tasks && y != s.workers[w].phase.task
    ensures y in Step(s, ExecEnd(w)).tasks && Step(s, ExecEnd(w)).tasks[y] == s.tasks[y]
  {
  }

  lemma StuckStays(s: State, a: Action, C: set<TaskId>)
    requires Inv(s) && Enabled(s, a) && Stuck(s, C)
    ensures Stuck(Step(s, a), C)
  {
    forall x | x in C ensures Waits(Step(s, a), C, x) {
      assert Waits(s, C, x);
      var y :| y in C && WaitsFor(s, x, y);
      assert Waits(s, C, y);
      var z :| z in C && WaitsFor(s, y, z);
      WaitStays(s, a, x, y, z);
    }
  }

  /** A stuck task is never started, whatever any thread does. */
  lemma {:induction false} StuckNeverStarts(s: State, acts: seq<Action>, C: set<TaskId>, t: TaskId)
    requires Inv(s) && ValidRun(s, acts) && Stuck(s, C) && t in C
    ensures CountStarts(s, acts, t) == 0
    decreases |acts|
  {
    if acts != [] {
      StuckNotStarted(s, acts[0], C, t);
      StuckStays(s, acts[0], C);
      StepKeepsInv(s, acts[0]);
      StuckNeverStarts(Step(s, acts[0]), acts[1..], C, t);
    }
  }

  lemma StuckNotStarted(s: State, a: Action, C: set<TaskId>, t: TaskId)
    requires Inv(s) && Enabled(s, a) && Stuck(s, C) && t in C
    ensures !Starts(s, a, t)
  {
    assert Waits(s, C, t);
    var y :| y in C && WaitsFor(s, t, y);
    assert t in Queue(s, Post(y));
    assert a.ExecStart? ==> t !in Queue(s, Held(a.w));
  }

  /** Appending two tasks to each other before either is requested, or one to itself, makes a circle. */
  lemma MutualAppendIsStuck(s: State, a: TaskId, b: TaskId)
    requires Inv(s) && Live(s, a) && Live(s, b) && !s.tasks[a].runNow && !s.tasks[b].runNow
    requires !s.tasks[a].isRunning && !s.tasks[b].isRunning
    ensures Enabled(Step(s, Append(a, b)), Append(b, a))
    ensures Stuck(Step(Step(s, Append(a, b)), Append(b, a)), {a, b})
  {
    var s' := Step(Step(s, Append(a, b)), Append(b, a));
    assert WaitsFor(s', b, a) && WaitsFor(s', a, b);
  }

  // ----- Running until nothing can be done

  /** The steps that workers and destructors take without any new request. */
  predicate Quiet(a: Action) {
    a.StartWorker? || a.Pop? || a.ExecStart? || a.ExecEnd? || a.Drop? || (a.Destroy? && a.at.Some?)
  }

  predicate AllQuiet(acts: seq<Action>) {
    forall i :: 0 <= i < |acts| ==> Quiet(acts[i])
  }

  /** Quiet steps put nothing into a post-exec queue, so they close no circle. */
  lemma QuietWaitsBefore(s: State, a: Action, x: TaskId, y: TaskId)
    requires Inv(s) && Enabled(s, a) && Quiet(a) && WaitsFor(Step(s, a), x, y)
    ensures WaitsFor(s, x, y)
  {
    match a
    case Destroy(t, at) =>
      assert y in Rescue(s, Post(t), s.tasks[t].sortQueue, at).tasks;
      assert y != t && y in s.tasks;
      assert TaskOk(s, y);
      RescueKeepsPost(s, Post(t), s.tasks[t].sortQueue, at, y);
    case ExecEnd(w) =>
      if y == s.workers[w].phase.task { EndEmptiesPost(s, w); } else { EndKeepsPost(s, w, y); }
    case _ =>
  }

  lemma EndEmptiesPost(s: State, w: WorkerId)
    requires Enabled(s, ExecEnd(w))
    ensures var t := s.workers[w].phase.task;
            t in Step(s, ExecEnd(w)).tasks && Step(s, ExecEnd(w)).tasks[t].post == []
    ensures Step(s, ExecEnd(w)).tasks.Keys == s.tasks.Keys
  {
  }

  lemma QuietStuckBefore(s: State, a: Action, C: set<TaskId>)
    requires Inv(s) && Enabled(s, a) && Quiet(a) && Stuck(Step(s, a), C)
    ensures Stuck(s, C)
  {
    forall x | x in C ensures Waits(s, C, x) {
      assert Waits(Step(s, a), C, x);
      var y :| y in C && WaitsFor(Step(s, a), x, y);
      QuietWaitsBefore(s, a, x, y);
    }
  }

  lemma {:induction false} QuietRunStuckBefore(s: State, acts: seq<Action>, C: set<TaskId>)
    requires Inv(s) && ValidRun(s, acts) && AllQuiet(acts) && Stuck(After(s, acts), C)
    ensures Stuck(s, C)
    decreases |acts|
  {
    if acts != [] {
      StepKeepsInv(s, acts[0]);
      assert Quiet(acts[0]) && AllQuiet(acts[1..]);
      QuietRunStuckBefore(Step(s, acts[0]), acts[1..], C);
      QuietStuckBefore(s, acts[0], C);
    }
  }

  // ----- Each step leaves less to do

  ghost function Pend(s: State): set<TaskId> {
    set x | x in s.tasks && Pending(s, x)
  }

  function Runners(s: State): set<WorkerId> {
    set w | w in s.workers && s.workers[w].phase.Running?
  }

  /** The tasks that are not noted to run again. */
  function Calm(s: State): set<TaskId> {
    set x | x in s.tasks && !s.tasks[x].runAgain
  }

  function Finishers(s: State): set<WorkerId> {
    set w | w in s.workers && s.workers[w].phase.Finished?
  }

  function Waiters(s: State): set<WorkerId> {
    set w | w in s.workers && s.workers[w].phase.Waiting?
  }

  ghost predicate Less(s': State, s: State) {
    || Pend(s') < Pend(s)
    || (Pend(s') == Pend(s) && (
          || Runners(s') < Runners(s)
          || (Runners(s') == Runners(s) && (
                || Calm(s') < Calm(s)
                || (Calm(s') == Calm(s) && (
                      || Finishers(s') < Finishers(s)
                      || (Finishers(s') == Finishers(s) && Waiters(s') < Waiters(s))))))))
  }

  lemma DropIsLess(s: State, w: WorkerId)
    requires Inv(s) && Enabled(s, Drop(w))
    ensures Less(Step(s, Drop(w)), s)
  {
    var s' := Step(s, Drop(w));
    assert SameQueues(s, s');
    SameQueuesKeepTokens(s, s');
    assert Pend(s') == Pend(s) && Runners(s') == Runners(s) && Calm(s') == Calm(s);
    assert w in Finishers(s) && w !in Finishers(s');
  }

  lemma EndIsLess(s: State, w: WorkerId)
    requires Inv(s) && Enabled(s, ExecEnd(w))
    ensures Less(Step(s, ExecEnd(w)), s)
  {
    var s', t := Step(s, ExecEnd(w)), s.workers[w].phase.task;
    var s1 := Requeue(StopRunning(s, w), t);
    EndExecTokens(s, w);
    FinishShape(s1, t, s.tasks[t].sortQueue, w);
    assert Pend(s') == Pend(s);
    assert w in Runners(s) && w !in Runners(s');
    assert Runners(s') < Runners(s);
  }

  lemma StartIsLess(s: State, w: WorkerId)
    requires Inv(s) && Enabled(s, ExecStart(w))
    ensures Less(Step(s, ExecStart(w)), s)
  {
    var s', t := StartExec(s, w), s.workers[w].phase.task;
    StartExecQueues(s, w);
    assert t in Queue(s, Held(w)) && Pending(s, t);
    if s.tasks[t].isRunning {
      assert t !in Queue(s, Again(t));
      assert Moved(s, s', Held(w), Again(t));
      MovedKeepsTokens(s, s', Held(w), Again(t));
      assert Pend(s') == Pend(s) && Runners(s') == Runners(s);
      assert t in Calm(s) && t !in Calm(s');
    } else {
      RemovedKeepsTokens(s, s', Held(w), t);
      assert t in Pend(s) && t !in Pend(s');
    }
  }

  lemma PopIsLess(s: State, w: WorkerId)
    requires Inv(s) && Enabled(s, Pop(w))
    ensures Less(Step(s, Pop(w)), s)
  {
    var s', a := PopTask(s, w), PopPlace(s, w);
    PopQueues(s, w);
    PopMoves(s, s', a, w);
    MovedKeepsTokens(s, s', a, Held(w));
    assert Pend(s') == Pend(s) && Runners(s') == Runners(s) && Calm(s') == Calm(s) && Finishers(s') == Finishers(s);
    assert w in Waiters(s) && w !in Waiters(s');
  }

  lemma DestroyIsLess(s: State, t: TaskId, w: WorkerId)
    requires Inv(s) && Enabled(s, Destroy(t, Some(w)))
    ensures Less(Step(s, Destroy(t, Some(w))), s)
  {
    var s1, s' := Rescue(s, Post(t), s.tasks[t].sortQueue, Some(w)), Step(s, Destroy(t, Some(w)));
    InvBounded(s);
    UnreferencedNotPending(s, t);
    EndExecRescue(s, t, s.tasks[t].sortQueue, w);
    RescueKeepsTokens(s, Post(t), s.tasks[t].sortQueue, Some(w));
    RemoveTaskQueues(s1, t);
    SameQueuesKeepTokens(s1, s');
    assert Pend(s') == Pend(s) && Runners(s') == Runners(s);
    assert t in Calm(s) && t !in Calm(s');
  }

  /** No worker has anything in hand or to take, and no task that holds others back can be destroyed. */
  ghost predicate AtRest(s: State) {
    && (forall w :: w in s.workers ==> s.workers[w].phase.Waiting? && s.workers[w].local == [])
    && s.queue == [] && s.idleQueue == []
    && (forall y :: y in s.tasks && s.tasks[y].post != [] ==> Referenced(s, y))
  }

  /** A step that can be taken in a state that is not idle. */
  ghost function NextStep(s: State, w: WorkerId): (a: Action)
    requires WorkersOk(s) && w in s.workers && !AtRest(s)
    ensures Quiet(a) && !a.StartWorker? && Enabled(s, a)
  {
    if exists v :: v in s.workers && s.workers[v].phase.Finished? then
      var v :| v in s.workers && s.workers[v].phase.Finished?;
      Drop(v)
    else if exists v :: v in s.workers && s.workers[v].phase.Running? then
      var v :| v in s.workers && s.workers[v].phase.Running?;
      ExecEnd(v)
    else if exists v :: v in s.workers && s.workers[v].phase.Popped? then
      var v :| v in s.workers && s.workers[v].phase.Popped?;
      ExecStart(v)
    else if exists v :: v in s.workers && s.workers[v].local != [] then
      var v :| v in s.workers && s.workers[v].local != [];
      Pop(v)
    else if s.queue != [] || s.idleQueue != [] then Pop(w)
    else
      var y :| y in s.tasks && s.tasks[y].post != [] && !Referenced(s, y);
      Destroy(y, Some(w))
  }

  lemma QuietIsLess(s: State, a: Action)
    requires Inv(s) && Enabled(s, a) && Quiet(a) && !a.StartWorker?
    ensures Less(Step(s, a), s)
  {
    match a
    case Drop(v) => DropIsLess(s, v);
    case ExecEnd(v) => EndIsLess(s, v);
    case ExecStart(v) => StartIsLess(s, v);
    case Pop(v) => PopIsLess(s, v);
    case Destroy(t, at) => DestroyIsLess(s, t, at.value);
  }

  lemma QuietKeepsWorkers(s: State, a: Action, w: WorkerId)
    requires Enabled(s, a) && Quiet(a) && w in s.workers
    ensures w in Step(s, a).workers
  {
  }

  /** Workers that only finish what has been requested come to an end. */
  lemma {:induction false} RunToRest(s: State, w: WorkerId) returns (acts: seq<Action>)
    requires Inv(s) && w in s.workers
    ensures ValidRun(s, acts) && AllQuiet(acts) && Inv(After(s, acts)) && AtRest(After(s, acts))
    decreases Pend(s), Runners(s), Calm(s), Finishers(s), Waiters(s)
  {
    if AtRest(s) {
      acts := [];
    } else {
      var a := NextStep(s, w);
      QuietIsLess(s, a);
      QuietKeepsWorkers(s, a, w);
      StepKeepsInv(s, a);
      var rest := RunToRest(Step(s, a), w);
      acts := [a] + rest;
      assert acts[1..] == rest;
    }
  }

  /** At rest, whatever is pending is in the queue of another task that is pending. */
  lemma RestIsStuck(s: State)
    requires Inv(s) && AtRest(s)
    ensures Stuck(s, Pend(s))
  {
    forall x | x in Pend(s) ensures Waits(s, Pend(s), x) {
      var p :| x in Queue(s, p);
      RestPlaces(s, p, x);
      assert Referenced(s, p.t);
      var z :| z in s.tasks && p.t in s.tasks[z].post;
      assert p.t in Queue(s, Post(z)) && Pending(s, p.t);
      assert TaskOk(s, p.t);
      assert WaitsFor(s, x, p.t);
    }
  }

  lemma RestPlaces(s: State, p: Place, x: TaskId)
    requires Inv(s) && AtRest(s) && x in Queue(s, p)
    ensures p.Post? && p.t in s.tasks && x in s.tasks[p.t].post && !s.tasks[p.t].isRunning
  {
    assert p.Again? ==> TaskOk(s, p.t);
    assert p.Post? ==> TaskOk(s, p.t);
  }

  // ----- Main result

  lemma FreshWorker(s: State) returns (w: WorkerId)
    ensures w !in s.workers
  {
    w := Above(s.workers.Keys);
  }

  lemma {:induction false} Above(ws: set<WorkerId>) returns (w: WorkerId)
    ensures forall v :: v in ws ==> v < w
    decreases ws
  {
    if ws == {} {
      w := 0;
    } else {
      var v :| v in ws;
      var u := Above(ws - {v});
      w := if u > v then u else v + 1;
      forall x | x in ws ensures x < w {
        assert x == v || x in ws - {v};
      }
    }
  }

  /** However the workers go about it: when they have come to rest without any new request, every task that
      was requested and not stuck has been started. */
  lemma RestServesAll(s: State, acts: seq<Action>, t: TaskId)
    requires Inv(s) && ValidRun(s, acts) && AllQuiet(acts) && AtRest(After(s, acts))
    requires Requested(s, t) && !InCircle(s, t)
    ensures CountStarts(s, acts, t) > 0
  {
    var end := After(s, acts);
    RunKeepsInv(s, acts);
    RestIsStuck(end);
    QuietRunStuckBefore(s, acts, Pend(end));
    NeverLost(s, acts, t);
    assert t !in Pend(end);
  }

  /** From any state, workers that get no new request start every task that is not stuck. */
  lemma CanStart(s: State, t: TaskId) returns (acts: seq<Action>)
    requires Inv(s) && Requested(s, t) && !InCircle(s, t)
    ensures ValidRun(s, acts) && AllQuiet(acts) && CountStarts(s, acts, t) > 0
  {
    var w := FreshWorker(s);
    StepKeepsInv(s, StartWorker(w));
    var rest := RunToRest(Step(s, StartWorker(w)), w);
    acts := [StartWorker(w)] + rest;
    assert acts[1..] == rest;
    RestServesAll(s, acts, t);
  }

  /** A request can be served if and only if its task is not in a circle of waiting tasks. */
  lemma ServedIffNotStuck(s: State, t: TaskId)
    requires Inv(s) && Requested(s, t)
    ensures (exists acts :: ValidRun(s, acts) && CountStarts(s, acts, t) > 0) <==> !InCircle(s, t)
  {
    if InCircle(s, t) {
      var C :| t in C && Stuck(s, C);
      forall acts | ValidRun(s, acts) ensures CountStarts(s, acts, t) == 0 { StuckNeverStarts(s, acts, C, t); }
    } else {
      var acts := CanStart(s, t);
    }
  }

  // ----- How long workers can go on without a new request

  function CountNew(acts: seq<Action>): nat {
    if acts == [] then 0 else Ones(acts[0].StartWorker?) + CountNew(acts[1..])
  }

  ghost function Digits(s: State, starts: nat): seq<nat> {
    [starts, |Pend(s)|, |Runners(s)|, |Calm(s)|, |Finishers(s)|, |Waiters(s)|]
  }

  function Number(d: seq<nat>, b: nat): nat {
    if d == [] then 0 else Number(d[..|d| - 1], b) * b + d[|d| - 1]
  }

  /** The measure as one number, in base b. */
  ghost function Weight(s: State, starts: nat, b: nat): nat {
    Number(Digits(s, starts), b)
  }

  lemma {:induction false} NumberLess(d': seq<nat>, d: seq<nat>, b: nat, i: nat)
    requires |d'| == |d| && i < |d| && d'[..i] == d[..i] && d'[i] < d[i] && forall j :: i < j < |d| ==> d'[j] < b
    ensures Number(d', b) < Number(d, b)
    decreases |d|
  {
    var n := |d| - 1;
    if i < n {
      assert d'[..n][..i] == d'[..i] && d[..n][..i] == d[..i];
      NumberLess(d'[..n], d[..n], b, i);
      NextLess(Number(d[..n], b), d[n], Number(d'[..n], b), d'[n], b);
    }
  }

  lemma NextLess(high: nat, low: nat, high': nat, low': nat, b: nat)
    requires low' < b && high' < high
    ensures high' * b + low' < high * b + low
  {
    assert (high' + 1) * b <= high * b;
  }

  ghost predicate Fits(s: State, starts: nat, b: nat) {
    |s.tasks| < b && |s.workers| + starts < b
  }

  lemma SubsetSize<T>(a: set<T>, b: set<T>)
    requires a <= b
    ensures |a| <= |b| && (a < b ==> |a| < |b|)
  {
    var rest := b - a;
    assert b == a + rest;
    if a < b {
      var x :| x in b && x !in a;
      assert x in rest;
    }
  }

  lemma DigitsFit(s: State, starts: nat, b: nat)
    requires Fits(s, starts, b)
    ensures |Pend(s)| < b && |Runners(s)| < b && |Calm(s)| < b && |Finishers(s)| < b && |Waiters(s)| < b
  {
    SubsetSize(Pend(s), s.tasks.Keys);
    SubsetSize(Calm(s), s.tasks.Keys);
    SubsetSize(Runners(s), s.workers.Keys);
    SubsetSize(Finishers(s), s.workers.Keys);
    SubsetSize(Waiters(s), s.workers.Keys);
  }

  lemma LessWeighsLess(s': State, s: State, starts: nat, b: nat)
    requires Less(s', s) && Fits(s', starts, b)
    ensures Weight(s', starts, b) < Weight(s, starts, b)
  {
    DigitsFit(s', starts, b);
    var i := LessDigit(s', s, starts);
    NumberLess(Digits(s', starts), Digits(s, starts), b, i);
  }

  /** The first digit that differs. */
  lemma LessDigit(s': State, s: State, starts: nat) returns (i: nat)
    requires Less(s', s)
    ensures i < 6 && Digits(s', starts)[..i] == Digits(s, starts)[..i] && Digits(s', starts)[i] < Digits(s, starts)[i]
  {
    if Pend(s') < Pend(s) {
      SubsetSize(Pend(s'), Pend(s));
      i := 1;
    } else if Runners(s') < Runners(s) {
      SubsetSize(Runners(s'), Runners(s));
      i := 2;
    } else if Calm(s') < Calm(s) {
      SubsetSize(Calm(s'), Calm(s));
      i := 3;
    } else if Finishers(s') < Finishers(s) {
      SubsetSize(Finishers(s'), Finishers(s));
      i := 4;
    } else {
      SubsetSize(Waiters(s'), Waiters(s));
      i := 5;
    }
  }

  lemma RescueKeepsKeys(s: State, from: Place, sort: bool, w: WorkerId)
    requires from.Post? && from.t in s.tasks && w in s.workers
    ensures var s' := Rescue(s, from, sort, Some(w)); s'.tasks.Keys == s.tasks.Keys && s'.workers.Keys == s.workers.Keys
  {
  }

  lemma EndKeepsKeys(s: State, w: WorkerId)
    requires Enabled(s, ExecEnd(w))
    ensures Step(s, ExecEnd(w)).tasks.Keys == s.tasks.Keys && Step(s, ExecEnd(w)).workers.Keys == s.workers.Keys
  {
    EndEmptiesPost(s, w);
    var t := s.workers[w].phase.task;
    RescueKeepsKeys(Requeue(StopRunning(s, w), t), Post(t), s.tasks[t].sortQueue, w);
  }

  /** No task is made, and a worker only if it is started. */
  lemma QuietKeys(s: State, a: Action)
    requires Enabled(s, a) && Quiet(a)
    ensures Step(s, a).tasks.Keys <= s.tasks.Keys
    ensures Step(s, a).workers.Keys == s.workers.Keys + if a.StartWorker? then {a.w} else {}
  {
    match a
    case ExecEnd(w) => EndKeepsKeys(s, w);
    case Destroy(t, at) => RescueKeepsKeys(s, Post(t), s.tasks[t].sortQueue, at.value);
    case _ =>
  }

  lemma QuietFits(s: State, a: Action, starts: nat, b: nat)
    requires Enabled(s, a) && Quiet(a) && Fits(s, starts + Ones(a.StartWorker?), b)
    ensures Fits(Step(s, a), starts, b)
  {
    QuietKeys(s, a);
    SubsetSize(Step(s, a).tasks.Keys, s.tasks.Keys);
    assert |Step(s, a).tasks| == |Step(s, a).tasks.Keys| && |Step(s, a).workers| == |Step(s, a).workers.Keys|;
    assert |s.tasks| == |s.tasks.Keys| && |s.workers| == |s.workers.Keys|;
  }

  lemma NewWorkerWeighsLess(s: State, w: WorkerId, starts: nat, b: nat)
    requires Enabled(s, StartWorker(w)) && Fits(Step(s, StartWorker(w)), starts, b)
    ensures Weight(Step(s, StartWorker(w)), starts, b) < Weight(s, starts + 1, b)
  {
    var s' := Step(s, StartWorker(w));
    DigitsFit(s', starts, b);
    NumberLess(Digits(s', starts), Digits(s, starts + 1), b, 0);
  }

  lemma QuietWeighsLess(s: State, a: Action, starts: nat, b: nat)
    requires Inv(s) && Enabled(s, a) && Quiet(a) && Fits(s, starts + Ones(a.StartWorker?), b)
    ensures Fits(Step(s, a), starts, b) && Weight(Step(s, a), starts, b) < Weight(s, starts + Ones(a.StartWorker?), b)
  {
    QuietFits(s, a, starts, b);
    if a.StartWorker? {
      NewWorkerWeighsLess(s, a.w, starts, b);
    } else {
      QuietIsLess(s, a);
      LessWeighsLess(Step(s, a), s, starts, b);
    }
  }

  /** Every run without a new request is bounded: by its new workers and the size of the state it starts in. */
  lemma {:induction false} QuietRunIsBounded(s: State, acts: seq<Action>, b: nat)
    requires Inv(s) && ValidRun(s, acts) && AllQuiet(acts) && Fits(s, CountNew(acts), b)
    ensures |acts| <= Weight(s, CountNew(acts), b)
    decreases |acts|
  {
    if acts != [] {
      var a, rest := acts[0], acts[1..];
      var s', n := Step(s, a), CountNew(rest);
      assert Quiet(a) && AllQuiet(rest) && CountNew(acts) == n + Ones(a.StartWorker?);
      QuietWeighsLess(s, a, n, b);
      StepKeepsInv(s, a);
      QuietRunIsBounded(s', rest, b);
    }
  }
}
