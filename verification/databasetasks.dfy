/**
 The database task queue (src/databasetasks.cpp): a worker thread, any number of callers that add tasks,
 and any number that flush the queue, one of which may be shutting it down. Every critical section is one
 step, and so is the worker's look at the thread's state, which needs no lock; all interleavings of the steps
 are considered. Each accepted task is taken exactly once, in order,
 and when a shutdown has returned the queue is empty for good.
 */
module DatabaseTasks {

  datatype ThreadState = Running | Closing | Terminated

  type Task = nat

  /**
   Where the worker is: about to read the thread's state, which it does without the lock; past that and about
   to lock the queue; waiting for a signal; running a task; or out of its loop.
   */
  datatype Worker = Checking | Looking | Waiting | Busy(task: Task) | Stopped

  /** Where a caller of flush is: between tasks, running one, or back; shutdown calls flush too. */
  datatype Flusher = Between(shutdown: bool) | BusyFlushing(task: Task, shutdown: bool) | Returned(shutdown: bool)

  /** The queue and the threads; and for the record the tasks accepted, taken and finished so far. */
  datatype State = State(
    threadState: ThreadState, tasks: seq<Task>, worker: Worker, flushers: map<nat, Flusher>,
    accepted: seq<Task>, taken: seq<Task>, finished: seq<Task>)

  datatype Step =
    | Add(task: Task)
    | Stop
    | Check
    | Look
    | Wake
    | Finish
    | BeginFlush(caller: nat)
    | BeginShutdown(caller: nat)
    | FlushTake(caller: nat)
    | FlushFinish(caller: nat)

  /** The state right after `DatabaseTasks::start`. */
  const STARTED := State(Running, [], Checking, map[], [], [], [])

  /** Which steps are possible: those of a thread that is there. */
  predicate Enabled(s: State, step: Step) {
    match step
    case Add(_) => true
    case Stop => true
    case Check => s.worker == Checking
    case Look => s.worker == Looking
    case Wake => s.worker == Waiting
    case Finish => s.worker.Busy?
    case BeginFlush(c) => c !in s.flushers
    case BeginShutdown(c) => c !in s.flushers
    case FlushTake(c) => c in s.flushers && s.flushers[c].Between?
    case FlushFinish(c) => c in s.flushers && s.flushers[c].BusyFlushing?
  }

  /** The first task is taken off the queue. */
  function Popped(s: State): State
    requires s.tasks != []
  {
    s.(tasks := s.tasks[1..], taken := s.taken + [s.tasks[0]])
  }

  function After(s: State, step: Step): State
    requires Enabled(s, step)
  {
    match step
    case Add(t) => if s.threadState == Running then s.(tasks := s.tasks + [t], accepted := s.accepted + [t]) else s
    case Stop => s.(threadState := Closing)
    case Check => s.(worker := if s.threadState == Terminated then Stopped else Looking)
    case Look => if s.tasks == [] then s.(worker := Waiting) else Popped(s).(worker := Busy(s.tasks[0]))
    case Wake => if s.tasks == [] then s.(worker := Checking) else Popped(s).(worker := Busy(s.tasks[0]))
    case Finish => s.(worker := Checking, finished := s.finished + [s.worker.task])
    case BeginFlush(c) => s.(flushers := s.flushers[c := Between(false)])
    case BeginShutdown(c) => s.(threadState := Terminated, flushers := s.flushers[c := Between(true)])
    case FlushTake(c) =>
      var down := s.flushers[c].shutdown;
      if s.tasks == [] then s.(flushers := s.flushers[c := Returned(down)])
      else Popped(s).(flushers := s.flushers[c := BusyFlushing(s.tasks[0], down)])
    case FlushFinish(c) =>
      s.(flushers := s.flushers[c := Between(s.flushers[c].shutdown)], finished := s.finished + [s.flushers[c].task])
  }

  /** Any interleaving: a sequence of steps, each possible when it is taken. */
  ghost predicate Possible(s: State, steps: seq<Step>)
    decreases |steps|
  {
    steps == [] || (Enabled(s, steps[0]) && Possible(After(s, steps[0]), steps[1..]))
  }

  ghost function Run(s: State, steps: seq<Step>): State
    requires Possible(s, steps)
    decreases |steps|
  {
    if steps == [] then s else Run(After(s, steps[0]), steps[1..])
  }

  // ---------------------------------------------------------------- which tasks are accepted

  /** The tasks added before the first stop or shutdown. */
  function AddedInTime(steps: seq<Step>): seq<Task> {
    if steps == [] || steps[0].Stop? || steps[0].BeginShutdown? then []
    else (if steps[0].Add? then [steps[0].task] else []) + AddedInTime(steps[1..])
  }

  lemma {:induction false} NoneAccepted(s: State, steps: seq<Step>)
    requires Possible(s, steps) && s.threadState != Running
    ensures Run(s, steps).accepted == s.accepted
    decreases |steps|
  {
    if steps != [] {
      NoneAccepted(After(s, steps[0]), steps[1..]);
    }
  }

  lemma {:induction false} AcceptedFrom(s: State, steps: seq<Step>)
    requires Possible(s, steps) && s.threadState == Running
    ensures Run(s, steps).accepted == s.accepted + AddedInTime(steps)
    decreases |steps|
  {
    if steps != [] {
      var t := After(s, steps[0]);
      if steps[0].Stop? || steps[0].BeginShutdown? {
        NoneAccepted(t, steps[1..]);
      } else {
        AcceptedFrom(t, steps[1..]);
      }
    }
  }

  /** In every run, the tasks accepted are exactly those added before the first stop or shutdown, in order. */
  lemma AcceptedAre(steps: seq<Step>)
    requires Possible(STARTED, steps)
    ensures Run(STARTED, steps).accepted == AddedInTime(steps)
  {
    AcceptedFrom(STARTED, steps);
  }

  // ---------------------------------------------------------------- what every state satisfies

  /** Tasks being run right now, by the worker and by flushing callers. */
  ghost function RunningNow(s: State): multiset<Task> {
    (if s.worker.Busy? then multiset{s.worker.task} else multiset{}) + RunningFlushes(s.flushers)
  }

  ghost function RunningFlushes(m: map<nat, Flusher>): multiset<Task>
    decreases |m|
  {
    if m == map[] then multiset{} else
      var c := Least(m);
      (if m[c].BusyFlushing? then multiset{m[c].task} else multiset{}) + RunningFlushes(m - {c})
  }

  ghost function Least(m: map<nat, Flusher>): (c: nat)
    requires m != map[]
    ensures c in m && forall d :: d in m ==> c <= d
  {
    LeastExists(m.Keys);
    var c :| c in m && forall d :: d in m ==> c <= d;
    c
  }

  lemma {:induction false} LeastExists(k: set<nat>)
    requires k != {}
    ensures exists c :: c in k && forall d :: d in k ==> c <= d
    decreases |k|
  {
    var c :| c in k;
    if k - {c} == {} {
      assert k == {c};
    } else {
      LeastExists(k - {c});
      var e :| e in k - {c} && forall d :: d in k - {c} ==> e <= d;
      var f := if c < e then c else e;
      assert forall d :: d in k ==> d == c || d in k - {c};
      assert f in k && forall d :: d in k ==> f <= d;
    }
  }

  /** Taking one caller out takes just its task out, whichever caller it is. */
  lemma {:induction false} RunningSplit(m: map<nat, Flusher>, c: nat)
    requires c in m
    ensures RunningFlushes(m) == (if m[c].BusyFlushing? then multiset{m[c].task} else multiset{}) + RunningFlushes(m - {c})
    decreases |m|
  {
    var e := Least(m);
    if e != c {
      RunningSplit(m - {e}, c);
      RunningSplit2(m, c, e);
    }
  }

  lemma RunningSplit2(m: map<nat, Flusher>, c: nat, e: nat)
    requires c in m && e == Least(m) && e != c
    ensures m - {e} - {c} == m - {c} - {e} && m - {c} != map[] && Least(m - {c}) == e
  {
    assert e in m - {c};
    assert m - {e} - {c} == m - {c} - {e};
  }

  /**
   The tasks accepted are those taken, then those still queued, in order; and the tasks taken are those
   finished and those being run.
   */
  ghost predicate Accounted(s: State) {
    && s.accepted == s.taken + s.tasks
    && multiset(s.taken) == multiset(s.finished) + RunningNow(s)
  }

  /** Some shutdown has returned. */
  ghost predicate Down(s: State) {
    exists c :: c in s.flushers && s.flushers[c] == Returned(true)
  }

  /** Some shutdown has begun. */
  ghost predicate ShuttingDown(s: State) {
    exists c :: c in s.flushers && s.flushers[c].shutdown
  }

  ghost predicate Safe(s: State) {
    && Accounted(s)
    && (ShuttingDown(s) ==> s.threadState != Running)
    && (Down(s) ==> s.tasks == [])
  }

  lemma StepInOrder(s: State, step: Step)
    requires s.accepted == s.taken + s.tasks && Enabled(s, step)
    ensures After(s, step).accepted == After(s, step).taken + After(s, step).tasks
  {
    if s.tasks != [] {
      assert s.taken + s.tasks == s.taken + [s.tasks[0]] + s.tasks[1..];
    }
    if step.Add? {
      assert s.taken + s.tasks + [step.task] == s.taken + (s.tasks + [step.task]);
    }
  }

  function CallerOf(step: Step): nat {
    if step.BeginFlush? || step.BeginShutdown? || step.FlushTake? || step.FlushFinish? then step.caller else 0
  }

  function TaskOf(m: map<nat, Flusher>, c: nat): multiset<Task> {
    if c in m && m[c].BusyFlushing? then multiset{m[c].task} else multiset{}
  }

  function WorkersTask(w: Worker): multiset<Task> {
    if w.Busy? then multiset{w.task} else multiset{}
  }

  lemma StepOthers(s: State, step: Step)
    requires Enabled(s, step)
    ensures After(s, step).flushers - {CallerOf(step)} == s.flushers - {CallerOf(step)}
  {
  }

  /** The tasks a step's thread was running before it. */
  function Had(s: State, step: Step): multiset<Task> {
    WorkersTask(s.worker) + TaskOf(s.flushers, CallerOf(step))
  }

  predicate Takes(s: State, step: Step) {
    s.tasks != [] && (step.Look? || step.Wake? || step.FlushTake?)
  }

  lemma TakingMoves(s: State, step: Step)
    requires Enabled(s, step) && Takes(s, step)
    ensures var s' := After(s, step);
      && s'.taken == s.taken + [s.tasks[0]] && s'.finished == s.finished
      && Had(s', step) == Had(s, step) + multiset{s.tasks[0]}
  {
  }

  lemma FinishingMoves(s: State, step: Step)
    requires Enabled(s, step) && (step.Finish? || step.FlushFinish?)
    ensures var s' := After(s, step);
      && s'.taken == s.taken && |s'.finished| == |s.finished| + 1 && s'.finished[..|s.finished|] == s.finished
      && Had(s, step) == Had(s', step) + multiset{s'.finished[|s.finished|]}
  {
  }

  // The worker's own steps, and those that are no thread's: no caller is touched.
  lemma QuietStep(s: State, step: Step)
    requires Enabled(s, step) && !Takes(s, step) && (step.Add? || step.Stop? || step.Check? || step.Look? || step.Wake?)
    ensures var s' := After(s, step);
      s'.taken == s.taken && s'.finished == s.finished && s'.flushers == s.flushers && WorkersTask(s'.worker) == WorkersTask(s.worker)
  {
  }

  // A caller's steps.
  lemma QuietCall(s: State, step: Step)
    requires Enabled(s, step) && !Takes(s, step) && (step.BeginFlush? || step.BeginShutdown? || step.FlushTake?)
    ensures var s' := After(s, step);
      && s'.taken == s.taken && s'.finished == s.finished && s'.worker == s.worker
      && TaskOf(s'.flushers, step.caller) == TaskOf(s.flushers, step.caller) == multiset{}
  {
    hide WorkersTask;
  }

  lemma OtherMoves(s: State, step: Step)
    requires Enabled(s, step) && !Takes(s, step) && !step.Finish? && !step.FlushFinish?
    ensures var s' := After(s, step);
      s'.taken == s.taken && s'.finished == s.finished && Had(s', step) == Had(s, step)
  {
    hide After, Enabled, Takes, TaskOf, WorkersTask;
    if step.BeginFlush? || step.BeginShutdown? || step.FlushTake? {
      QuietCall(s, step);
    } else {
      QuietStep(s, step);
    }
  }

  // What one step changes in the tasks taken, finished and being run.
  lemma StepMoves(s: State, step: Step)
    requires Enabled(s, step)
    ensures var s' := After(s, step);
      multiset(s'.taken) + multiset(s.finished) + Had(s, step) == multiset(s.taken) + multiset(s'.finished) + Had(s', step)
  {
    hide After, Had, Enabled, Takes;
    var s' := After(s, step);
    if Takes(s, step) {
      TakingMoves(s, step);
    } else if step.Finish? || step.FlushFinish? {
      FinishingMoves(s, step);
      assert s'.finished == s.finished + [s'.finished[|s.finished|]];
    } else {
      OtherMoves(s, step);
    }
  }

  lemma Balance(t: multiset<Task>, t': multiset<Task>, f: multiset<Task>, f': multiset<Task>, h: multiset<Task>, h': multiset<Task>, r: multiset<Task>)
    requires t == f + (h + r) && t' + f + h == t + f' + h'
    ensures t' == f' + (h' + r)
  {
    forall x: Task
      ensures t'[x] == (f' + (h' + r))[x]
    {
      assert (t' + f + h)[x] == (t + f' + h')[x];
    }
  }

  lemma RunningAt(m: map<nat, Flusher>, c: nat)
    ensures RunningFlushes(m) == TaskOf(m, c) + RunningFlushes(m - {c})
  {
    if c in m {
      RunningSplit(m, c);
    } else {
      assert m - {c} == m;
    }
  }

  lemma StepAccounted(s: State, step: Step)
    requires Accounted(s) && Enabled(s, step)
    ensures Accounted(After(s, step))
  {
    hide After, Had, RunningNow;
    var s', c := After(s, step), CallerOf(step);
    StepInOrder(s, step);
    StepMoves(s, step);
    StepOthers(s, step);
    RunningAs(s, step, c);
    RunningAs(s', step, c);
    Balance(multiset(s.taken), multiset(s'.taken), multiset(s.finished), multiset(s'.finished), Had(s, step), Had(s', step),
            RunningFlushes(s.flushers - {c}));
  }

  lemma RunningAs(s: State, step: Step, c: nat)
    requires c == CallerOf(step)
    ensures RunningNow(s) == Had(s, step) + RunningFlushes(s.flushers - {c})
  {
    RunningAt(s.flushers, c);
  }

  // A shutdown, begun or returned, was there before or is this step's.
  lemma StepDown(s: State, step: Step)
    requires (ShuttingDown(s) ==> s.threadState != Running) && Enabled(s, step)
    ensures var s' := After(s, step);
      && (ShuttingDown(s') ==> s'.threadState != Running)
      && (Down(s') && !Down(s) ==> s'.tasks == [])
      && (Down(s) ==> Down(s') && ShuttingDown(s))
  {
    var s' := After(s, step);
    if ShuttingDown(s') && !step.BeginShutdown? {
      var c :| c in s'.flushers && s'.flushers[c].shutdown;
      assert c in s.flushers && s.flushers[c].shutdown;
    }
    if Down(s') && !Down(s) {
      var c :| c in s'.flushers && s'.flushers[c] == Returned(true);
      assert s.flushers[c] != Returned(true);
    }
    if Down(s) {
      var c :| c in s.flushers && s.flushers[c] == Returned(true);
      assert s.flushers[c].shutdown && s'.flushers[c] == Returned(true);
    }
  }

  lemma StepSafe(s: State, step: Step)
    requires Safe(s) && Enabled(s, step)
    ensures Safe(After(s, step)) && (Down(s) ==> Down(After(s, step)))
  {
    hide Accounted, Down, ShuttingDown;
    StepAccounted(s, step);
    StepDown(s, step);
  }

  lemma {:induction false} RunSafe(s: State, steps: seq<Step>)
    requires Safe(s) && Possible(s, steps)
    ensures Safe(Run(s, steps)) && (Down(s) ==> Down(Run(s, steps)))
    decreases |steps|
  {
    hide Safe, Down;
    if steps != [] {
      StepSafe(s, steps[0]);
      RunSafe(After(s, steps[0]), steps[1..]);
    }
  }

  /** In every interleaving each accepted task is taken once, in order, and those taken are finished or being run. */
  lemma EachTaskOnce(steps: seq<Step>)
    requires Possible(STARTED, steps)
    ensures var s := Run(STARTED, steps);
      AddedInTime(steps) == s.taken + s.tasks && multiset(s.taken) == multiset(s.finished) + RunningNow(s)
  {
    RunSafe(STARTED, steps);
    AcceptedAre(steps);
  }

  ghost predicate LeavesRight(s: State) {
    s.threadState == Terminated || s.worker == Stopped ==> ShuttingDown(s)
  }

  lemma {:induction false} RunLeavesRight(s: State, steps: seq<Step>)
    requires LeavesRight(s) && Possible(s, steps)
    ensures LeavesRight(Run(s, steps))
    decreases |steps|
  {
    if steps != [] {
      var t := After(s, steps[0]);
      if ShuttingDown(s) {
        var c :| c in s.flushers && s.flushers[c].shutdown;
        assert c in t.flushers && t.flushers[c].shutdown;
      } else if steps[0].BeginShutdown? {
        assert steps[0].caller in t.flushers && t.flushers[steps[0].caller].shutdown;
      }
      RunLeavesRight(t, steps[1..]);
    }
  }

  lemma {:induction false} StaysTerminated(s: State, more: seq<Step>)
    requires Possible(s, more) && s.threadState == Terminated && Stop !in more
    ensures Run(s, more).threadState == Terminated
    decreases |more|
  {
    if more != [] {
      StaysTerminated(After(s, more[0]), more[1..]);
    }
  }

  /**
   The worker leaves its loop only once a shutdown has begun, whatever has been stopped before; and after one has
   begun, unless a stop follows, it leaves when it next looks at the thread's state.
   */
  lemma LeavesOnShutdown(steps: seq<Step>, c: nat, more: seq<Step>)
    requires Possible(STARTED, steps)
    ensures Run(STARTED, steps).worker == Stopped ==> ShuttingDown(Run(STARTED, steps))
    ensures var s := Run(STARTED, steps);
      Enabled(s, BeginShutdown(c)) && Possible(After(s, BeginShutdown(c)), more) && Stop !in more ==>
        var t := Run(After(s, BeginShutdown(c)), more);
        t.worker == Checking ==> After(t, Check).worker == Stopped
  {
    RunLeavesRight(STARTED, steps);
    var s := Run(STARTED, steps);
    if Enabled(s, BeginShutdown(c)) && Possible(After(s, BeginShutdown(c)), more) && Stop !in more {
      StaysTerminated(After(s, BeginShutdown(c)), more);
    }
  }

  /** Once a shutdown has returned, the queue is empty and stays so, and nothing more is accepted. */
  lemma {:induction false} EmptyForGood(steps: seq<Step>, more: seq<Step>)
    requires Possible(STARTED, steps) && Down(Run(STARTED, steps)) && Possible(Run(STARTED, steps), more)
    ensures var s, t := Run(STARTED, steps), Run(Run(STARTED, steps), more);
      s.tasks == [] && t.tasks == [] && t.accepted == s.accepted == s.taken
  {
    RunSafe(STARTED, steps);
    NothingMore(Run(STARTED, steps), more);
  }

  lemma {:induction false} NothingMore(s: State, more: seq<Step>)
    requires Safe(s) && Down(s) && Possible(s, more)
    ensures Run(s, more).tasks == [] && Run(s, more).accepted == s.accepted == s.taken
    decreases |more|
  {
    var c :| c in s.flushers && s.flushers[c] == Returned(true);
    assert s.flushers[c].shutdown;
    if more != [] {
      StepSafe(s, more[0]);
      NothingMore(After(s, more[0]), more[1..]);
    }
  }

  // ---------------------------------------------------------------- the order in which tasks finish

  ghost predicate Distinct(l: seq<Task>) {
    forall i, j :: 0 <= i < j < |l| ==> l[i] != l[j]
  }

  /** What has finished so far is what was accepted first, in that order. */
  predicate InOrder(s: State) {
    s.finished <= s.accepted
  }

  /** No task is taken on the way. */
  ghost predicate NoTakes(s: State, steps: seq<Step>)
    requires Possible(s, steps)
    decreases |steps|
  {
    steps == [] || (!Takes(s, steps[0]) && NoTakes(After(s, steps[0]), steps[1..]))
  }

  /** However the tasks now running finish, they finish in order. */
  ghost predicate OrderSettled(s: State) {
    forall more :: Possible(s, more) && NoTakes(s, more) ==> InOrder(Run(s, more))
  }

  lemma RunningCount(s: State)
    requires Accounted(s)
    ensures |RunningNow(s)| == |s.taken| - |s.finished|
  {
    hide RunningNow;
    assert |multiset(s.taken)| == |s.taken|;
  }

  // What finishes was running.
  lemma FinishesRunning(s: State, step: Step)
    requires Enabled(s, step) && (step.Finish? || step.FlushFinish?)
    ensures var s' := After(s, step);
      s'.taken == s.taken && s'.accepted == s.accepted
      && exists x :: x in RunningNow(s) && s'.finished == s.finished + [x]
  {
    hide RunningNow, Had;
    FinishingMoves(s, step);
    RunningAs(s, step, CallerOf(step));
    var s', n := After(s, step), |s.finished|;
    assert s'.finished == s.finished + [s'.finished[n]];
    assert s'.finished[n] in Had(s', step) + multiset{s'.finished[n]};
    assert s'.finished[n] in Had(s, step);
    assert s'.finished[n] in RunningNow(s);
  }

  // The only task running is the next in order.
  lemma NextInOrder(s: State, x: Task)
    requires Accounted(s) && InOrder(s) && |RunningNow(s)| <= 1 && x in RunningNow(s)
    ensures s.finished + [x] <= s.accepted && |s.taken| == |s.finished| + 1
  {
    RunningCount(s);
    var n := |s.finished|;
    assert |RunningNow(s) - multiset{x}| == |RunningNow(s)| - 1;
    assert s.finished == s.accepted[..n] == s.taken[..n];
    assert s.taken == s.finished + [s.taken[n]];
    assert multiset(s.taken) == multiset(s.finished) + multiset{s.taken[n]};
    assert RunningNow(s) == multiset(s.taken) - multiset(s.finished) == multiset{s.taken[n]};
  }

  lemma StepKeepsOrder(s: State, step: Step)
    requires Accounted(s) && InOrder(s) && |RunningNow(s)| <= 1 && Enabled(s, step)
    requires Takes(s, step) ==> RunningNow(s) == multiset{}
    ensures var s' := After(s, step);
      Accounted(s') && InOrder(s') && |RunningNow(s')| <= 1
  {
    hide RunningNow, After, Takes, Enabled;
    var s' := After(s, step);
    StepAccounted(s, step);
    RunningCount(s);
    RunningCount(s');
    if Takes(s, step) {
      TakingMoves(s, step);
      StepAccepts(s, step);
    } else if step.Finish? || step.FlushFinish? {
      FinishesRunning(s, step);
      var x :| x in RunningNow(s) && s'.finished == s.finished + [x];
      NextInOrder(s, x);
    } else {
      OtherMoves(s, step);
      StepAccepts(s, step);
    }
  }

  lemma StepAccepts(s: State, step: Step)
    requires Enabled(s, step)
    ensures s.accepted <= After(s, step).accepted
  {
  }

  lemma {:induction false} RunAccepts(s: State, steps: seq<Step>)
    requires Possible(s, steps)
    ensures s.accepted <= Run(s, steps).accepted
    decreases |steps|
  {
    if steps != [] {
      StepAccepts(s, steps[0]);
      RunAccepts(After(s, steps[0]), steps[1..]);
    }
  }

  lemma {:induction false} OneInOrder(s: State, more: seq<Step>)
    requires Accounted(s) && InOrder(s) && |RunningNow(s)| <= 1 && Possible(s, more) && NoTakes(s, more)
    ensures InOrder(Run(s, more))
    decreases |more|
  {
    hide Accounted, InOrder, RunningNow, Takes;
    if more != [] {
      StepKeepsOrder(s, more[0]);
      OneInOrder(After(s, more[0]), more[1..]);
    }
  }

  lemma {:induction false} RunBySomeone(m: map<nat, Flusher>, x: Task) returns (c: nat)
    requires x in RunningFlushes(m)
    ensures c in m && m[c].BusyFlushing? && m[c].task == x
    decreases |m|
  {
    c := Least(m);
    if !(m[c].BusyFlushing? && m[c].task == x) {
      c := RunBySomeone(m - {c}, x);
    }
  }

  lemma RunningFinishes(s: State, x: Task) returns (step: Step)
    requires x in RunningNow(s)
    ensures Enabled(s, step) && !Takes(s, step)
    ensures After(s, step).finished == s.finished + [x] && After(s, step).accepted == s.accepted
  {
    if s.worker.Busy? && s.worker.task == x {
      step := Finish;
    } else {
      var c := RunBySomeone(s.flushers, x);
      step := FlushFinish(c);
    }
  }

  /** Of two tasks running, the later one may finish first. */
  lemma TwoOutOfOrder(s: State) returns (step: Step)
    requires Accounted(s) && InOrder(s) && Distinct(s.accepted) && |RunningNow(s)| >= 2
    ensures Enabled(s, step) && !Takes(s, step) && !InOrder(After(s, step))
  {
    hide RunningNow, After, Takes, Enabled;
    RunningCount(s);
    var n := |s.finished|;
    var x := s.taken[n + 1];
    assert s.accepted[n] == s.taken[n] && s.accepted[n + 1] == x;
    assert forall i :: 0 <= i < n ==> s.finished[i] == s.accepted[i];
    assert x !in s.finished && x in s.taken;
    assert multiset(s.taken)[x] > 0 && multiset(s.finished)[x] == 0;
    step := RunningFinishes(s, x);
    assert (s.finished + [x])[n] == x != s.accepted[n];
  }

  lemma OneStep(s: State, step: Step)
    requires Enabled(s, step) && !Takes(s, step)
    ensures Possible(s, [step]) && NoTakes(s, [step]) && Run(s, [step]) == After(s, step)
  {
    hide After, Enabled, Takes;
    assert [step][0] == step && [step][1..] == [];
    RunNone(After(s, step));
    RunOne(s, [step]);
  }

  /**
   As long as no further task is taken, those accepted finish in order whatever happens if and only if at most
   one of them is running.
   */
  lemma OrderIff(s: State)
    requires Accounted(s) && InOrder(s) && Distinct(s.accepted)
    ensures OrderSettled(s) <==> |RunningNow(s)| <= 1
  {
    hide Accounted, InOrder, RunningNow, Takes, Run, Possible, NoTakes, After, Enabled;
    if |RunningNow(s)| <= 1 {
      forall more | Possible(s, more) && NoTakes(s, more)
        ensures InOrder(Run(s, more))
      {
        OneInOrder(s, more);
      }
    } else {
      var step := TwoOutOfOrder(s);
      OneStep(s, step);
    }
  }

  /** Every task is taken while none is running. */
  ghost predicate OneAtATime(s: State, steps: seq<Step>)
    requires Possible(s, steps)
    decreases |steps|
  {
    steps == [] || ((Takes(s, steps[0]) ==> RunningNow(s) == multiset{}) && OneAtATime(After(s, steps[0]), steps[1..]))
  }

  /** At no point of the run can the tasks then running finish out of order. */
  ghost predicate OrderKept(s: State, steps: seq<Step>)
    requires Possible(s, steps)
    decreases |steps|
  {
    OrderSettled(s) && (steps == [] || OrderKept(After(s, steps[0]), steps[1..]))
  }

  // Taking a task while another runs makes two.
  lemma TakingBreaksOrder(s: State, step: Step)
    requires Accounted(s) && InOrder(s) && Distinct(s.accepted) && Enabled(s, step) && Takes(s, step) && RunningNow(s) != multiset{}
    ensures !OrderSettled(After(s, step))
  {
    hide RunningNow, OrderSettled;
    var s' := After(s, step);
    StepAccounted(s, step);
    RunningCount(s);
    RunningCount(s');
    TakingMoves(s, step);
    assert s'.accepted == s.accepted;
    hide Accounted, InOrder, Distinct, After, Takes, Enabled;
    assert |RunningNow(s)| > 0;
    OrderIff(s');
  }

  lemma {:induction false} OrderOver(s: State, steps: seq<Step>)
    requires Accounted(s) && InOrder(s) && |RunningNow(s)| <= 1 && Possible(s, steps) && Distinct(Run(s, steps).accepted)
    ensures OneAtATime(s, steps) <==> OrderKept(s, steps)
    decreases |steps|
  {
    hide Accounted, RunningNow, OrderSettled, After, Enabled, Takes, InOrder;
    RunAccepts(s, steps);
    OrderIff(s);
    if steps != [] {
      if Takes(s, steps[0]) && RunningNow(s) != multiset{} {
        TakingBreaksOrder(s, steps[0]);
      } else {
        StepKeepsOrder(s, steps[0]);
        OrderOver(After(s, steps[0]), steps[1..]);
      }
    }
  }

  /**
   In a run in which no task is accepted twice, the tasks finish in the order accepted, at every point and
   whatever happens next to those then running, if and only if each task was taken while none was running.
   */
  lemma RunOrderIff(steps: seq<Step>)
    requires Possible(STARTED, steps) && Distinct(Run(STARTED, steps).accepted)
    ensures OneAtATime(STARTED, steps) <==> OrderKept(STARTED, steps)
  {
    hide OneAtATime, OrderKept, Run, Possible, Distinct;
    OrderOver(STARTED, steps);
  }

  /** A flush beside the worker can overtake it: the second task accepted is the first to finish. */
  lemma FlushOvertakes() returns (steps: seq<Step>)
    ensures Possible(STARTED, steps)
    ensures Run(STARTED, steps).accepted == [1, 2] && Run(STARTED, steps).finished == [2, 1]
  {
    hide Possible, Run;
    var s4 := State(Running, [2], Busy(1), map[], [1, 2], [1], []);
    var s8 := State(Running, [], Checking, map[0 := Between(false)], [1, 2], [1, 2], [2, 1]);
    steps := Overtaking(s4, s8);
    steps := Begun(s4, steps);
  }

  // The worker has the first task; a flush takes and finishes the second.
  lemma Overtaking(s4: State, s8: State) returns (steps: seq<Step>)
    requires s4 == State(Running, [2], Busy(1), map[], [1, 2], [1], [])
    requires s8 == State(Running, [], Checking, map[0 := Between(false)], [1, 2], [1, 2], [2, 1])
    ensures Possible(s4, steps) && Run(s4, steps) == s8
  {
    hide Possible, Run;
    var s5 := s4.(flushers := map[0 := Between(false)]);
    var s6 := State(Running, [], Busy(1), map[0 := BusyFlushing(2, false)], [1, 2], [1, 2], []);
    var s7 := State(Running, [], Busy(1), map[0 := Between(false)], [1, 2], [1, 2], [2]);
    RunNone(s8);
    steps := RunFirst(s7, Finish, s8, []);
    steps := RunFirst(s6, FlushFinish(0), s7, steps);
    steps := RunFirst(s5, FlushTake(0), s6, steps);
    steps := RunFirst(s4, BeginFlush(0), s5, steps);
  }

  lemma Begun(s4: State, rest: seq<Step>) returns (steps: seq<Step>)
    requires s4 == State(Running, [2], Busy(1), map[], [1, 2], [1], []) && Possible(s4, rest)
    ensures Possible(STARTED, steps) && Run(STARTED, steps) == Run(s4, rest)
  {
    hide Possible, Run;
    var s1 := State(Running, [1], Checking, map[], [1], [], []);
    var s2 := State(Running, [1, 2], Checking, map[], [1, 2], [], []);
    var s3 := s2.(worker := Looking);
    steps := RunFirst(s3, Look, s4, rest);
    steps := RunFirst(s2, Check, s3, steps);
    steps := RunFirst(s1, Add(2), s2, steps);
    steps := RunFirst(STARTED, Add(1), s1, steps);
  }

  lemma RunFirst(s: State, step: Step, s': State, rest: seq<Step>) returns (steps: seq<Step>)
    requires Enabled(s, step) && After(s, step) == s' && Possible(s', rest)
    ensures Possible(s, steps) && Run(s, steps) == Run(s', rest)
  {
    steps := [step] + rest;
    assert steps[1..] == rest;
  }

  lemma RunNone(s: State)
    ensures Possible(s, []) && Run(s, []) == s
  {
  }

  lemma RunOne(s: State, steps: seq<Step>)
    requires steps != [] && Enabled(s, steps[0]) && Possible(After(s, steps[0]), steps[1..])
    ensures Possible(s, steps) && Run(s, steps) == Run(After(s, steps[0]), steps[1..])
  {
  }

  // ---------------------------------------------------------------- the critical sections

  class Tasks {
    var threadState: ThreadState
    var tasks: seq<Task>
    var worker: Worker
    var flushers: map<nat, Flusher>
    ghost var accepted: seq<Task>
    ghost var taken: seq<Task>
    ghost var finished: seq<Task>

    ghost function Now(): State
      reads this
    {
      State(threadState, tasks, worker, flushers, accepted, taken, finished)
    }

    /** `DatabaseTasks::addTask`: the worker is signalled when the queue was empty. */
    method AddTask(task: Task) returns (signal: bool)
      modifies this
      ensures Now() == After(old(Now()), Add(task))
      ensures signal <==> old(threadState) == Running && old(tasks) == []
    {
      signal := false;
      if threadState == Running {
        signal := tasks == [];
        tasks := tasks + [task];
        accepted := accepted + [task];
      }
    }

    /** The condition of the loop in `DatabaseTasks::threadMain`, read without the lock. */
    method WorkerChecks()
      requires worker == Checking
      modifies this
      ensures Now() == After(old(Now()), Check)
    {
      if threadState != Terminated {
        worker := Looking;
      } else {
        worker := Stopped;
      }
    }

    /** The worker's section in that loop, before it waits. */
    method WorkerLooks()
      requires worker == Looking
      modifies this
      ensures Now() == After(old(Now()), Look)
    {
      if tasks == [] {
        worker := Waiting;
      } else {
        WorkerTakes();
      }
    }

    /** The worker's section once it has been woken, with or without a reason. */
    method WorkerWakes()
      requires worker == Waiting
      modifies this
      ensures Now() == After(old(Now()), Wake)
    {
      if tasks != [] {
        WorkerTakes();
      } else {
        worker := Checking;
      }
    }

    method WorkerTakes()
      requires tasks != []
      modifies this
      ensures Now() == Popped(old(Now())).(worker := Busy(old(tasks)[0]))
    {
      worker := Busy(tasks[0]);
      taken := taken + [tasks[0]];
      tasks := tasks[1..];
    }

    /** `DatabaseTasks::shutdown`, up to its flush. */
    method Shutdown(caller: nat)
      requires caller !in flushers
      modifies this
      ensures Now() == After(old(Now()), BeginShutdown(caller))
    {
      threadState := Terminated;
      flushers := flushers[caller := Between(true)];
    }

    /** One round of the loop in `DatabaseTasks::flush`, while it has the lock. */
    method FlushTakes(caller: nat)
      requires caller in flushers && flushers[caller].Between?
      modifies this
      ensures Now() == After(old(Now()), FlushTake(caller))
    {
      var down := flushers[caller].shutdown;
      if tasks == [] {
        flushers := flushers[caller := Returned(down)];
      } else {
        flushers := flushers[caller := BusyFlushing(tasks[0], down)];
        taken := taken + [tasks[0]];
        tasks := tasks[1..];
      }
    }
  }
}
