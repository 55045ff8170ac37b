/** The job runner and the cancellation registry as a state machine whose steps are the lock-protected blocks and
    the worker's own transitions (backend/src/orchestration/job_runner.py, run_control.py). */
module RunProtocol {
  import opened Wrappers
  import opened Keys

  type RunId = Key
  type TaskId = nat

  /** The life of one submitted future: queued, picked up by a worker, between `begin` and `finish`, past `finish`,
      and done; a queued future may be cancelled instead. */
  datatype Phase = Queued | Started | Active | Finishing | Done | Cancelled

  datatype Task = Task(run: RunId, phase: Phase)

  datatype State = State(
    tasks: map<TaskId, Task>,
    futures: map<RunId, TaskId>,
    deadlines: map<RunId, real>,
    cancelled: set<RunId>)

  const INITIAL := State(map[], map[], map[], {})

  datatype Action =
    | Submit(run: RunId, task: TaskId)
    | Retry(run: RunId, task: TaskId)
    | FlagCancelled(run: RunId)
    | CancelFuture(task: TaskId)
    | Start(task: TaskId)
    | Begin(task: TaskId, deadline: real)
    | Finish(task: TaskId)
    | Complete(task: TaskId)

  datatype StopReason = UserCancelled | AnalysisJobTimeout

  predicate IsDone(phase: Phase) { phase.Done? || phase.Cancelled? }

  predicate Occupied(s: State, run: RunId) {
    run in s.futures && s.futures[run] in s.tasks && !IsDone(s.tasks[s.futures[run]].phase)
  }

  predicate InPhase(s: State, task: TaskId, phase: Phase) {
    task in s.tasks && s.tasks[task].phase == phase
  }

  /** Submitting and retrying name the future that they would create. */
  predicate Enabled(s: State, a: Action) {
    match a
    case Submit(_, task) => task !in s.tasks
    case Retry(_, task) => task !in s.tasks
    case FlagCancelled(_) => true
    case CancelFuture(task) => task in s.tasks
    case Start(task) => InPhase(s, task, Queued)
    case Begin(task, _) => InPhase(s, task, Started)
    case Finish(task) => InPhase(s, task, Active)
    case Complete(task) => InPhase(s, task, Finishing)
  }

  function Move(s: State, task: TaskId, phase: Phase): State
    requires task in s.tasks
  {
    s.(tasks := s.tasks[task := s.tasks[task].(phase := phase)])
  }

  function Enqueue(s: State, run: RunId, task: TaskId): State {
    if Occupied(s, run) then s
    else s.(tasks := s.tasks[task := Task(run, Queued)], futures := s.futures[run := task])
  }

  function Apply(s: State, a: Action): State
    requires Enabled(s, a)
  {
    match a
    case Submit(run, task) => Enqueue(s, run, task)
    case Retry(run, task) => Enqueue(s, run, task)
    case FlagCancelled(run) => s.(cancelled := s.cancelled + {run})
    case CancelFuture(task) => if s.tasks[task].phase.Queued? then Move(s, task, Cancelled) else s
    case Start(task) => Move(s, task, Started)
    case Begin(task, deadline) =>
      var run := s.tasks[task].run;
      Move(s, task, Active).(cancelled := s.cancelled - {run}, deadlines := s.deadlines[run := deadline])
    case Finish(task) =>
      var run := s.tasks[task].run;
      Move(s, task, Finishing).(cancelled := s.cancelled - {run}, deadlines := s.deadlines - {run})
    case Complete(task) => Move(s, task, Done)
  }

  function ReasonToStop(cancelled: set<RunId>, deadlines: map<RunId, real>, run: RunId, now: real): Option<StopReason> {
    if run in cancelled then Some(UserCancelled)
    else if run in deadlines && now >= deadlines[run] then Some(AnalysisJobTimeout)
    else None
  }

  function StopReasonOf(s: State, run: RunId, now: real): Option<StopReason> {
    ReasonToStop(s.cancelled, s.deadlines, run, now)
  }

  /** Every interleaving of callers and workers is one sequence of enabled actions. */
  ghost predicate Execution(trace: seq<Action>)
    decreases |trace|, 0
  {
    trace == [] || (Execution(trace[..|trace| - 1]) && Enabled(After(trace[..|trace| - 1]), trace[|trace| - 1]))
  }

  ghost function After(trace: seq<Action>): State
    requires Execution(trace)
    decreases |trace|, 1
  {
    if trace == [] then INITIAL else Apply(After(trace[..|trace| - 1]), trace[|trace| - 1])
  }

  /** A future that is not done is the registered one of its run, and exactly the runs with a task between `begin`
      and `finish` have a deadline. */
  ghost predicate Inv(s: State) {
    && (forall t :: t in s.tasks && !IsDone(s.tasks[t].phase) ==> s.tasks[t].run in s.futures && s.futures[s.tasks[t].run] == t)
    && (forall r :: r in s.futures ==> s.futures[r] in s.tasks && s.tasks[s.futures[r]].run == r)
    && (forall t :: InPhase(s, t, Active) ==> s.tasks[t].run in s.deadlines)
    && (forall r :: r in s.deadlines ==> r in s.futures && InPhase(s, s.futures[r], Active))
  }

  lemma StepKeepsInv(s: State, a: Action)
    requires Inv(s) && Enabled(s, a)
    ensures Inv(Apply(s, a))
  {
  }

  lemma {:induction false} ExecutionKeepsInv(trace: seq<Action>)
    requires Execution(trace)
    ensures Inv(After(trace))
  {
    if trace != [] {
      ExecutionKeepsInv(trace[..|trace| - 1]);
      StepKeepsInv(After(trace[..|trace| - 1]), trace[|trace| - 1]);
    }
  }

  lemma {:induction false} PrefixExecution(trace: seq<Action>, k: nat)
    requires Execution(trace) && k <= |trace|
    ensures Execution(trace[..k])
    ensures k < |trace| ==> Enabled(After(trace[..k]), trace[k]) && Execution(trace[..k + 1]) && After(trace[..k + 1]) == Apply(After(trace[..k]), trace[k])
    decreases |trace|
  {
    if k < |trace| - 1 {
      PrefixExecution(trace[..|trace| - 1], k);
      assert trace[..|trace| - 1][..k] == trace[..k] && trace[..|trace| - 1][..k + 1] == trace[..k + 1];
    } else if k == |trace| - 1 {
      assert trace[..k + 1] == trace;
    } else {
      assert trace[..k] == trace;
    }
  }

  /** In every interleaving, at most one unfinished task exists for a run. */
  lemma OneLiveTaskPerRun(trace: seq<Action>, t: TaskId, u: TaskId)
    requires Execution(trace)
    requires var s := After(trace);
      && t in s.tasks && u in s.tasks && s.tasks[t].run == s.tasks[u].run
      && !IsDone(s.tasks[t].phase) && !IsDone(s.tasks[u].phase)
    ensures t == u
  {
    ExecutionKeepsInv(trace);
  }

  /** Every earlier task of the run has been completed or withdrawn. */
  ghost predicate Free(s: State, run: RunId) {
    forall t :: t in s.tasks && s.tasks[t].run == run ==> s.tasks[t].phase in {Done, Cancelled}
  }

  /** In every interleaving a submission or a retry starts a new job exactly if all earlier jobs of its run are over, and
      otherwise changes nothing: neither a finished nor a withdrawn job keeps its run from being started again. */
  lemma StartsAgainIff(trace: seq<Action>, run: RunId, t: TaskId, a: Action)
    requires Execution(trace) && t !in After(trace).tasks && (a == Submit(run, t) || a == Retry(run, t))
    ensures var s := After(trace);
      Apply(s, a) == if Free(s, run) then s.(tasks := s.tasks[t := Task(run, Queued)], futures := s.futures[run := t]) else s
  {
    ExecutionKeepsInv(trace);
    var s := After(trace);
    if run in s.futures { assert s.tasks[s.futures[run]].run == run; }
  }

  /** Only `finish` ends the window that `begin` opened. */
  lemma {:induction false} WindowStaysOpen(trace: seq<Action>, from: nat, to: nat, t: TaskId)
    requires Execution(trace) && from <= to <= |trace| && Execution(trace[..from]) && Execution(trace[..to])
    requires InPhase(After(trace[..from]), t, Active)
    requires forall k :: from <= k < to ==> trace[k] != Finish(t)
    ensures InPhase(After(trace[..to]), t, Active)
    ensures After(trace[..to]).tasks[t].run == After(trace[..from]).tasks[t].run
  {
    if from < to {
      PrefixExecution(trace, to - 1);
      WindowStaysOpen(trace, from, to - 1, t);
    }
  }

  /** Two `begin` steps of one run always have the first task's `finish` between them. */
  lemma BeginsAreBracketed(trace: seq<Action>, i: nat, j: nat)
    requires Execution(trace) && i < j < |trace| && trace[i].Begin? && trace[j].Begin?
    requires Execution(trace[..i]) && Execution(trace[..j])
    requires trace[i].task in After(trace[..i]).tasks && trace[j].task in After(trace[..j]).tasks
    requires After(trace[..i]).tasks[trace[i].task].run == After(trace[..j]).tasks[trace[j].task].run
    ensures exists k :: i < k < j && trace[k] == Finish(trace[i].task)
  {
    var t, u := trace[i].task, trace[j].task;
    PrefixExecution(trace, i);
    PrefixExecution(trace, j);
    if forall k :: i < k < j ==> trace[k] != Finish(t) {
      WindowStaysOpen(trace, i + 1, j, t);
      OneLiveTaskPerRun(trace[..j], t, u);
      assert false;
    }
  }

  /** Once begun, a task is active, finishing or done. */
  lemma {:induction false} NeverBeginsTwice(trace: seq<Action>, i: nat, t: TaskId)
    requires Execution(trace) && i < |trace| && trace[i].Begin? && trace[i].task == t
    ensures t in After(trace).tasks
    ensures After(trace).tasks[t].phase in {Active, Finishing, Done}
    decreases |trace|
  {
    if i < |trace| - 1 {
      NeverBeginsTwice(trace[..|trace| - 1], i, t);
    }
  }

  /** While a task stays active, only a cancel step of its own run changes whether that run is flagged. */
  lemma FlagStep(s: State, a: Action, t: TaskId)
    requires Inv(s) && Enabled(s, a) && InPhase(s, t, Active) && InPhase(Apply(s, a), t, Active)
    ensures Apply(s, a).tasks[t].run == s.tasks[t].run
    ensures var run := s.tasks[t].run; run in Apply(s, a).cancelled <==> run in s.cancelled || a == FlagCancelled(run)
    ensures var run := s.tasks[t].run; run in Apply(s, a).deadlines && Apply(s, a).deadlines[run] == s.deadlines[run]
  {
  }

  ghost predicate FlaggedBetween(trace: seq<Action>, from: nat, to: nat, run: RunId)
    requires to <= |trace|
  {
    exists k :: from <= k < to && trace[k] == FlagCancelled(run)
  }

  lemma {:induction false} CancelledSince(trace: seq<Action>, i: nat, t: TaskId)
    requires Execution(trace) && i < |trace| && trace[i].Begin? && trace[i].task == t
    requires InPhase(After(trace), t, Active)
    ensures var run := After(trace).tasks[t].run;
      && (run in After(trace).cancelled <==> FlaggedBetween(trace, i + 1, |trace|, run))
      && run in After(trace).deadlines && After(trace).deadlines[run] == trace[i].deadline
    decreases |trace|
  {
    var last := |trace| - 1;
    if i < last {
      var init := trace[..last];
      NeverBeginsTwice(init, i, t);
      assert InPhase(After(init), t, Active);
      CancelledSince(init, i, t);
      ExecutionKeepsInv(init);
      FlagStep(After(init), trace[last], t);
      FlaggedStep(trace, i + 1, After(trace).tasks[t].run);
    }
  }

  lemma FlaggedStep(trace: seq<Action>, from: nat, run: RunId)
    requires from < |trace|
    ensures var last := |trace| - 1;
      FlaggedBetween(trace, from, |trace|, run) <==> FlaggedBetween(trace[..last], from, last, run) || trace[last] == FlagCancelled(run)
  {
    var last := |trace| - 1;
    if k :| from <= k < last && trace[k] == FlagCancelled(run) {
      assert trace[..last][k] == FlagCancelled(run);
    }
  }

  /** Between `begin` and `finish`, a run is told that the user cancelled it exactly when a cancel step came after
      that `begin`, and otherwise that it timed out exactly from the deadline set at that `begin`: neither a stale
      cancel nor a stale deadline ever stops a new run. */
  lemma StopReasonSinceBegin(trace: seq<Action>, i: nat, t: TaskId, now: real)
    requires Execution(trace) && i < |trace| && trace[i].Begin? && trace[i].task == t
    requires InPhase(After(trace), t, Active)
    ensures var run := After(trace).tasks[t].run;
      StopReasonOf(After(trace), run, now) ==
        if FlaggedBetween(trace, i + 1, |trace|, run) then Some(UserCancelled)
        else if now >= trace[i].deadline then Some(AnalysisJobTimeout)
        else None
  {
    CancelledSince(trace, i, t);
  }

  /** A future cancelled while queued never runs. */
  lemma {:induction false} CancelledNeverBegins(trace: seq<Action>, i: nat, t: TaskId)
    requires Execution(trace) && i <= |trace| && Execution(trace[..i]) && InPhase(After(trace[..i]), t, Cancelled)
    ensures InPhase(After(trace), t, Cancelled)
    ensures forall k :: i <= k < |trace| && trace[k].Begin? ==> trace[k].task != t
    decreases |trace|
  {
    if i < |trace| {
      var init := trace[..|trace| - 1];
      assert init[..i] == trace[..i];
      CancelledNeverBegins(init, i, t);
      assert forall k :: 0 <= k < |init| ==> init[k] == trace[k];
    } else {
      assert trace[..i] == trace;
    }
  }

  lemma StepKeepsTask(s: State, a: Action, t: TaskId)
    requires Enabled(s, a) && t in s.tasks
    ensures t in Apply(s, a).tasks && Apply(s, a).tasks[t].run == s.tasks[t].run
  {
  }

  /** A future is never forgotten, so the one that a cancel looked up can still be withdrawn after any interference. */
  lemma {:induction false} FutureStays(trace: seq<Action>, i: nat, t: TaskId)
    requires Execution(trace) && i <= |trace| && Execution(trace[..i]) && t in After(trace[..i]).tasks
    ensures t in After(trace).tasks && After(trace).tasks[t].run == After(trace[..i]).tasks[t].run
    decreases |trace|
  {
    if i < |trace| {
      var init, last := trace[..|trace| - 1], trace[|trace| - 1];
      assert init[..i] == trace[..i];
      FutureStays(init, i, t);
      StepKeepsTask(After(init), last, t);
    } else {
      assert trace[..i] == trace;
    }
  }

  lemma Extends(trace: seq<Action>, a: Action)
    requires Execution(trace) && Enabled(After(trace), a)
    ensures Execution(trace + [a]) && After(trace + [a]) == Apply(After(trace), a)
  {
    assert (trace + [a])[..|trace|] == trace;
  }

  /** A cancel that falls between the worker's pick-up and `begin` is forgotten: the future can no longer be
      cancelled, `begin` clears the flag, and the run proceeds without a stop reason. */
  lemma CancelBeforeBeginIsLost(run: RunId, t: TaskId, deadline: real, now: real)
    requires now < deadline
    ensures var trace := [Submit(run, t), Start(t), FlagCancelled(run), CancelFuture(t), Begin(t, deadline)];
      && Execution(trace)
      && InPhase(After(trace), t, Active)
      && StopReasonOf(After(trace), run, now) == None
  {
    var trace := [Submit(run, t), Start(t), FlagCancelled(run), CancelFuture(t), Begin(t, deadline)];
    var s0: seq<Action> := [];
    var s1, s2, s3, s4 := trace[..1], trace[..2], trace[..3], trace[..4];
    Extends(s0, trace[0]);
    assert s1 == s0 + [trace[0]];
    Extends(s1, trace[1]);
    assert s2 == s1 + [trace[1]];
    Extends(s2, trace[2]);
    assert s3 == s2 + [trace[2]];
    Extends(s3, trace[3]);
    assert s4 == s3 + [trace[3]];
    Extends(s4, trace[4]);
    assert trace == s4 + [trace[4]];
  }
}
