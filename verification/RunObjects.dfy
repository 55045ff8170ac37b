/** The two classes whose methods are the steps of the protocol. Between any two steps other threads may take theirs;
    the composed methods `RunControlled` and `Cancel` are the case in which they do not. */
module RunObjects {
  import opened Wrappers
  import opened RunProtocol

  class RunControlRegistry {
    var deadlines: map<RunId, real>
    var cancelled: set<RunId>

    constructor ()
      ensures deadlines == map[] && cancelled == {}
    {
      deadlines := map[];
      cancelled := {};
    }

    method Begin(run: RunId, timeoutSeconds: real, now: real)
      modifies this
      ensures cancelled == old(cancelled) - {run}
      ensures deadlines == old(deadlines)[run := now + timeoutSeconds]
    {
      cancelled := cancelled - {run};
      deadlines := deadlines[run := now + timeoutSeconds];
    }

    method Finish(run: RunId)
      modifies this
      ensures deadlines == old(deadlines) - {run}
      ensures cancelled == old(cancelled) - {run}
    {
      deadlines := deadlines - {run};
      cancelled := cancelled - {run};
    }

    method Cancel(run: RunId)
      modifies this
      ensures cancelled == old(cancelled) + {run} && deadlines == old(deadlines)
    {
      cancelled := cancelled + {run};
    }

    method StopReason(run: RunId, now: real) returns (reason: Option<StopReason>)
      ensures reason == ReasonToStop(cancelled, deadlines, run, now)
    {
      if run in cancelled { return Some(UserCancelled); }
      if run in deadlines && now >= deadlines[run] { return Some(AnalysisJobTimeout); }
      return None;
    }
  }

  class InProcessJobRunner {
    const control: RunControlRegistry
    const timeoutSeconds: real
    var tasks: map<TaskId, Task>
    var futures: map<RunId, TaskId>

    constructor (control: RunControlRegistry, timeoutSeconds: real)
      ensures this.control == control && this.timeoutSeconds == timeoutSeconds && tasks == map[] && futures == map[]
    {
      this.control := control;
      this.timeoutSeconds := timeoutSeconds;
      tasks := map[];
      futures := map[];
    }

    function Snapshot(): State
      reads this, control
    {
      State(tasks, futures, control.deadlines, control.cancelled)
    }

    /** `task` is the future that the executor would create. */
    method Submit(run: RunId, task: TaskId)
      requires Inv(Snapshot()) && task !in tasks
      modifies this
      ensures Snapshot() == Apply(old(Snapshot()), Action.Submit(run, task))
      ensures Inv(Snapshot())
    {
      if run in futures && !IsDone(tasks[futures[run]].phase) { return; }
      tasks := tasks[task := Task(run, Queued)];
      futures := futures[run := task];
      StepKeepsInv(old(Snapshot()), Action.Submit(run, task));
    }

    /** Refuses while the registered job is still running. */
    method Retry(run: RunId, task: TaskId) returns (accepted: bool)
      requires Inv(Snapshot()) && task !in tasks
      modifies this
      ensures accepted <==> !Occupied(old(Snapshot()), run)
      ensures Snapshot() == Apply(old(Snapshot()), Action.Retry(run, task))
      ensures Inv(Snapshot())
    {
      if run in futures && !IsDone(tasks[futures[run]].phase) { return false; }
      tasks := tasks[task := Task(run, Queued)];
      futures := futures[run := task];
      StepKeepsInv(old(Snapshot()), Action.Retry(run, task));
      return true;
    }

    /** A free worker picks the task up. */
    method StartTask(task: TaskId)
      requires Inv(Snapshot()) && InPhase(Snapshot(), task, Queued)
      modifies this
      ensures Snapshot() == Apply(old(Snapshot()), Start(task))
      ensures Inv(Snapshot())
    {
      SetPhase(task, Started);
      StepKeepsInv(old(Snapshot()), Start(task));
    }

    method SetPhase(task: TaskId, phase: Phase)
      requires task in tasks
      modifies this`tasks
      ensures tasks == old(tasks)[task := old(tasks)[task].(phase := phase)]
    {
      tasks := tasks[task := tasks[task].(phase := phase)];
    }

    /** The worker announces the task to the registry. */
    method BeginTask(task: TaskId, now: real)
      requires Inv(Snapshot()) && InPhase(Snapshot(), task, Started)
      modifies this`tasks, control
      ensures Snapshot() == Apply(old(Snapshot()), Begin(task, now + timeoutSeconds))
      ensures Inv(Snapshot())
    {
      control.Begin(tasks[task].run, timeoutSeconds, now);
      SetPhase(task, Active);
      StepKeepsInv(old(Snapshot()), Begin(task, now + timeoutSeconds));
    }

    /** The worker withdraws the task from the registry, whether its body returned or raised. */
    method FinishTask(task: TaskId)
      requires Inv(Snapshot()) && InPhase(Snapshot(), task, Active)
      modifies this`tasks, control
      ensures Snapshot() == Apply(old(Snapshot()), Finish(task))
      ensures Inv(Snapshot())
    {
      control.Finish(tasks[task].run);
      SetPhase(task, Finishing);
      StepKeepsInv(old(Snapshot()), Finish(task));
    }

    /** The future's result is set. */
    method CompleteTask(task: TaskId)
      requires Inv(Snapshot()) && InPhase(Snapshot(), task, Finishing)
      modifies this
      ensures Snapshot() == Apply(old(Snapshot()), Complete(task))
      ensures Inv(Snapshot())
    {
      SetPhase(task, Done);
      StepKeepsInv(old(Snapshot()), Complete(task));
    }

    /** What the worker does with a task, the task's body being its questions for a reason to stop, at the given times.
        When nobody cancels meanwhile, the only reason it is ever given is its own deadline, whatever was flagged
        before, and it leaves neither a deadline nor a flag behind. */
    method RunControlled(task: TaskId, now: real, polls: seq<real>) returns (reasons: seq<Option<StopReason>>)
      requires Inv(Snapshot()) && InPhase(Snapshot(), task, Started)
      modifies this`tasks, control
      ensures |reasons| == |polls| && forall i :: 0 <= i < |polls| ==>
        reasons[i] == if polls[i] >= now + timeoutSeconds then Some(AnalysisJobTimeout) else None
      ensures var begun := Apply(old(Snapshot()), Begin(task, now + timeoutSeconds));
        Snapshot() == Apply(begun, Finish(task))
      ensures var run := old(tasks)[task].run; run !in control.deadlines && run !in control.cancelled
      ensures Inv(Snapshot())
    {
      var run := tasks[task].run;
      BeginTask(task, now);
      ghost var begun := Snapshot();
      reasons := [];
      for i := 0 to |polls|
        invariant Snapshot() == begun && |reasons| == i
        invariant forall j :: 0 <= j < i ==>
          reasons[j] == if polls[j] >= now + timeoutSeconds then Some(AnalysisJobTimeout) else None
      {
        var reason := control.StopReason(run, polls[i]);
        reasons := reasons + [reason];
      }
      FinishTask(task);
    }

    /** A worker's whole dealing with a queued task, with nothing in between. */
    method Execute(task: TaskId, now: real, polls: seq<real>) returns (reasons: seq<Option<StopReason>>)
      requires Inv(Snapshot()) && InPhase(Snapshot(), task, Queued)
      modifies this, control
      ensures |reasons| == |polls| && forall i :: 0 <= i < |polls| ==>
        reasons[i] == if polls[i] >= now + timeoutSeconds then Some(AnalysisJobTimeout) else None
      ensures futures == old(futures) && tasks == old(tasks)[task := old(tasks)[task].(phase := Done)]
      ensures !Occupied(Snapshot(), tasks[task].run)
      ensures Inv(Snapshot())
    {
      StartTask(task);
      reasons := RunControlled(task, now, polls);
      CompleteTask(task);
    }

    // ---------- the three steps of a cancel ----------

    /** Read under the runner's lock, which is then released. */
    method LookUp(run: RunId) returns (future: Option<TaskId>)
      ensures future == if run in futures then Some(futures[run]) else None
    {
      return if run in futures then Some(futures[run]) else None;
    }

    method Flag(run: RunId)
      requires Inv(Snapshot())
      modifies control
      ensures Snapshot() == Apply(old(Snapshot()), FlagCancelled(run))
      ensures Inv(Snapshot())
    {
      control.Cancel(run);
      StepKeepsInv(old(Snapshot()), FlagCancelled(run));
    }

    /** Cancels the future that was looked up if it is still queued, and reports whether it is cancelled now. */
    method Withdraw(future: Option<TaskId>) returns (withdrawn: bool)
      requires Inv(Snapshot()) && (future.Some? ==> future.value in tasks)
      modifies this`tasks
      ensures Snapshot() == if future.Some? then Apply(old(Snapshot()), CancelFuture(future.value)) else old(Snapshot())
      ensures withdrawn <==> future.Some? && InPhase(Snapshot(), future.value, Cancelled)
      ensures Inv(Snapshot())
    {
      if future.None? { return false; }
      if tasks[future.value].phase.Queued? { SetPhase(future.value, Cancelled); }
      StepKeepsInv(old(Snapshot()), CancelFuture(future.value));
      return tasks[future.value].phase.Cancelled?;
    }

    /** The three steps with nothing in between. */
    method Cancel(run: RunId) returns (withdrawn: bool)
      requires Inv(Snapshot())
      modifies this`tasks, control
      ensures var flagged := Apply(old(Snapshot()), FlagCancelled(run));
        Snapshot() == if run in old(futures) then Apply(flagged, CancelFuture(old(futures)[run])) else flagged
      ensures withdrawn <==> run in futures && InPhase(Snapshot(), futures[run], Cancelled)
      ensures Inv(Snapshot())
    {
      var future := LookUp(run);
      Flag(run);
      withdrawn := Withdraw(future);
    }
  }
}
