/** What a record's status says about its execution: in every run, and at each observation of an end. */
module StatusTruth {
  import opened Wrappers
  import opened Strings
  import opened Names
  import opened Replay
  import opened StateMachines
  import opened PruningMeaning
  import opened WorkflowStore
  import opened EventConsumer
  import opened Lifecycle
  import opened LifecycleRuns
  import opened StatusSteps
  import opened JobRecords

  /** The status that an execution calls for. */
  predicate Tells(status: WorkflowStatus, e: Execution) {
    || (e == ExecRunning && status == WorkflowRunning)
    || (e == ExecSucceeded && status == WorkflowSucceeded)
    || ((e == ExecFailed || e == ExecTimedOut) && status == WorkflowFailed)
    || (e == ExecAborted && status == WorkflowCancelled)
  }

  /** The step is a summary that waited five minutes, in nanoseconds, for the execution to begin. */
  predicate GivesUp(s: System, step: Step, id: Id) {
    && step.RefreshSummary? && step.id == id && id in s.workflows && Exec(s, id) == Absent
    && s.workflows[id].lastUpdated < s.clock - 300_000_000_000
  }

  /** A status changes to running, to what the execution calls for, or by giving up; what turns out a success
      or a cancellation is resolved, and resolved stays resolved. */
  predicate StatusMoves(s: System, step: Step, id: Id, was: Workflow, now: Workflow) {
    && (was.resolvedByUser ==> now.resolvedByUser)
    && (|| now.status == was.status
        || now.status == WorkflowRunning
        || (Tells(now.status, Exec(s, id))
            && (now.status == WorkflowSucceeded || now.status == WorkflowCancelled ==> now.resolvedByUser))
        || (now.status == WorkflowFailed && GivesUp(s, step, id)))
  }

  lemma PlainMoves(s: System, step: Step, k: Id, reason: string, stopped: bool, history: HistoryOutcome, id: Id)
    requires id in s.workflows && (k in s.workflows ==> s.workflows[k].id == k)
    ensures var t := Cancelled(s, k, reason, stopped);
            id in t.workflows && StatusMoves(s, step, id, s.workflows[id], t.workflows[id])
    ensures var t := Resolved(s, k);
            id in t.workflows && StatusMoves(s, step, id, s.workflows[id], t.workflows[id])
    ensures var t := WithHistory(s, k, history);
            id in t.workflows && StatusMoves(s, step, id, s.workflows[id], t.workflows[id])
  {
    hide Tells, GivesUp;
  }

  lemma RefreshedMoves(s: System, step: Step, id: Id)
    requires step.RefreshSummary? && id in s.workflows
    requires step.id in s.workflows ==> s.workflows[step.id].id == step.id
    ensures var t := Refreshed(s, step);
            id in t.workflows && StatusMoves(s, step, id, s.workflows[id], t.workflows[id])
  {
    hide WorkflowIsDone;
  }

  /** What a delivery can do to the record of its workflow. */
  lemma DeliveredRecord(ws: Workflows, d: Delivery)
    requires ExecOf(d.evt) in ws
    ensures var after := Handled(ws, d).0;
            && ExecOf(d.evt) in after
            && var was, now := ws[ExecOf(d.evt)], after[ExecOf(d.evt)];
            && (was.resolvedByUser ==> now.resolvedByUser)
            && (|| now.status == was.status
                || (!IsTerminalEvent(d.evt.typ) && now.status == WorkflowRunning)
                || (IsTerminalEvent(d.evt.typ) && Tells(now.status, EndOf(d.evt.typ))
                    && (now.status == WorkflowSucceeded || now.status == WorkflowCancelled ==> now.resolvedByUser)))
  {
    hide ExecOf, Atoi, UnixMilli;
  }

  lemma DeliveredIsEnd(s: System, d: Delivery)
    requires Enabled(s, Deliver(d))
    ensures IsTerminalEvent(d.evt.typ) ==> Exec(s, ExecOf(d.evt)) == EndOf(d.evt.typ)
  {
    hide ExecOf, Fresh, Plausible, Accepted, Exec;
  }

  lemma DeliveredMoves(s: System, d: Delivery, id: Id)
    requires Enabled(s, Deliver(d)) && id in s.workflows
    ensures var t := Delivered(s, d);
            id in t.workflows && StatusMoves(s, Deliver(d), id, s.workflows[id], t.workflows[id])
  {
    hide Handled, ExecOf, Enabled, Tells, GivesUp, Exec;
    DeliveredKeeps(s.workflows, d);
    if id == ExecOf(d.evt) {
      DeliveredRecord(s.workflows, d);
      DeliveredIsEnd(s, d);
    }
  }

  lemma CalmStatusMoves(s: System, step: Step, id: Id)
    requires Inv(s) && Enabled(s, step) && IsCalm(step) && id in s.workflows
    ensures id in Effect(s, step).workflows
    ensures StatusMoves(s, step, id, s.workflows[id], Effect(s, step).workflows[id])
  {
    hide Inv, Cancelled, Refreshed, WithHistory, Resolved, Delivered, Enabled, Tells, GivesUp;
    forall k | k in s.workflows ensures s.workflows[k].id == k {
      IdsAreKeys(s, k);
    }
    match step
    case Cancel(k, reason, stopped) => PlainMoves(s, step, k, reason, stopped, NoExecution, id);
    case RefreshSummary(_, _, _, _, _) => RefreshedMoves(s, step, id);
    case RefreshHistory(k, history) => PlainMoves(s, step, k, "", false, history, id);
    case Resolve(k) => PlainMoves(s, step, k, "", false, NoExecution, id);
    case Deliver(d) => DeliveredMoves(s, d, id);
    case _ =>
  }

  lemma Unmoved(s: System, step: Step, id: Id, was: Workflow, now: Workflow)
    requires now.status == was.status && now.resolvedByUser == was.resolvedByUser
    ensures StatusMoves(s, step, id, was, now)
  {
    hide Tells, GivesUp;
  }

  lemma BeforeRetryStatus(s: System, step: Step, id: Id)
    requires Inv(s) && step.Resume? && step.id in s.workflows && id in s.workflows
    ensures var t := BeforeRetry(s, step);
            && id in t.workflows && t.workflows[id].status == s.workflows[id].status
            && t.workflows[id].resolvedByUser == s.workflows[id].resolvedByUser
  {
    IdsAreKeys(s, step.id);
    hide Inv, NeedsHistory;
  }

  lemma ResumedStatus(s: System, step: Step, id: Id)
    requires Inv(s) && step.Resume? && Fresh(s, step.newId) && id in s.workflows
    ensures var t := Resumed(s, step);
            && id in t.workflows && t.workflows[id].status == s.workflows[id].status
            && t.workflows[id].resolvedByUser == s.workflows[id].resolvedByUser
  {
    hide *;
    ResumedCases(s, step);
    StartAtIsDefined(s.workflows, step.id, step.startAt);
    if Resumed(s, step) != s {
      var s1 := BeforeRetry(s, step);
      BeforeRetryStatus(s, step, id);
      BeforeRetryIsCalm(s, step);
      CalmKeepsInv(s, s1);
      if Resumed(s, step) != s1 {
        SameFresh(s, s1, step.newId);
        WithRetryShape(s1, step.id, step.startAt, step.newId, step.started);
      }
    }
  }

  lemma NextStatusMoves(s: System, step: Step, id: Id)
    requires Inv(s) && Enabled(s, step) && id in s.workflows && id in Next(s, step).workflows
    ensures StatusMoves(s, step, id, s.workflows[id], Next(s, step).workflows[id])
  {
    hide *;
    NextIsTicked(s, step);
    TickedRecords(Effect(s, step));
    EnabledMoves(s, step);
    StepKinds(step);
    if IsCalm(step) {
      CalmStatusMoves(s, step, id);
    } else {
      if step.Resume? {
        ResumedStatus(s, step, id);
      } else if step.Create? {
        FreshIsNotStored(s, step.id);
        CreatedLeaves(s, step, id);
      } else {
        DeletedKeepsRecord(s, step.id, id);
      }
      Unmoved(s, step, id, s.workflows[id], Next(s, step).workflows[id]);
    }
  }

  // ---------- every run ----------

  /** A success or a cancellation is one of the execution, and resolved; a failure is one of the execution
      unless the workflow has been given up on. */
  ghost predicate IsTrue(s: System, id: Id, givenUp: bool)
    requires id in s.workflows
  {
    var wf, e := s.workflows[id], Exec(s, id);
    && (wf.status == WorkflowSucceeded ==> e == ExecSucceeded && wf.resolvedByUser)
    && (wf.status == WorkflowCancelled ==> e == ExecAborted && wf.resolvedByUser)
    && (wf.status == WorkflowFailed ==> e == ExecFailed || e == ExecTimedOut || givenUp)
  }

  lemma StaysTrue(s: System, step: Step, t: System, id: Id, givenUp: bool, givenUpNow: bool)
    requires id in s.workflows && id in t.workflows && IsTrue(s, id, givenUp)
    requires StatusMoves(s, step, id, s.workflows[id], t.workflows[id])
    requires Moves(Exec(s, id), Exec(t, id), step == LateStart(id))
    requires (givenUp || GivesUp(s, step, id)) ==> givenUpNow
    ensures IsTrue(t, id, givenUpNow)
  {
    hide Exec, GivesUp;
  }

  lemma NewIsTrue(s: System, id: Id, givenUp: bool)
    requires id in s.workflows && !IsTerminal(s.workflows, id)
    ensures IsTrue(s, id, givenUp)
  {
    TerminalMeans(s.workflows[id].status);
    hide Exec;
  }

  ghost predicate WasGivenUp(run: seq<System>, steps: seq<Step>, k: nat, id: Id) {
    exists i :: 0 <= i < k && i < |run| && i < |steps| && GivesUp(run[i], steps[i], id)
  }

  /** In every run a record tells the truth: one that succeeded or was cancelled has an execution that did,
      and is resolved; one that failed has an execution that failed or timed out, unless an earlier summary
      had waited five minutes for it to begin. */
  lemma {:induction false} RecordsAreTrue(run: seq<System>, steps: seq<Step>, k: nat, id: Id)
    requires IsRun(run, steps) && k < |run| && id in run[k].workflows
    ensures IsTrue(run[k], id, WasGivenUp(run, steps, k, id))
    decreases k
  {
    hide *;
    RunShape(run, steps);
    RunKeepsInv(run, steps);
    if k == 0 {
      assert false;
    } else {
      var s, step := run[k - 1], steps[k - 1];
      StepOfRun(run, steps, k - 1);
      if id in s.workflows {
        RecordsAreTrue(run, steps, k - 1, id);
        NextStatusMoves(s, step, id);
        ExecMoves(s, step, id);
        GivenUpSoFar(run, steps, k - 1, id);
        StaysTrue(s, step, run[k], id, WasGivenUp(run, steps, k - 1, id), WasGivenUp(run, steps, k, id));
      } else {
        NewRecordsAreActive(s, step, id);
        NewIsTrue(run[k], id, WasGivenUp(run, steps, k, id));
      }
    }
  }

  lemma GivenUpSoFar(run: seq<System>, steps: seq<Step>, k: nat, id: Id)
    requires k < |run| && k < |steps|
    ensures WasGivenUp(run, steps, k, id) || GivesUp(run[k], steps[k], id) ==> WasGivenUp(run, steps, k + 1, id)
  {
    hide GivesUp;
  }

  /** In every run a workflow is done if and only if it has succeeded, failed or been cancelled, and so has
      each of its recorded jobs, or was given up because of the jobs it depends on. */
  lemma DoneExactly(run: seq<System>, steps: seq<Step>, k: nat, id: Id)
    requires IsRun(run, steps) && k < |run| && id in run[k].workflows
    ensures var wf := run[k].workflows[id];
            WorkflowIsDone(wf)
            <==> (wf.status == WorkflowSucceeded || wf.status == WorkflowFailed || wf.status == WorkflowCancelled)
                 && (wf.jobs.Some? ==> forall i :: 0 <= i < |wf.jobs.value| ==>
                       wf.jobs.value[i].status in {Succeeded, Failed, AbortedByUser, AbortedDepsFailed})
  {
    RecordsAreTrue(run, steps, k, id);
    DoneRecord(run[k], id, WasGivenUp(run, steps, k, id));
    hide *;
  }

  lemma DoneRecord(s: System, id: Id, givenUp: bool)
    requires id in s.workflows && IsTrue(s, id, givenUp)
    ensures var wf := s.workflows[id];
            WorkflowIsDone(wf)
            <==> (wf.status == WorkflowSucceeded || wf.status == WorkflowFailed || wf.status == WorkflowCancelled)
                 && (wf.jobs.Some? ==> forall i :: 0 <= i < |wf.jobs.value| ==>
                       wf.jobs.value[i].status in {Succeeded, Failed, AbortedByUser, AbortedDepsFailed})
  {
    forall status: JobStatus
      ensures JobIsDone(status) <==> status in {Succeeded, Failed, AbortedByUser, AbortedDepsFailed}
    {
      JobDoneMeans(status);
    }
    hide Exec, JobIsDone;
    var jobs := JobsOf(s.workflows[id]);
    assert (forall i :: 0 <= i < |jobs| ==> JobIsDone(jobs[i].status))
      <==> forall i :: 0 <= i < |jobs| ==> jobs[i].status in {Succeeded, Failed, AbortedByUser, AbortedDepsFailed};
  }

  lemma JobDoneMeans(status: JobStatus)
    ensures JobIsDone(status) <==> status in {Succeeded, Failed, AbortedByUser, AbortedDepsFailed}
  {
  }

  // ---------- at an observation ----------

  /** The record after its execution was seen: what it is told, and everything else as before. */
  ghost predicate IsToldOf(was: Workflow, now: Workflow, e: Execution, stoppedAt: Time, output: string,
                           job: Option<JobData>)
  {
    && Tells(now.status, e) && now.stoppedAt == stoppedAt && now.output == output
    && now.statusReason == (if e == ExecTimedOut then "Workflow timed out" else was.statusReason)
    && now.resolvedByUser == (was.resolvedByUser || e == ExecSucceeded || e == ExecAborted)
    && now.lastJob == (if (e == ExecFailed || e == ExecTimedOut) && job.Some? then job else was.lastJob)
    && now == was.(status := now.status, stoppedAt := stoppedAt, output := output, statusReason := now.statusReason,
                   resolvedByUser := now.resolvedByUser, lastJob := now.lastJob, lastUpdated := now.lastUpdated)
  }

  predicate Fails(e: Execution) {
    e == ExecFailed || e == ExecTimedOut
  }

  /** A summary of a record that is not done: an execution that has begun is told of as it is, once the last job
      of a failed one is found; one that has not is waited for, and then given up on. */
  lemma SummaryTells(s: System, step: Step)
    requires step.RefreshSummary? && step.described && step.id in s.workflows
    requires s.workflows[step.id].id == step.id && !WorkflowIsDone(s.workflows[step.id])
    requires Fails(Exec(s, step.id)) ==> step.found.Success?
    ensures var id, t := step.id, Refreshed(s, step);
            var was, e := s.workflows[id], Exec(s, id);
            && t == s.(workflows := t.workflows) && id in t.workflows
            && t.workflows == s.workflows[id := t.workflows[id]]
            && if e == Absent then
                 t.workflows[id] == if GivesUp(s, step, id) then was.(status := WorkflowFailed, lastUpdated := s.clock)
                                    else was
               else
                 && t.workflows[id].lastUpdated == s.clock
                 && IsToldOf(was, t.workflows[id], e,
                             if step.stopDate.Some? then step.stopDate.value else was.stoppedAt,
                             step.sfnOutput, if Fails(e) then step.found.value else None)
  {
    hide WorkflowIsDone;
  }

  /** A delivery of an end: the record is told of it at the event's time, with the output of a success, once the
      last job of a failure is found. */
  lemma EventTells(s: System, d: Delivery)
    requires Enabled(s, Deliver(d)) && IsEnd(d.evt) && ExecOf(d.evt) in s.workflows
    requires Fails(Exec(s, ExecOf(d.evt))) ==> d.found.Success?
    ensures var id, t := ExecOf(d.evt), Delivered(s, d);
            var was, e := s.workflows[id], Exec(s, id);
            && t == s.(workflows := t.workflows) && id in t.workflows
            && t.workflows == s.workflows[id := t.workflows[id]]
            && t.workflows[id].lastUpdated == was.lastUpdated
            && IsToldOf(was, t.workflows[id], e, Atoi(d.evt.timestamp).value * 1_000_000,
                        if e == ExecSucceeded then d.evt.output.value else was.output,
                        if Fails(e) then d.found.value else None)
  {
    DeliveredIsEnd(s, d);
    hide Atoi, ExecIDFromExecutionARN, Exec, Enabled;
  }

  /** Any other event: the second of its execution makes a workflow running that has not finished, and nothing
      else changes. */
  lemma OtherEventsTell(s: System, d: Delivery)
    requires !IsTerminalEvent(d.evt.typ)
    ensures var id, t := ExecOf(d.evt), Delivered(s, d);
            t == if d.evt.id == "2" && id in s.workflows
                    && (s.workflows[id].status == WorkflowQueued || s.workflows[id].status == WorkflowRunning) then
                   s.(workflows := s.workflows[id := s.workflows[id].(status := WorkflowRunning)])
                 else s
  {
    if ExecOf(d.evt) in s.workflows {
      TerminalMeans(s.workflows[ExecOf(d.evt)].status);
    }
    hide ExecOf;
  }
}
