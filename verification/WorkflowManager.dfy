/** The calls that change workflows (`executor/workflow_manager_sfn.go`, `handler.go`), acting on a store
    and on the executions of Step Functions. Each is one step of the transition system in `Lifecycle`. */
module WorkflowManager {
  import opened Wrappers
  import opened Replay
  import opened SuffixReplay
  import opened PagedReplay
  import opened ProcessEvents
  import opened HistoryUpdates
  import opened StateMachines
  import opened PruningMeaning
  import opened RemoveInactive
  import opened MachineCopies
  import opened WorkflowStore
  import opened Lifecycle
  import opened LifecycleRuns
  import opened RetryTree

  datatype CallError = WorkflowActive | ActiveDescendants | InvalidStartAt | NoJobFound | JobNotStarted
                     | AlreadyResolved | CancellationNotAllowed | PruningFailed(error: PruneError)
                     | StepFunctionsFailed | Refused(reason: StoreError)

  /** Executions by name, as far as the manager can see them. Every call may be answered with an error. */
  class StepFunctions {
    var executions: map<Id, Execution>
    var inputs: map<Id, string>

    constructor ()
      ensures executions == map[] && inputs == map[]
    {
      executions, inputs := map[], map[];
    }

    method StartExecution(name: Id, input: string, answered: bool)
      modifies this
      ensures executions == old(executions)[name := if answered then ExecRunning else Absent]
      ensures inputs == old(inputs)[name := input]
    {
      executions := executions[name := if answered then ExecRunning else Absent];
      inputs := inputs[name := input];
    }

    method StopExecution(name: Id, answered: bool) returns (ok: bool)
      modifies this`executions
      ensures ok <==> answered && name in old(executions) && !old(executions)[name].Absent?
      ensures executions == if ok && old(executions)[name].ExecRunning? then old(executions)[name := ExecAborted]
                            else old(executions)
    {
      if !answered || name !in executions || executions[name].Absent? {
        return false;
      }
      if executions[name].ExecRunning? {
        executions := executions[name := ExecAborted];
      }
      return true;
    }
  }

  /** What the newest events of an execution say about its last job. */
  ghost function FoundIn(newest: Result<array<HistoryEvent>, HistoryError>, ctx: Context): Result<Option<JobData>, ()>
    reads if newest.Success? then {newest.value} else {}
  {
    match newest
    case Failure(_) => Failure(())
    case Success(events) => Success(LastJob(Run(FRESH, Reversed(events[..]), ctx)))
  }

  method FindLastJob(newest: Result<array<HistoryEvent>, HistoryError>, ctx: Context)
    returns (r: Result<Option<JobData>, ()>)
    requires newest.Success? ==> forall i :: 0 <= i < newest.value.Length ==> HasDetails(newest.value[i])
    ensures r == FoundIn(newest, ctx)
  {
    hide Run;
    if newest.Failure? {
      return Failure(());
    }
    var jobs := ReplayNewest(newest.value, ctx);
    if |jobs| > 0 {
      return Success(Some(jobs[|jobs| - 1].data));
    }
    return Success(None);
  }

  /** The record of a workflow brought up to date with its execution; nothing is saved when the last job
      of a failed execution cannot be looked up. */
  method Summarize(before: Workflow, e: Execution, stopDate: Option<Time>, sfnOutput: string,
                   newest: Result<array<HistoryEvent>, HistoryError>, ctx: Context)
    returns (r: Result<Workflow, ()>)
    requires !e.Absent?
    requires newest.Success? ==> forall i :: 0 <= i < newest.value.Length ==> HasDetails(newest.value[i])
    ensures r.Failure? <==> SFNStatusToWorkflowStatus(e).WorkflowFailed? && FoundIn(newest, ctx).Failure?
    ensures r.Success? ==> r.value == UpToDate(before, e, stopDate, sfnOutput, FoundIn(newest, ctx))
  {
    hide FoundIn;
    var workflow := before;
    workflow := workflow.(status := SFNStatusToWorkflowStatus(e));
    if e.ExecTimedOut? {
      workflow := workflow.(statusReason := WORKFLOW_TIMED_OUT);
    }
    if stopDate.Some? {
      workflow := workflow.(stoppedAt := stopDate.value);
    }
    if workflow.status == WorkflowSucceeded || workflow.status == WorkflowCancelled {
      workflow := workflow.(resolvedByUser := true);
    }
    if workflow.status == WorkflowFailed {
      var lastJob := FindLastJob(newest, ctx);
      if lastJob.Failure? {
        return Failure(());
      }
      if lastJob.value.Some? {
        workflow := workflow.(lastJob := lastJob.value);
      }
    }
    workflow := workflow.(output := sfnOutput);
    return Success(workflow);
  }

  /** The job is of that state, and is the record's last job, or else the first of its jobs of that state. */
  ghost predicate IsOriginal(wf: Workflow, startAt: string, job: JobData) {
    && job.state == startAt
    && (wf.lastJob == Some(job)
        || ((wf.lastJob == None || wf.lastJob.value.state != startAt)
            && wf.jobs.Some?
            && exists i :: 0 <= i < |wf.jobs.value| && wf.jobs.value[i] == job
                           && forall k :: 0 <= k < i ==> wf.jobs.value[k].state != startAt))
  }

  /** Neither the last job nor any job in the record is of that state. */
  predicate HasNoJobOf(wf: Workflow, startAt: string) {
    && (wf.lastJob.Some? ==> wf.lastJob.value.state != startAt)
    && (wf.jobs.Some? ==> forall i :: 0 <= i < |wf.jobs.value| ==> wf.jobs.value[i].state != startAt)
  }

  lemma {:induction false} FirstJobIs(jobs: seq<JobData>, startAt: string)
    ensures var first := FirstJobFor(jobs, startAt);
            if first.None? then forall i :: 0 <= i < |jobs| ==> jobs[i].state != startAt
            else exists i :: 0 <= i < |jobs| && jobs[i] == first.value && first.value.state == startAt
                             && forall k :: 0 <= k < i ==> jobs[k].state != startAt
  {
    if jobs != [] && jobs[0].state != startAt {
      FirstJobIs(jobs[1..], startAt);
      var first := FirstJobFor(jobs[1..], startAt);
      if first.Some? {
        var i :| 0 <= i < |jobs[1..]| && jobs[1..][i] == first.value
                 && forall k :: 0 <= k < i ==> jobs[1..][k].state != startAt;
        assert jobs[i + 1] == first.value;
        forall k | 0 <= k < i + 1 ensures jobs[k].state != startAt {
          assert k > 0 ==> jobs[k] == jobs[1..][k - 1];
        }
      } else {
        forall k | 0 <= k < |jobs| ensures jobs[k].state != startAt {
          assert k > 0 ==> jobs[k] == jobs[1..][k - 1];
        }
      }
    }
  }

  /** What the handler finds is the original job if there is one, and nothing exactly if there is none. */
  lemma OriginalJobIs(wf: Workflow, startAt: string)
    ensures var job := OriginalJob(wf, startAt);
            && (job.Some? ==> IsOriginal(wf, startAt, job.value))
            && (job.None? <==> HasNoJobOf(wf, startAt))
  {
    FirstJobIs(JobsOf(wf), startAt);
    hide FirstJobFor;
  }

  /** `job` is what the handler finds for `startAt` in the record of `id`, and had started. */
  ghost predicate StartsFrom(ws: Workflows, id: Id, startAt: string, job: JobData) {
    && id in ws && IsOriginal(ws[id], startAt, job)
    && !job.status.Created? && !job.status.Queued? && !job.status.WaitingForDeps? && !job.status.AbortedDepsFailed?
  }

  /** A summary refresh reports no error: the workflow is stored, and is done, or has no execution, or
      everything asked of SFN about its execution was answered. */
  predicate SummaryAnswers(s: System, id: Id, described: bool, found: Result<Option<JobData>, ()>) {
    && id in s.workflows
    && (WorkflowIsDone(s.workflows[id])
        || (described && (Exec(s, id).Absent?
                          || !SFNStatusToWorkflowStatus(Exec(s, id)).WorkflowFailed? || found.Success?)))
  }

  /** A resume gets as far as its retry. */
  ghost predicate GoesOn(s: System, step: Step)
    requires step.Resume?
  {
    && MayResume(s.workflows, step.id, step.startAt)
    && !(NeedsHistory(s.workflows[step.id], step.startAt) && step.history.HistoryUnavailable?)
    && step.ready
    && var s1 := BeforeRetry(s, step);
    && step.id in s1.workflows && HasInput(s1.workflows[step.id], step.startAt)
  }

  /** A resume gets as far as looking for the job to start from. */
  ghost predicate Looks(s: System, step: Step)
    requires step.Resume?
  {
    && MayResume(s.workflows, step.id, step.startAt)
    && !(NeedsHistory(s.workflows[step.id], step.startAt) && step.history.HistoryUnavailable?)
    && step.id in BeforeRetry(s, step).workflows
  }

  /** The record it looks at. */
  ghost function LookedAt(s: System, step: Step): Workflow
    requires step.Resume? && Looks(s, step)
  {
    BeforeRetry(s, step).workflows[step.id]
  }

  class SFNWorkflowManager {
    const store: MemoryStore
    const sfnapi: StepFunctions
    /** Workflows that a failed start leaves to be deleted. */
    var doomed: set<Id>

    constructor (store: MemoryStore, sfnapi: StepFunctions)
      ensures this.store == store && this.sfnapi == sfnapi && doomed == {}
    {
      this.store, this.sfnapi, doomed := store, sfnapi, {};
    }

    /** What the manager can see; what SFN will answer in future is not among it. */
    ghost function View(now: nat): System
      reads this, store, sfnapi
    {
      System(store.workflows, sfnapi.executions, now, doomed, {})
    }

    /** `ready` says whether SFN has the state machine, or could create it; without it nothing is saved. */
    method CreateWorkflow(id: Id, name: string, machine: Machine, input: string, ready: bool, started: bool, now: nat)
      returns (r: Result<Workflow, CallError>)
      requires Fresh(View(now), id) && id !in store.workflows
      modifies this, store, sfnapi
      ensures View(now) == if ready then WithNew(old(View(now)), id, name, machine, started) else old(View(now))
      ensures sfnapi.inputs == if ready then old(sfnapi.inputs)[id := input] else old(sfnapi.inputs)
      ensures r.Success? <==> ready && started
      ensures r.Success? ==>
                && r.value == store.workflows[id]
                && r.value.machine == machine && r.value.definitionName == name && r.value.status == WorkflowQueued
                && r.value.createdAt == now && r.value.retryFor == "" && r.value.retries == []
                && !r.value.resolvedByUser && r.value.lastJob == None && sfnapi.executions[id] == ExecRunning
    {
      if !ready {
        return Failure(StepFunctionsFailed);
      }
      var workflow := NewWorkflow(id, name, machine, "", now);
      var saved := store.SaveWorkflow(workflow, now);
      sfnapi.StartExecution(id, input, started);
      if !started {
        doomed := doomed + {id};
        return Failure(StepFunctionsFailed);
      }
      return Success(workflow);
    }

    /** The deletion that a failed start leaves behind. */
    method DeleteStrayWorkflow(id: Id, now: nat)
      requires id in doomed
      modifies this, store
      ensures View(now) == Deleted(old(View(now)), id)
    {
      var r := store.DeleteWorkflowByID(id);
      doomed := doomed - {id};
    }

    method CancelWorkflow(id: Id, reason: string, answered: bool, now: nat) returns (r: Result<(), CallError>)
      requires id in store.workflows ==> store.workflows[id].id == id
      modifies store, sfnapi
      ensures View(now) == Cancelled(old(View(now)), id, reason, answered)
      ensures r.Success? ==>
        id in store.workflows && store.workflows[id].resolvedByUser && store.workflows[id].statusReason == reason
      ensures r.Failure? ==> View(now) == old(View(now))
      ensures r.Success? <==>
                && answered && id in old(store.workflows) && old(store.workflows)[id].status != WorkflowSucceeded
                && old(store.workflows)[id].status != WorkflowFailed
                && id in old(sfnapi.executions) && old(sfnapi.executions)[id] != Absent
      ensures r.Success? ==> id in sfnapi.executions && sfnapi.executions[id] != ExecRunning
      ensures sfnapi.inputs == old(sfnapi.inputs)
    {
      var found := store.GetWorkflowByID(id);
      if found.Failure? {
        return Failure(Refused(found.error));
      }
      var workflow := found.value;
      if workflow.status == WorkflowSucceeded || workflow.status == WorkflowFailed {
        return Failure(CancellationNotAllowed);
      }
      var stopped := sfnapi.StopExecution(id, answered);
      if !stopped {
        return Failure(StepFunctionsFailed);
      }
      workflow := workflow.(statusReason := reason, resolvedByUser := true);
      var updated := store.UpdateWorkflow(workflow, now);
      return Success(());
    }

    method ResolveWorkflowByID(id: Id, now: nat) returns (r: Result<(), CallError>)
      requires id in store.workflows ==> store.workflows[id].id == id
      modifies store
      ensures View(now) == Resolved(old(View(now)), id)
      ensures r.Success? <==> id in old(store.workflows) && !old(store.workflows)[id].resolvedByUser
      ensures r.Success? ==>
                store.workflows == old(store.workflows)[id :=
                  old(store.workflows)[id].(resolvedByUser := true, lastUpdated := now)]
      ensures r.Failure? ==> store.workflows == old(store.workflows)
    {
      var found := store.GetWorkflowByID(id);
      if found.Failure? {
        return Failure(Refused(found.error));
      }
      var workflow := found.value;
      if workflow.resolvedByUser {
        return Failure(AlreadyResolved);
      }
      workflow := workflow.(resolvedByUser := true);
      var updated := store.UpdateWorkflow(workflow, now);
      return Success(());
    }

    /** The last job is only looked up, by a replay of the newest events, for an execution that failed. */
    method UpdateWorkflowSummary(id: Id, described: bool, stopDate: Option<Time>, sfnOutput: string,
                                 newest: Result<array<HistoryEvent>, HistoryError>, ctx: Context, now: nat)
      returns (r: Result<(), CallError>)
      requires id in store.workflows ==> store.workflows[id].id == id
      requires newest.Success? ==> forall i :: 0 <= i < newest.value.Length ==> HasDetails(newest.value[i])
      modifies store
      ensures View(now)
           == Refreshed(old(View(now)), RefreshSummary(id, described, stopDate, sfnOutput, old(FoundIn(newest, ctx))))
      ensures r.Success? <==> SummaryAnswers(old(View(now)), id, described, old(FoundIn(newest, ctx)))
    {
      hide WorkflowIsDone, FoundIn;
      var got := store.GetWorkflowByID(id);
      if got.Failure? {
        return Failure(Refused(got.error));
      }
      var workflow := got.value;
      var done := WorkflowIsDone(workflow);
      if done {
        return Success(());
      }
      if !described {
        return Failure(StepFunctionsFailed);
      }
      var status := if id in sfnapi.executions then sfnapi.executions[id] else Absent;
      if status.Absent? {
        if workflow.lastUpdated < now - ZOMBIE_AGE {
          workflow := workflow.(lastUpdated := now, status := WorkflowFailed);
          var updated := store.UpdateWorkflow(workflow, now);
        }
        return Success(());
      }
      var summarized := Summarize(workflow.(lastUpdated := now), status, stopDate, sfnOutput, newest, ctx);
      if summarized.Failure? {
        return Failure(StepFunctionsFailed);
      }
      var updated := store.UpdateWorkflow(summarized.value, now);
      return Success(());
    }

    /** All pages of the history replace the record's jobs; without an execution nothing happens. */
    method UpdateWorkflowHistory(workflow: Workflow, history: Result<seq<seq<HistoryEvent>>, HistoryError>,
                                 ctx: Context, now: nat)
      returns (r: Result<(), CallError>)
      requires workflow.id in store.workflows && store.workflows[workflow.id] == workflow
      requires PagesHaveDetails(history)
      modifies store
      ensures View(now) == WithHistory(old(View(now)), workflow.id, OutcomeOf(history, ctx))
      ensures r.Success? <==> !OutcomeOf(history, ctx).HistoryUnavailable?
      ensures r.Failure? ==> r.error == StepFunctionsFailed
      ensures history.Failure? ==> store.workflows == old(store.workflows)
      ensures history.Success? ==>
                && workflow.id in store.workflows
                && store.workflows[workflow.id].jobs == (if RunPages(history.value, ctx).jobs == [] then None
                                                         else Some(RunPages(history.value, ctx).jobs))
    {
      hide Run, RunPages;
      if history.Failure? {
        return if history.error.ExecutionDoesNotExist? then Success(()) else Failure(StepFunctionsFailed);
      }
      var jobs := ReplayPages(history.value, ctx);
      var data := seq(|jobs|, i requires 0 <= i < |jobs| reads jobs => jobs[i].data);
      assert data == DataOf(jobs);
      var updated := store.UpdateWorkflow(workflow.(jobs := if data == [] then None else Some(data)), now);
      return Success(());
    }

    /** The retry gets the definition's machine, copied, started at `startAt` and pruned. */
    method RetryWorkflow(ogWorkflow: Workflow, startAt: string, input: string, newId: Id, ready: bool, started: bool,
                         now: nat)
      returns (r: Result<Workflow, CallError>)
      requires ogWorkflow.id in store.workflows && store.workflows[ogWorkflow.id] == ogWorkflow
      requires Fresh(View(now), newId) && newId !in store.workflows
      requires KeptNilFree(ogWorkflow.machine.(startAt := startAt))
      modifies store, sfnapi
      ensures var goes := WorkflowIsDone(ogWorkflow) && Prunable(ogWorkflow.machine.(startAt := startAt)) && ready;
              && (goes ==> View(now) == WithRetry(old(View(now)), ogWorkflow.id, startAt, newId, started))
              && (goes ==> sfnapi.inputs == old(sfnapi.inputs)[newId := input])
              && (!goes ==> View(now) == old(View(now)) && sfnapi.inputs == old(sfnapi.inputs))
              && (r.Success? <==> goes && started)
              && (r.Success? ==>
                    && newId in store.workflows && r.value == store.workflows[newId]
                    && r.value.retryFor == ogWorkflow.id && r.value.machine.startAt == startAt
                    && r.value.status == WorkflowQueued && r.value.createdAt == now && r.value.retries == []
                    && r.value.definitionName == ogWorkflow.definitionName && !r.value.resolvedByUser
                    && store.workflows[ogWorkflow.id].retries == ogWorkflow.retries + [newId])
      ensures r.Failure? ==> r.error != NoJobFound && r.error != JobNotStarted
    {
      hide WorkflowIsDone, Prunable, Pruned, KeptNilFree;
      var done := WorkflowIsDone(ogWorkflow);
      if !done {
        return Failure(WorkflowActive);
      }
      var newDef := CopyOf(ogWorkflow.machine, startAt);
      var pruned := newDef.RemoveInactiveStates();
      if pruned.Failure? {
        return Failure(PruningFailed(pruned.error));
      }
      if !ready {
        return Failure(StepFunctionsFailed);
      }
      var machine := ValueOf(newDef);
      var workflow := NewWorkflow(newId, ogWorkflow.definitionName, machine, ogWorkflow.id, now);
      var saved := store.SaveWorkflow(workflow, now);
      var updated := store.UpdateWorkflow(ogWorkflow.(retries := ogWorkflow.retries + [newId]), now);
      sfnapi.StartExecution(newId, input, started);
      if !started {
        return Failure(StepFunctionsFailed);
      }
      return Success(workflow);
    }

    /** The loop over the jobs of the record. */
    method FindJob(jobs: seq<JobData>, startAt: string) returns (job: Option<JobData>)
      ensures job == FirstJobFor(jobs, startAt)
    {
      for i := 0 to |jobs|
        invariant FirstJobFor(jobs, startAt) == FirstJobFor(jobs[i..], startAt)
      {
        if jobs[i].state == startAt {
          return Some(jobs[i]);
        }
      }
      return None;
    }

    /** The job to start from, and the record after the refresh that finding it may take. */
    method FindOriginalJob(workflow: Workflow, startAt: string, history: Result<seq<seq<HistoryEvent>>, HistoryError>,
                           ctx: Context, now: nat)
      returns (r: Result<(Workflow, Option<JobData>), CallError>)
      requires workflow.id in store.workflows && store.workflows[workflow.id] == workflow
      requires PagesHaveDetails(history)
      modifies store
      ensures var refresh := NeedsHistory(workflow, startAt);
              && (r.Failure? <==> refresh && OutcomeOf(history, ctx).HistoryUnavailable?)
              && View(now) == if refresh then WithHistory(old(View(now)), workflow.id, OutcomeOf(history, ctx))
                              else old(View(now))
      ensures r.Failure? ==> View(now) == old(View(now)) && r.error == StepFunctionsFailed
      ensures r.Success? ==> workflow.id in store.workflows && r.value.0 == store.workflows[workflow.id]
      ensures r.Success? ==> r.value.1 == OriginalJob(r.value.0, startAt)
      ensures (workflow.lastJob.Some? && workflow.lastJob.value.state == startAt) || workflow.jobs.Some? ==>
                r.Success? && store.workflows == old(store.workflows)
    {
      hide OutcomeOf;
      if workflow.lastJob.Some? && startAt == workflow.lastJob.value.state {
        return Success((workflow, workflow.lastJob));
      }
      var current := workflow;
      if current.jobs.None? {
        var refreshed := UpdateWorkflowHistory(current, history, ctx, now);
        if refreshed.Failure? {
          return Failure(refreshed.error);
        }
        var got := store.GetWorkflowByID(workflow.id);
        current := got.value;
      }
      var job := FindJob(JobsOf(current), startAt);
      return Success((current, job));
    }

    /** The guards of a resume, in the handler's order. */
    method CheckResume(id: Id, startAt: string, now: nat) returns (r: Result<Workflow, CallError>)
      requires Inv(View(now))
      ensures r.Success? <==> MayResume(store.workflows, id, startAt)
      ensures r.Success? ==> r.value == store.workflows[id]
      ensures r.Failure? ==> r.error != NoJobFound && r.error != JobNotStarted
      ensures r == Failure(WorkflowActive) <==> id in store.workflows && !WorkflowIsDone(store.workflows[id])
      ensures r == Failure(InvalidStartAt)
         <==> id in store.workflows && WorkflowIsDone(store.workflows[id]) && DescendantsDone(store.workflows, id)
              && startAt !in store.workflows[id].machine.states
      ensures r == Failure(ActiveDescendants) ==> id in store.workflows && !DescendantsDone(store.workflows, id)
    {
      InvIsOrdered(View(now));
      hide *;
      var got := store.GetWorkflowByID(id);
      MayResumeMeans(store.workflows, id, startAt);
      if got.Failure? {
        return Failure(Refused(got.error));
      }
      var workflow := got.value;
      IdsAreKeys(View(now), id);
      var done := WorkflowIsDone(workflow);
      if !done {
        return Failure(WorkflowActive);
      }
      var descendants := AreDescendantWorkflowsDone(store, workflow, now);
      if descendants.Failure? {
        return Failure(Refused(descendants.error));
      }
      if !descendants.value {
        return Failure(ActiveDescendants);
      }
      if startAt !in workflow.machine.states {
        return Failure(InvalidStartAt);
      }
      return Success(workflow);
    }

    /** A resume is the step of that name, and what it starts gets the input of the job it starts from. */
    method ResumeWorkflowByID(id: Id, startAt: string, newId: Id, history: Result<seq<seq<HistoryEvent>>, HistoryError>,
                              ctx: Context, ready: bool, started: bool, now: nat)
      returns (r: Result<Workflow, CallError>)
      requires Inv(View(now)) && Fresh(View(now), newId) && PagesHaveDetails(history)
      modifies store, sfnapi
      ensures var step := Resume(id, startAt, newId, OutcomeOf(history, ctx), ready, started);
              && View(now) == Resumed(old(View(now)), step)
              && (r.Success? <==> GoesOn(old(View(now)), step) && started)
      ensures r.Success? ==>
                && newId in store.workflows && r.value == store.workflows[newId]
                && exists job :: StartsFrom(store.workflows, id, startAt, job)
                                 && sfnapi.inputs == old(sfnapi.inputs)[newId := job.input]
      ensures var step := Resume(id, startAt, newId, OutcomeOf(history, ctx), ready, started);
              r == Failure(NoJobFound)
              <==> Looks(old(View(now)), step) && HasNoJobOf(LookedAt(old(View(now)), step), startAt)
    {
      hide Inv, Fresh, MayResume, Resumed, WithRetry, NeedsHistory, WithHistory, OutcomeOf, WorkflowIsDone,
           Prunable, KeptNilFree,
           HasInput, OriginalJob, PagesHaveDetails, StartsFrom, IsOriginal, HasNoJobOf;
      ghost var s := View(now);
      ghost var step := Resume(id, startAt, newId, OutcomeOf(history, ctx), ready, started);
      ResumedInSteps(s, step);
      var checked := CheckResume(id, startAt, now);
      if checked.Failure? {
        return Failure(checked.error);
      }
      BeforeRetryIsResumable(s, step);
      IdsAreKeys(s, id);
      var original := FindOriginalJob(checked.value, startAt, history, ctx, now);
      if original.Failure? {
        return Failure(original.error);
      }
      var (current, job) := original.value;
      assert View(now) == BeforeRetry(s, step);
      HasInputMeans(current, startAt);
      OriginalJobIs(current, startAt);
      if job.None? {
        return Failure(NoJobFound);
      }
      var hasStarted := HasJobStarted(job.value.status);
      if !hasStarted {
        return Failure(JobNotStarted);
      }
      r := RetryWorkflow(current, startAt, job.value.input, newId, ready, started, now);
      RetryKeepsOriginalJob(BeforeRetry(s, step), id, startAt, newId, started);
    }

  }

  lemma MayResumeMeans(ws: Workflows, id: Id, startAt: string)
    ensures MayResume(ws, id, startAt)
       <==> id in ws && WorkflowIsDone(ws[id]) && DescendantsDone(ws, id) && startAt in ws[id].machine.states
  {
    hide WorkflowIsDone, DescendantsDone;
  }

  lemma HasInputMeans(wf: Workflow, startAt: string)
    ensures var job := OriginalJob(wf, startAt);
            HasInput(wf, startAt) <==> job.Some? && HasJobStarted(job.value.status) && WorkflowIsDone(wf)
  {
  }

  lemma ResumedInSteps(s: System, step: Step)
    requires step.Resume?
    ensures MayResume(s.workflows, step.id, step.startAt) ==> step.id in s.workflows
    ensures !MayResume(s.workflows, step.id, step.startAt) ==> Resumed(s, step) == s
    ensures MayResume(s.workflows, step.id, step.startAt) ==>
              var s1 := BeforeRetry(s, step);
              if NeedsHistory(s.workflows[step.id], step.startAt) && step.history.HistoryUnavailable?
              then Resumed(s, step) == s
              else step.id in s1.workflows
                   && Resumed(s, step) == if step.ready && HasInput(s1.workflows[step.id], step.startAt)
                                          then WithRetry(s1, step.id, step.startAt, step.newId, step.started) else s1
  {
    hide WithRetry, HasInput, NeedsHistory, DescendantsDone, WorkflowIsDone;
  }

  /** Pruning cannot stop a retry that got past the guards. */
  lemma BeforeRetryIsResumable(s: System, step: Step)
    requires Inv(s) && step.Resume? && Fresh(s, step.newId) && MayResume(s.workflows, step.id, step.startAt)
    ensures var s1 := BeforeRetry(s, step);
            && step.id in s1.workflows && s1.workflows[step.id].id == step.id
            && KeptNilFree(s1.workflows[step.id].machine.(startAt := step.startAt))
            && Prunable(s1.workflows[step.id].machine.(startAt := step.startAt))
            && Fresh(s1, step.newId) && step.newId !in s1.workflows
  {
    hide *;
    StartAtIsDefined(s.workflows, step.id, step.startAt);
    BeforeRetryIsCalm(s, step);
    var s1 := BeforeRetry(s, step);
    CalmKeepsInv(s, s1);
    SameMachine(s, s1, step.id);
    SameFresh(s, s1, step.newId);
    FreshIsNew(s1, step.newId);
    IdsAreKeys(s1, step.id);
    MachineIsResumable(s1, step.id, step.startAt);
  }

  lemma FreshIsNew(s: System, id: Id)
    requires Inv(s) && Fresh(s, id)
    ensures id !in s.workflows
  {
    if id in s.workflows {
      IdsAreKeys(s, id);
    }
  }

  lemma MachineIsResumable(s: System, id: Id, startAt: string)
    requires Inv(s) && id in s.workflows && startAt in s.workflows[id].machine.states
    ensures var moved := s.workflows[id].machine.(startAt := startAt); KeptNilFree(moved) && Prunable(moved)
  {
    assert RecordInv(s, id);
    hide Inv, Sound, NilFreeState, Prunable, KeptNilFree;
    var m := s.workflows[id].machine;
    ResumeNeverFailsToPrune(m, startAt);
    assert NilFree(m.(startAt := startAt));
    NilFreeIsEnough(m.(startAt := startAt));
  }

  lemma RetryKeepsOriginalJob(s: System, id: Id, startAt: string, newId: Id, started: bool)
    requires id in s.workflows && s.workflows[id].id == id && newId != id
    ensures var job := OriginalJob(s.workflows[id], startAt);
            job.Some? && HasJobStarted(job.value.status) ==>
              StartsFrom(WithRetry(s, id, startAt, newId, started).workflows, id, startAt, job.value)
  {
    OriginalJobIs(s.workflows[id], startAt);
    hide FirstJobFor, Pruned;
  }
}
