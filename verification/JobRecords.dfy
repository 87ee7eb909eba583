/** What records say about their jobs over every run: jobs are only recorded for machines that can have
    them, and a cancelled workflow is resolved. */
module JobRecords {
  import opened Wrappers
  import opened Replay
  import opened StateMachines
  import opened PruningMeaning
  import opened CatchRuns
  import opened WorkflowStore
  import opened EventConsumer
  import opened Lifecycle
  import opened LifecycleRuns
  import opened StatusSteps

  predicate HasNoJobs(wf: Workflow) {
    JobsOf(wf) == []
  }

  /** A cancelled record is resolved, and a record of a machine that makes no jobs has none. */
  ghost predicate RecordSays(wf: Workflow) {
    && (wf.status.WorkflowCancelled? ==> wf.resolvedByUser)
    && (!MakesJobs(wf.machine) ==> HasNoJobs(wf))
  }

  ghost predicate RecordsSay(ws: Workflows) {
    forall id :: id in ws ==> RecordSays(ws[id])
  }

  // ---------- histories of machines without jobs ----------

  lemma {:induction false} NoneEntered(events: seq<HistoryEvent>)
    requires forall i :: 0 <= i < |events| ==> !Class(events[i].typ).Entered?
    ensures EnteredCount(events) == 0
  {
    if events != [] {
      NoneEntered(events[..|events| - 1]);
    }
  }

  lemma EntryMakesJobs(m: Machine, events: seq<HistoryEvent>, i: nat)
    requires EntersItsStates(m, events) && i < |events|
    ensures Class(events[i].typ).Entered? ==> MakesJobs(m)
  {
    if Class(events[i].typ).Entered? {
      assert IsJobType(TypeEntered(events[i].typ));
      assert ComesTo(m, events[i].entered.value.name, TypeEntered(events[i].typ));
    }
  }

  lemma EntersNone(m: Machine, events: seq<HistoryEvent>)
    requires EntersItsStates(m, events) && !MakesJobs(m)
    ensures EnteredCount(events) == 0
  {
    forall i | 0 <= i < |events| ensures !Class(events[i].typ).Entered? {
      EntryMakesJobs(m, events, i);
    }
    NoneEntered(events);
  }

  lemma {:induction false} NoJobsReplayed(m: Machine, pages: seq<seq<HistoryEvent>>, ctx: Context)
    requires AllEnterItsStates(m, pages) && !MakesJobs(m)
    ensures RunPages(pages, ctx).jobs == []
  {
    hide MakesJobs, EntersItsStates, Run;
    if pages != [] {
      var init := pages[..|pages| - 1];
      NoJobsReplayed(m, init, ctx);
      EntersNone(m, pages[|pages| - 1]);
    }
  }

  lemma NoJobsSeen(m: Machine, history: HistoryOutcome)
    requires IsHistoryOf(m, history) && history.Pages? && !MakesJobs(m)
    ensures history.jobs == None
  {
    hide MakesJobs, AllEnterItsStates, PagesHaveDetails, RunPages, ContextOf;
    var pages, namespace :| PagesHaveDetails(Success(pages)) && AllEnterItsStates(m, pages)
      && history == OutcomeOf(Success(pages), ContextOf(m, namespace));
    NoJobsReplayed(m, pages, ContextOf(m, namespace));
  }

  // ---------- one record ----------

  lemma NewSays(id: Id, name: string, machine: Machine, retryFor: Id, now: Time)
    ensures RecordSays(NewWorkflow(id, name, machine, retryFor, now))
  {
    hide MakesJobs;
  }

  /** Jobs and machine as before, and resolved whenever cancelled. */
  lemma StillSays(was: Workflow, now: Workflow)
    requires RecordSays(was) && now.jobs == was.jobs && now.machine == was.machine
    requires now.status.WorkflowCancelled? ==> now.resolvedByUser
    ensures RecordSays(now)
  {
    hide MakesJobs;
  }

  // ---------- steps ----------

  lemma CancelledSays(s: System, id: Id, reason: string, stopped: bool)
    requires RecordsSay(s.workflows) && (id in s.workflows ==> s.workflows[id].id == id)
    ensures RecordsSay(Cancelled(s, id, reason, stopped).workflows)
  {
    hide MakesJobs;
    if id in s.workflows {
      assert RecordSays(s.workflows[id]);
    }
  }

  lemma RefreshedSays(s: System, step: Step)
    requires step.RefreshSummary? && RecordsSay(s.workflows)
    requires step.id in s.workflows ==> s.workflows[step.id].id == step.id
    ensures RecordsSay(Refreshed(s, step).workflows)
  {
    hide MakesJobs, WorkflowIsDone;
    if step.id in s.workflows {
      assert RecordSays(s.workflows[step.id]);
    }
  }

  lemma WithHistorySays(s: System, id: Id, history: HistoryOutcome)
    requires RecordsSay(s.workflows) && (id in s.workflows ==> s.workflows[id].id == id)
    requires history.Pages? && id in s.workflows ==> IsHistoryOf(s.workflows[id].machine, history)
    ensures RecordsSay(WithHistory(s, id, history).workflows)
  {
    hide MakesJobs, IsHistoryOf;
    if id in s.workflows {
      assert RecordSays(s.workflows[id]);
      if history.Pages? && !MakesJobs(s.workflows[id].machine) {
        NoJobsSeen(s.workflows[id].machine, history);
      }
    }
  }

  lemma ResolvedSays(s: System, id: Id)
    requires RecordsSay(s.workflows) && (id in s.workflows ==> s.workflows[id].id == id)
    ensures RecordsSay(Resolved(s, id).workflows)
  {
    hide MakesJobs;
    if id in s.workflows {
      assert RecordSays(s.workflows[id]);
    }
  }

  lemma DeliveredSays(s: System, d: Delivery)
    requires RecordsSay(s.workflows)
    ensures RecordsSay(Delivered(s, d).workflows)
  {
    hide MakesJobs, ExecOf, RecordSays;
    var id := ExecOf(d.evt);
    DeliveredKeeps(s.workflows, d);
    var after := Handled(s.workflows, d).0;
    hide Handled;
    if id in s.workflows {
      assert RecordSays(s.workflows[id]);
      DeliveredRecordSays(s.workflows[id], after[id]);
    }
  }

  lemma DeliveredRecordSays(was: Workflow, now: Workflow)
    requires RecordSays(was) && now.jobs == was.jobs && now.machine == was.machine
    requires now.status.WorkflowCancelled? ==> was.status.WorkflowCancelled? || now.resolvedByUser
    requires was.resolvedByUser ==> now.resolvedByUser
    ensures RecordSays(now)
  {
    StillSays(was, now);
  }

  lemma DeliveredKeeps(ws: Workflows, d: Delivery)
    ensures var after := Handled(ws, d).0;
            && after.Keys == ws.Keys
            && (forall id :: id in ws && id != ExecOf(d.evt) ==> after[id] == ws[id])
            && (ExecOf(d.evt) in ws ==>
                  var was, now := ws[ExecOf(d.evt)], after[ExecOf(d.evt)];
                  && now.jobs == was.jobs && now.machine == was.machine
                  && (now.status.WorkflowCancelled? ==> was.status.WorkflowCancelled? || now.resolvedByUser)
                  && (was.resolvedByUser ==> now.resolvedByUser))
  {
    hide ExecOf;
  }

  lemma EnabledHistory(s: System, step: Step)
    requires Enabled(s, step)
    ensures step.RefreshHistory? || step.Resume? ==>
              (step.history.Pages? && step.id in s.workflows
               ==> IsHistoryOf(s.workflows[step.id].machine, step.history))
  {
    hide IsHistoryOf, Accepted, Fresh, Exec;
  }

  lemma CalmStepSays(s: System, step: Step)
    requires Inv(s) && RecordsSay(s.workflows) && Enabled(s, step) && IsCalm(step)
    ensures RecordsSay(Effect(s, step).workflows)
  {
    EnabledHistory(s, step);
    hide Inv, Enabled, Cancelled, Refreshed, WithHistory, Resolved, Delivered, RecordsSay, IsHistoryOf;
    forall id | id in s.workflows ensures s.workflows[id].id == id {
      IdsAreKeys(s, id);
    }
    match step
    case Cancel(id, reason, stopped) => CancelledSays(s, id, reason, stopped);
    case RefreshSummary(_, _, _, _, _) => RefreshedSays(s, step);
    case RefreshHistory(id, history) => WithHistorySays(s, id, history);
    case Resolve(id) => ResolvedSays(s, id);
    case Deliver(d) => DeliveredSays(s, d);
    case _ =>
  }

  lemma AddedSays(s: System, id: Id, name: string, machine: Machine, started: bool)
    requires RecordsSay(s.workflows)
    ensures RecordsSay(WithNew(s, id, name, machine, started).workflows)
  {
    NewSays(id, name, machine, "", s.clock);
    hide RecordSays, NewWorkflow;
  }

  lemma DeletedSays(s: System, id: Id)
    requires RecordsSay(s.workflows)
    ensures RecordsSay(Deleted(s, id).workflows)
  {
    hide RecordSays;
  }

  lemma RetrySays(s: System, id: Id, startAt: string, newId: Id, started: bool)
    requires RecordsSay(s.workflows) && id in s.workflows && s.workflows[id].id == id && newId != id
    ensures RecordsSay(WithRetry(s, id, startAt, newId, started).workflows)
  {
    var wf := s.workflows[id];
    var machine := Pruned(wf.machine.(startAt := startAt));
    NewSays(newId, wf.definitionName, machine, id, s.clock);
    assert RecordSays(wf);
    StillSays(wf, wf.(retries := wf.retries + [newId], lastUpdated := s.clock));
    hide RecordSays, NewWorkflow, Pruned;
  }

  lemma BeforeRetrySays(s: System, step: Step)
    requires Inv(s) && RecordsSay(s.workflows) && step.Resume? && step.id in s.workflows
    requires step.history.Pages? ==> IsHistoryOf(s.workflows[step.id].machine, step.history)
    ensures RecordsSay(BeforeRetry(s, step).workflows)
  {
    IdsAreKeys(s, step.id);
    hide Inv, RecordsSay, NeedsHistory, IsHistoryOf, WithHistory;
    WithHistorySays(s, step.id, step.history);
  }

  lemma ResumedSays(s: System, step: Step)
    requires Inv(s) && RecordsSay(s.workflows) && step.Resume? && Fresh(s, step.newId)
    requires step.history.Pages? && step.id in s.workflows ==> IsHistoryOf(s.workflows[step.id].machine, step.history)
    ensures RecordsSay(Resumed(s, step).workflows)
  {
    hide *;
    ResumedCases(s, step);
    StartAtIsDefined(s.workflows, step.id, step.startAt);
    if Resumed(s, step) != s {
      var s1 := BeforeRetry(s, step);
      BeforeRetrySays(s, step);
      BeforeRetryIsCalm(s, step);
      CalmKeepsInv(s, s1);
      if Resumed(s, step) != s1 {
        SameFresh(s, s1, step.newId);
        IdsAreKeys(s1, step.id);
        WithRetryShape(s1, step.id, step.startAt, step.newId, step.started);
        RetrySays(s1, step.id, step.startAt, step.newId, step.started);
      }
    }
  }

  /** Every step keeps what the records say. */
  lemma NextKeepsRecords(s: System, step: Step)
    requires Inv(s) && RecordsSay(s.workflows) && Enabled(s, step)
    ensures RecordsSay(Next(s, step).workflows)
  {
    hide *;
    NextIsTicked(s, step);
    TickedRecords(Effect(s, step));
    EnabledMoves(s, step);
    EnabledHistory(s, step);
    StepKinds(step);
    if IsCalm(step) {
      CalmStepSays(s, step);
    } else if step.Resume? {
      ResumedSays(s, step);
    } else if step.Create? {
      AddedSays(s, step.id, step.name, step.machine, step.started);
    } else {
      DeletedSays(s, step.id);
    }
  }

  lemma EmptySays(ws: Workflows)
    requires ws == map[]
    ensures RecordsSay(ws)
  {
  }

  /** In every state of every run: jobs are only recorded for workflows whose machine can have them, and
      cancelled workflows are resolved. */
  lemma {:induction false} RunKeepsRecords(run: seq<System>, steps: seq<Step>, k: nat)
    requires IsRun(run, steps) && k < |run|
    ensures Inv(run[k]) && RecordsSay(run[k].workflows)
    decreases k
  {
    hide *;
    RunShape(run, steps);
    RunKeepsInv(run, steps);
    if k == 0 {
      EmptySays(run[0].workflows);
    } else {
      RunKeepsRecords(run, steps, k - 1);
      StepOfRun(run, steps, k - 1);
      NextKeepsRecords(run[k - 1], steps[k - 1]);
    }
  }

  /** A terminal record of a machine without jobs is done, and no summary looks at its execution again. */
  lemma NothingToRevive(s: System, step: Step, id: Id)
    requires RecordsSay(s.workflows) && id in s.workflows && !MakesJobs(s.workflows[id].machine)
    ensures !Revives(s, step, id)
  {
    assert RecordSays(s.workflows[id]);
    hide MakesJobs, Exec;
  }

  // ---------- what a step does to machine and jobs of a record ----------

  /** The jobs of the record come from this answer of SFN. */
  predicate TakesJobs(now: Workflow, history: HistoryOutcome) {
    history.Pages? && now.jobs == history.jobs
  }

  /** Same machine, and the jobs are as before or those of a history that the step asked for. */
  predicate RecordMoves(step: Step, id: Id, was: Workflow, now: Workflow) {
    && now.machine == was.machine
    && (now.jobs == was.jobs
        || ((step.RefreshHistory? || step.Resume?) && step.id == id && TakesJobs(now, step.history)))
  }

  lemma CancelledJobs(s: System, k: Id, reason: string, stopped: bool, id: Id)
    requires id in s.workflows && (k in s.workflows ==> s.workflows[k].id == k)
    ensures var t := Cancelled(s, k, reason, stopped);
            id in t.workflows && t.workflows[id].jobs == s.workflows[id].jobs
            && t.workflows[id].machine == s.workflows[id].machine
    ensures var t := Resolved(s, k);
            id in t.workflows && t.workflows[id].jobs == s.workflows[id].jobs
            && t.workflows[id].machine == s.workflows[id].machine
  {
  }

  lemma RefreshedJobs(s: System, step: Step, id: Id)
    requires step.RefreshSummary? && id in s.workflows
             && (step.id in s.workflows ==> s.workflows[step.id].id == step.id)
    ensures var t := Refreshed(s, step);
            id in t.workflows && t.workflows[id].jobs == s.workflows[id].jobs
            && t.workflows[id].machine == s.workflows[id].machine
  {
    hide WorkflowIsDone;
  }

  lemma HistoryJobs(s: System, k: Id, history: HistoryOutcome, id: Id)
    requires id in s.workflows && (k in s.workflows ==> s.workflows[k].id == k)
    ensures var t := WithHistory(s, k, history);
            && id in t.workflows && t.workflows[id].machine == s.workflows[id].machine
            && (t.workflows[id].jobs == s.workflows[id].jobs || (k == id && TakesJobs(t.workflows[id], history)))
  {
  }

  lemma DeliveredJobs(s: System, d: Delivery, id: Id)
    requires id in s.workflows
    ensures var t := Delivered(s, d);
            id in t.workflows && t.workflows[id].jobs == s.workflows[id].jobs
            && t.workflows[id].machine == s.workflows[id].machine
  {
    DeliveredKeeps(s.workflows, d);
    hide Handled, ExecOf;
  }

  lemma CalmRecordMoves(s: System, step: Step, id: Id)
    requires Inv(s) && Enabled(s, step) && IsCalm(step) && id in s.workflows
    ensures id in Effect(s, step).workflows
    ensures RecordMoves(step, id, s.workflows[id], Effect(s, step).workflows[id])
  {
    hide Inv, Cancelled, Refreshed, WithHistory, Resolved, Delivered, Enabled, TakesJobs;
    forall k | k in s.workflows ensures s.workflows[k].id == k {
      IdsAreKeys(s, k);
    }
    match step
    case Cancel(k, reason, stopped) => CancelledJobs(s, k, reason, stopped, id);
    case RefreshSummary(_, _, _, _, _) => RefreshedJobs(s, step, id);
    case RefreshHistory(k, history) => HistoryJobs(s, k, history, id);
    case Resolve(k) => CancelledJobs(s, k, "", false, id);
    case Deliver(d) => DeliveredJobs(s, d, id);
    case _ =>
  }

  lemma BeforeRetryJobs(s: System, step: Step, id: Id)
    requires Inv(s) && step.Resume? && step.id in s.workflows && id in s.workflows
    ensures id in BeforeRetry(s, step).workflows
    ensures RecordMoves(step, id, s.workflows[id], BeforeRetry(s, step).workflows[id])
  {
    IdsAreKeys(s, step.id);
    hide Inv, WithHistory, NeedsHistory;
    HistoryJobs(s, step.id, step.history, id);
  }

  lemma SameJobsMove(step: Step, id: Id, was: Workflow, now: Workflow, later: Workflow)
    requires RecordMoves(step, id, was, now) && later.machine == now.machine && later.jobs == now.jobs
    ensures RecordMoves(step, id, was, later)
  {
  }

  lemma Unmoved(step: Step, id: Id, was: Workflow, now: Workflow)
    requires now.machine == was.machine && now.jobs == was.jobs
    ensures RecordMoves(step, id, was, now)
  {
  }

  lemma ResumedMoves(s: System, step: Step, id: Id)
    requires Inv(s) && step.Resume? && Fresh(s, step.newId) && id in s.workflows
    ensures id in Resumed(s, step).workflows
    ensures RecordMoves(step, id, s.workflows[id], Resumed(s, step).workflows[id])
  {
    hide *;
    ResumedCases(s, step);
    StartAtIsDefined(s.workflows, step.id, step.startAt);
    if Resumed(s, step) == s {
      Unmoved(step, id, s.workflows[id], s.workflows[id]);
    } else {
      var s1 := BeforeRetry(s, step);
      BeforeRetryJobs(s, step, id);
      BeforeRetryIsCalm(s, step);
      CalmKeepsInv(s, s1);
      if Resumed(s, step) != s1 {
        SameFresh(s, s1, step.newId);
        WithRetryShape(s1, step.id, step.startAt, step.newId, step.started);
        SameJobsMove(step, id, s.workflows[id], s1.workflows[id], Resumed(s, step).workflows[id]);
      }
    }
  }

  lemma CreatedLeaves(s: System, step: Step, id: Id)
    requires step.Create? && id in s.workflows && id != step.id
    ensures var t := WithNew(s, step.id, step.name, step.machine, step.started);
            id in t.workflows && t.workflows[id] == s.workflows[id]
  {
    hide NewWorkflow;
  }

  /** Over any step a record keeps its machine, and its jobs change only by an answer of SFN. */
  lemma NextMovesRecord(s: System, step: Step, id: Id)
    requires Inv(s) && Enabled(s, step) && id in s.workflows && id in Next(s, step).workflows
    ensures RecordMoves(step, id, s.workflows[id], Next(s, step).workflows[id])
  {
    hide *;
    NextIsTicked(s, step);
    TickedRecords(Effect(s, step));
    EnabledMoves(s, step);
    StepKinds(step);
    if IsCalm(step) {
      CalmRecordMoves(s, step, id);
    } else if step.Resume? {
      ResumedMoves(s, step, id);
    } else if step.Create? {
      FreshIsNotStored(s, step.id);
      CreatedLeaves(s, step, id);
      Unmoved(step, id, s.workflows[id], Next(s, step).workflows[id]);
    } else {
      DeletedKeepsRecord(s, step.id, id);
      Unmoved(step, id, s.workflows[id], Next(s, step).workflows[id]);
    }
  }
}
