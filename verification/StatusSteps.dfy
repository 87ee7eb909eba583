/** What single steps do to the status and the execution of a workflow. */
module StatusSteps {
  import opened Wrappers
  import opened Replay
  import opened StateMachines
  import opened PruningMeaning
  import opened WorkflowStore
  import opened EventConsumer
  import opened Lifecycle
  import opened LifecycleRuns

  predicate IsTerminal(ws: Workflows, id: Id) {
    id in ws && TerminalState(ws[id].status)
  }

  lemma TerminalIsStored(ws: Workflows, id: Id)
    requires IsTerminal(ws, id)
    ensures id in ws
  {
  }

  // ---------- steps on existing records ----------

  /** Records that become terminal have no running execution. */
  ghost predicate SettlesStopped(s: System, t: System) {
    forall id :: id in s.workflows && IsTerminal(t.workflows, id) && !IsTerminal(s.workflows, id)
      ==> Exec(t, id) != ExecRunning
  }

  lemma CancelledStops(s: System, id: Id, reason: string, stopped: bool)
    requires id in s.workflows ==> s.workflows[id].id == id
    ensures SettlesStopped(s, Cancelled(s, id, reason, stopped))
  {
  }

  lemma RefreshedStops(s: System, step: Step)
    requires step.RefreshSummary? && (step.id in s.workflows ==> s.workflows[step.id].id == step.id)
    ensures SettlesStopped(s, Refreshed(s, step))
  {
    hide WorkflowIsDone;
  }

  lemma WithHistoryStops(s: System, id: Id, history: HistoryOutcome)
    requires id in s.workflows ==> s.workflows[id].id == id
    ensures SettlesStopped(s, WithHistory(s, id, history))
  {
  }

  lemma ResolvedStops(s: System, id: Id)
    requires id in s.workflows ==> s.workflows[id].id == id
    ensures SettlesStopped(s, Resolved(s, id))
  {
  }

  lemma DeliverEnabled(s: System, d: Delivery)
    requires Enabled(s, Deliver(d))
    ensures IsTerminalEvent(d.evt.typ) ==> Exec(s, ExecOf(d.evt)) != ExecRunning
  {
    hide ExecOf, Fresh, Plausible, Accepted;
  }

  lemma DeliveredStops(s: System, d: Delivery)
    requires Enabled(s, Deliver(d))
    ensures SettlesStopped(s, Delivered(s, d))
  {
    hide ExecOf, Handled, Enabled, IsTerminalEvent;
    DeliverEnabled(s, d);
    DeliveredStatus(s.workflows, d);
    var t := Delivered(s, d);
    assert forall k :: Exec(t, k) == Exec(s, k);
    hide Exec;
  }

  /** What a delivery can do to the status of its workflow. */
  lemma DeliveredStatus(ws: Workflows, d: Delivery)
    ensures var after := Handled(ws, d).0;
            && after.Keys == ws.Keys
            && (forall id :: id in ws && id != ExecOf(d.evt) ==> after[id] == ws[id])
            && (ExecOf(d.evt) in ws ==>
                  var was, now := ws[ExecOf(d.evt)].status, after[ExecOf(d.evt)].status;
                  now == was || (if IsTerminalEvent(d.evt.typ) then now == StatusOf(d.evt.typ)
                                 else !TerminalState(was) && now == WorkflowRunning))
  {
    hide ExecOf;
  }

  lemma CalmStepStops(s: System, step: Step)
    requires Inv(s) && Enabled(s, step) && IsCalm(step)
    ensures SettlesStopped(s, Effect(s, step))
  {
    hide Inv, Cancelled, Refreshed, WithHistory, Resolved, Delivered, Enabled;
    forall id | id in s.workflows ensures s.workflows[id].id == id {
      IdsAreKeys(s, id);
    }
    match step
    case Cancel(id, reason, stopped) => CancelledStops(s, id, reason, stopped);
    case RefreshSummary(_, _, _, _, _) => RefreshedStops(s, step);
    case RefreshHistory(id, history) => WithHistoryStops(s, id, history);
    case Resolve(id) => ResolvedStops(s, id);
    case Deliver(d) => DeliveredStops(s, d);
    case _ =>
  }

  // ---------- adding and removing records ----------

  /** `t` is `s` with one more, active and not yet retried, workflow; at most the retry list of `parent`
      has changed, by the new workflow at its end. */
  ghost predicate Grown(s: System, t: System, newId: Id, parent: Id) {
    && newId !in s.workflows && t.workflows.Keys == s.workflows.Keys + {newId}
    && !TerminalState(t.workflows[newId].status) && t.workflows[newId].retries == []
    && (forall k :: k in s.workflows ==> t.workflows[k].status == s.workflows[k].status && Exec(t, k) == Exec(s, k))
    && (forall k :: k in s.workflows && k != parent ==> t.workflows[k].retries == s.workflows[k].retries)
    && (parent in s.workflows ==> t.workflows[parent].retries == s.workflows[parent].retries + [newId])
  }

  lemma FreshIsNotStored(s: System, id: Id)
    requires Inv(s)
    ensures Fresh(s, id) ==> id !in s.workflows
    ensures "" !in s.workflows
  {
    if id in s.workflows {
      IdsAreKeys(s, id);
    }
    if "" in s.workflows {
      IdsAreKeys(s, "");
    }
  }

  lemma NewShape(s: System, id: Id, name: string, machine: Machine, started: bool)
    ensures var t := WithNew(s, id, name, machine, started);
            && t.workflows.Keys == s.workflows.Keys + {id}
            && t.workflows[id].status == WorkflowQueued && t.workflows[id].retries == []
            && (forall k :: k in s.workflows && k != id ==> t.workflows[k] == s.workflows[k])
            && forall k :: k != id ==> Exec(t, k) == Exec(s, k)
  {
  }

  lemma NewIsGrown(s: System, id: Id, name: string, machine: Machine, started: bool)
    requires Inv(s) && Fresh(s, id)
    ensures Grown(s, WithNew(s, id, name, machine, started), id, "")
  {
    hide Inv, Fresh, WithNew, Exec;
    FreshIsNotStored(s, id);
    NewShape(s, id, name, machine, started);
  }

  lemma RetryIsGrown(s: System, id: Id, startAt: string, newId: Id, started: bool)
    requires Inv(s) && id in s.workflows && Fresh(s, newId)
    ensures Grown(s, WithRetry(s, id, startAt, newId, started), newId, id)
  {
    hide Inv, Fresh, WithRetry, Exec;
    WithRetryShape(s, id, startAt, newId, started);
    var t := WithRetry(s, id, startAt, newId, started);
    forall k | k in s.workflows ensures Exec(t, k) == Exec(s, k) && t.workflows[k].status == s.workflows[k].status {
      ExecKept(s, id, startAt, newId, started, k);
      assert k != id ==> t.workflows[k] == s.workflows[k];
    }
    forall k | k in s.workflows && k != id ensures t.workflows[k].retries == s.workflows[k].retries {
      assert t.workflows[k] == s.workflows[k];
    }
    assert t.workflows[id].retries == s.workflows[id].retries + [newId];
    assert !TerminalState(t.workflows[newId].status);
  }

  lemma ExecKept(s: System, id: Id, startAt: string, newId: Id, started: bool, k: Id)
    requires id in s.workflows && k in s.workflows && Fresh(s, newId) && Inv(s)
    ensures Exec(WithRetry(s, id, startAt, newId, started), k) == Exec(s, k)
  {
    IdsAreKeys(s, k);
    hide Inv, Pruned;
  }

  /** A resume adds at most one workflow, the new one, and leaves statuses and executions as they were. */
  lemma ResumedKeepsRecord(s: System, step: Step, id: Id)
    requires Inv(s) && step.Resume? && Fresh(s, step.newId) && id in s.workflows
    ensures var t := Resumed(s, step);
            && id in t.workflows && t.workflows[id].status == s.workflows[id].status && Exec(t, id) == Exec(s, id)
  {
    hide *;
    ResumedCases(s, step);
    StartAtIsDefined(s.workflows, step.id, step.startAt);
    if Resumed(s, step) != s {
      var s1 := BeforeRetry(s, step);
      BeforeRetryIsCalm(s, step);
      CalmKeepsInv(s, s1);
      SameKeys(s, s1);
      BeforeRetryKeepsRecord(s, step, id);
      if Resumed(s, step) != s1 {
        SameFresh(s, s1, step.newId);
        RetryIsGrown(s1, step.id, step.startAt, step.newId, step.started);
        GrownKeepsRecord(s1, Resumed(s, step), step.newId, step.id, id);
      }
    }
  }

  lemma BeforeRetryKeepsRecord(s: System, step: Step, id: Id)
    requires Inv(s) && step.Resume? && step.id in s.workflows && id in s.workflows
    ensures var t := BeforeRetry(s, step);
            && id in t.workflows && t.workflows[id].status == s.workflows[id].status && Exec(t, id) == Exec(s, id)
  {
    IdsAreKeys(s, step.id);
    hide Inv, NeedsHistory;
  }

  lemma GrownKeepsRecord(s: System, t: System, newId: Id, parent: Id, id: Id)
    requires Grown(s, t, newId, parent) && id in s.workflows
    ensures id in t.workflows && t.workflows[id].status == s.workflows[id].status && Exec(t, id) == Exec(s, id)
  {
    hide Exec;
  }

  /** A used id never comes back to the store once its workflow is gone. */
  lemma NoReturn(s: System, step: Step, id: Id)
    requires Inv(s) && Enabled(s, step) && id in s.executions
    ensures id in Next(s, step).workflows ==> id in s.workflows
    ensures id in Next(s, step).executions
  {
    if IsCalm(step) {
      hide Inv, Enabled, Effect;
      CalmSteps(s, step);
    } else if step.Resume? {
      hide Inv, WithHistory, NeedsHistory;
      ResumedIds(s, step);
    }
  }

  lemma ResumedIds(s: System, step: Step)
    requires Inv(s) && step.Resume? && Fresh(s, step.newId)
    ensures Resumed(s, step).workflows.Keys <= s.workflows.Keys + {step.newId}
    ensures s.executions.Keys <= Resumed(s, step).executions.Keys
  {
    hide *;
    ResumedCases(s, step);
    StartAtIsDefined(s.workflows, step.id, step.startAt);
    if Resumed(s, step) != s {
      var s1 := BeforeRetry(s, step);
      BeforeRetryIsCalm(s, step);
      CalmKeepsInv(s, s1);
      SameKeys(s, s1);
      if Resumed(s, step) != s1 {
        SameFresh(s, s1, step.newId);
        WithRetryShape(s1, step.id, step.startAt, step.newId, step.started);
      }
    }
  }

  lemma SameKeys(s: System, t: System)
    requires Calm(s, t)
    ensures s.workflows.Keys == t.workflows.Keys
  {
  }

  // ---------- what takes a record back ----------

  lemma QuietSteps(s: System, k: Id, id: Id, reason: string, stopped: bool, history: HistoryOutcome)
    requires id in s.workflows && (k in s.workflows ==> s.workflows[k].id == k)
    ensures IsTerminal(Cancelled(s, k, reason, stopped).workflows, id) <==> IsTerminal(s.workflows, id)
    ensures IsTerminal(Resolved(s, k).workflows, id) <==> IsTerminal(s.workflows, id)
    ensures IsTerminal(WithHistory(s, k, history).workflows, id) <==> IsTerminal(s.workflows, id)
  {
  }

  lemma RefreshedBack(s: System, step: Step, id: Id)
    requires step.RefreshSummary? && IsTerminal(s.workflows, id)
    requires step.id in s.workflows ==> s.workflows[step.id].id == step.id
    ensures !IsTerminal(Refreshed(s, step).workflows, id)
        <==> step.id == id && step.described && Exec(s, id) == ExecRunning && !WorkflowIsDone(s.workflows[id])
  {
    hide WorkflowIsDone;
  }

  /** The step is a summary that finds the execution of a terminal, unfinished record running. */
  predicate Revives(s: System, step: Step, id: Id) {
    && step.RefreshSummary? && step.id == id && step.described
    && IsTerminal(s.workflows, id) && Exec(s, id) == ExecRunning && !WorkflowIsDone(s.workflows[id])
  }

  /** Exactly one kind of step takes a terminal record back: a summary that finds the execution running
      although the record is terminal and has unfinished jobs or an unresolved cancellation. */
  lemma WhatTakesATerminalRecordBack(s: System, step: Step, id: Id)
    requires Inv(s) && Enabled(s, step) && IsTerminal(s.workflows, id) && id in Next(s, step).workflows
    ensures !IsTerminal(Next(s, step).workflows, id) <==> Revives(s, step, id)
  {
    hide Inv, Cancelled, Resolved, WithHistory, Refreshed, Delivered, Resumed, WithNew, WorkflowIsDone, Exec;
    TerminalIsStored(s.workflows, id);
    assert forall k :: k in s.workflows ==> s.workflows[k].id == k by {
      forall k | k in s.workflows ensures s.workflows[k].id == k {
        IdsAreKeys(s, k);
      }
    }
    match step
    case Create(newId, name, machine, started) => NewIsGrown(s, newId, name, machine, started);
    case Resume(_, _, _, _, _, _) => ResumedKeepsRecord(s, step, id);
    case Cancel(k, reason, stopped) => QuietSteps(s, k, id, reason, stopped, NoExecution);
    case RefreshSummary(_, _, _, _, _) => RefreshedBack(s, step, id);
    case RefreshHistory(k, history) => QuietSteps(s, k, id, "", false, history);
    case Resolve(k) => QuietSteps(s, k, id, "", false, NoExecution);
    case Deliver(d) => DeliveredKeepsTerminal(s, d, id);
    case _ =>
  }

  lemma DeliveredKeepsTerminal(s: System, d: Delivery, id: Id)
    requires IsTerminal(s.workflows, id)
    ensures IsTerminal(Delivered(s, d).workflows, id)
  {
    hide ExecOf, Handled;
    DeliveredStatus(s.workflows, d);
  }

  // ---------- what a step does to an execution ----------

  predicate HasEnded(e: Execution) {
    !e.Absent? && !e.ExecRunning?
  }

  lemma QuietExecutions(s: System, step: Step, id: Id)
    ensures step.RefreshSummary? ==> Exec(Refreshed(s, step), id) == Exec(s, id)
    ensures step.RefreshHistory? ==> Exec(WithHistory(s, step.id, step.history), id) == Exec(s, id)
    ensures step.Resolve? ==> Exec(Resolved(s, step.id), id) == Exec(s, id)
    ensures step.Deliver? ==> Exec(Delivered(s, step.d), id) == Exec(s, id)
    ensures step.DeleteDoomed? ==> Exec(Deleted(s, step.id), id) == Exec(s, id)
  {
    hide WorkflowIsDone, Handled;
  }

  lemma CancelledExecution(s: System, k: Id, reason: string, stopped: bool, id: Id)
    requires id in s.executions
    ensures var e, now := Exec(s, id), Exec(Cancelled(s, k, reason, stopped), id);
            now == e || (e.ExecRunning? && HasEnded(now))
  {
  }

  lemma EnabledMoves(s: System, step: Step)
    requires Enabled(s, step)
    ensures step.Finish? ==> Exec(s, step.id) == ExecRunning && HasEnded(step.to)
    ensures step.LateStart? ==> Exec(s, step.id) == Absent
    ensures step.Create? ==> Fresh(s, step.id)
    ensures step.Resume? ==> Fresh(s, step.newId)
  {
    hide Accepted, Plausible, Exec;
  }

  /** How one execution can change in a step: a late start begins it, and it ends once. */
  predicate Moves(e: Execution, now: Execution, late: bool) {
    if late then e.Absent? && now.ExecRunning? else now == e || (e.ExecRunning? && HasEnded(now))
  }

  lemma CalmExecMoves(s: System, step: Step, id: Id)
    requires Enabled(s, step) && IsCalm(step) && id in s.executions
    ensures Moves(Exec(s, id), Exec(Effect(s, step), id), step == LateStart(id))
  {
    EnabledMoves(s, step);
    QuietExecutions(s, step, id);
    hide Enabled, Cancelled, WithHistory, Refreshed, Resolved, Delivered, HasEnded;
    match step
    case Cancel(k, reason, stopped) => CancelledExecution(s, k, reason, stopped, id);
    case _ =>
  }

  lemma TickedExec(s: System, id: Id)
    ensures Exec(Ticked(s), id) == Exec(s, id)
  {
  }

  lemma NextIsTicked(s: System, step: Step)
    requires Enabled(s, step)
    ensures Next(s, step) == Ticked(Effect(s, step))
    ensures step.Create? ==> Effect(s, step) == WithNew(s, step.id, step.name, step.machine, step.started)
    ensures step.DeleteDoomed? ==> Effect(s, step) == Deleted(s, step.id)
    ensures step.Resume? ==> Effect(s, step) == Resumed(s, step)
  {
    hide WithNew, Deleted, Resumed, Cancelled, WithHistory, Refreshed, Resolved, Delivered, Enabled;
  }

  lemma StepKinds(step: Step)
    ensures IsCalm(step) ==> !step.Create? && !step.DeleteDoomed? && !step.Resume?
    ensures !IsCalm(step) ==> step.Create? || step.DeleteDoomed? || step.Resume?
  {
  }

  lemma StaysPut(e: Execution)
    ensures Moves(e, e, false)
  {
  }

  lemma NewExec(s: System, t: System, newId: Id, id: Id)
    requires Grown(s, t, newId, "") && id in s.workflows
    ensures Exec(t, id) == Exec(s, id)
  {
    hide Exec;
  }

  /** The execution of a stored workflow starts by a late start only, and ends once. */
  lemma ExecMoves(s: System, step: Step, id: Id)
    requires Inv(s) && Enabled(s, step) && id in s.workflows
    ensures Moves(Exec(s, id), Exec(Next(s, step), id), step == LateStart(id))
  {
    hide *;
    IdsAreKeys(s, id);
    NextIsTicked(s, step);
    TickedExec(Effect(s, step), id);
    EnabledMoves(s, step);
    StepKinds(step);
    StaysPut(Exec(s, id));
    if IsCalm(step) {
      CalmExecMoves(s, step, id);
    } else if step.Resume? {
      ResumedKeepsRecord(s, step, id);
    } else if step.Create? {
      NewIsGrown(s, step.id, step.name, step.machine, step.started);
      NewExec(s, Effect(s, step), step.id, id);
    } else {
      QuietExecutions(s, step, id);
    }
  }

  lemma TickedRecords(s: System)
    ensures Ticked(s).workflows == s.workflows
  {
  }

  lemma StoppedRecord(s: System, t: System, id: Id)
    requires SettlesStopped(s, t) && id in s.workflows && !IsTerminal(s.workflows, id) && IsTerminal(t.workflows, id)
    ensures Exec(t, id) != ExecRunning
  {
    hide Exec, IsTerminal;
  }

  lemma SameStatus(ws: Workflows, ws': Workflows, id: Id)
    requires id in ws && id in ws' && ws[id].status == ws'[id].status
    ensures IsTerminal(ws', id) <==> IsTerminal(ws, id)
  {
  }

  /** A stored workflow that becomes terminal in a step has no running execution after it. */
  lemma BecomesTerminalStopped(s: System, step: Step, id: Id)
    requires Inv(s) && Enabled(s, step) && id in s.workflows && !IsTerminal(s.workflows, id)
    requires IsTerminal(Next(s, step).workflows, id)
    ensures Exec(Next(s, step), id) != ExecRunning
  {
    hide *;
    NextIsTicked(s, step);
    TickedExec(Effect(s, step), id);
    TickedRecords(Effect(s, step));
    TerminalIsStored(Effect(s, step).workflows, id);
    EnabledMoves(s, step);
    StepKinds(step);
    if IsCalm(step) {
      CalmStepStops(s, step);
      StoppedRecord(s, Effect(s, step), id);
    } else {
      if step.Resume? {
        ResumedKeepsRecord(s, step, id);
      } else if step.Create? {
        NewIsGrown(s, step.id, step.name, step.machine, step.started);
        GrownKeepsRecord(s, Effect(s, step), step.id, "", id);
      } else {
        DeletedKeepsRecord(s, step.id, id);
      }
      SameStatus(s.workflows, Effect(s, step).workflows, id);
    }
  }

  lemma DeletedKeepsRecord(s: System, k: Id, id: Id)
    ensures id in Deleted(s, k).workflows ==> id in s.workflows && Deleted(s, k).workflows[id] == s.workflows[id]
  {
  }

  /** A record that a step adds is not terminal. */
  lemma NewRecordsAreActive(s: System, step: Step, id: Id)
    requires Inv(s) && Enabled(s, step) && id !in s.workflows && id in Next(s, step).workflows
    ensures !IsTerminal(Next(s, step).workflows, id)
  {
    hide *;
    NextIsTicked(s, step);
    TickedRecords(Effect(s, step));
    EnabledMoves(s, step);
    StepKinds(step);
    if IsCalm(step) {
      CalmSteps(s, step);
      SameKeys(s, Effect(s, step));
    } else if step.Resume? {
      ResumedAddsActive(s, step, id);
    } else if step.Create? {
      NewIsGrown(s, step.id, step.name, step.machine, step.started);
      GrownNew(s, Effect(s, step), step.id, "");
    } else {
      DeletedKeepsRecord(s, step.id, id);
    }
  }

  lemma ResumedAddsActive(s: System, step: Step, id: Id)
    requires Inv(s) && step.Resume? && Fresh(s, step.newId) && id !in s.workflows && id in Resumed(s, step).workflows
    ensures !IsTerminal(Resumed(s, step).workflows, id)
  {
    hide *;
    ResumedCases(s, step);
    StartAtIsDefined(s.workflows, step.id, step.startAt);
    if Resumed(s, step) != s {
      var s1 := BeforeRetry(s, step);
      BeforeRetryIsCalm(s, step);
      CalmKeepsInv(s, s1);
      SameKeys(s, s1);
      if Resumed(s, step) != s1 {
        SameFresh(s, s1, step.newId);
        RetryIsGrown(s1, step.id, step.startAt, step.newId, step.started);
        GrownNew(s1, Resumed(s, step), step.newId, step.id);
      }
    }
  }

  lemma GrownNew(s: System, t: System, newId: Id, parent: Id)
    requires Grown(s, t, newId, parent)
    ensures t.workflows.Keys == s.workflows.Keys + {newId} && !IsTerminal(t.workflows, newId)
  {
    hide Exec;
  }
}
