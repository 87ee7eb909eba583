/** How many retries of a workflow can be active: exactly which steps, and which runs, go beyond one. */
module RetryBound {
  import opened Wrappers
  import opened Replay
  import opened StateMachines
  import opened PruningMeaning
  import opened WorkflowStore
  import opened EventConsumer
  import opened Lifecycle
  import opened LifecycleRuns
  import opened StatusSteps
  import opened SampleHistories
  import opened Finality

  /** A workflow that has not finished has no retries, and of the retries of a workflow at most one has not. */
  ghost predicate AtMostOneAt(ws: Workflows, id: Id)
    requires id in ws
  {
    && (!TerminalState(ws[id].status) ==> ws[id].retries == [])
    && forall i, j :: 0 <= i < j < |ws[id].retries| ==>
         IsTerminal(ws, ws[id].retries[i]) || IsTerminal(ws, ws[id].retries[j])
  }

  /** At most one retry of each workflow is active. */
  ghost predicate AtMostOne(ws: Workflows) {
    forall id :: id in ws ==> AtMostOneAt(ws, id)
  }

  /** Another retry of the same workflow is active. */
  ghost predicate HasActiveSibling(ws: Workflows, id: Id) {
    exists k, i, j :: k in ws && 0 <= i < |ws[k].retries| && 0 <= j < |ws[k].retries| && i != j
      && ws[k].retries[i] == id && !IsTerminal(ws, ws[k].retries[j])
  }

  /** A summary that takes back a record which has been retried, or which has an active sibling. */
  ghost predicate BreaksBound(s: System, step: Lifecycle.Step) {
    && step.RefreshSummary? && Revives(s, step, step.id)
    && (s.workflows[step.id].retries != [] || HasActiveSibling(s.workflows, step.id))
  }

  // ---------- steps on existing records ----------

  ghost predicate SameLists(ws: Workflows, ws': Workflows) {
    ws.Keys == ws'.Keys && forall k :: k in ws ==> ws'[k].retries == ws[k].retries
  }

  lemma CalmKeepsLists(s: System, t: System)
    requires Calm(s, t)
    ensures SameLists(s.workflows, t.workflows)
  {
  }

  lemma SettledKeepsBound(ws: Workflows, ws': Workflows)
    requires AtMostOne(ws) && SameLists(ws, ws') && forall k :: IsTerminal(ws, k) ==> IsTerminal(ws', k)
    ensures AtMostOne(ws')
  {
    forall k | k in ws' ensures AtMostOneAt(ws', k) {
      assert AtMostOneAt(ws, k) && (IsTerminal(ws, k) ==> IsTerminal(ws', k));
    }
  }

  ghost predicate ListedOnce(ws: Workflows) {
    forall k, i, j :: k in ws && 0 <= i < j < |ws[k].retries| ==> ws[k].retries[i] != ws[k].retries[j]
  }

  lemma InvListsOnce(s: System)
    requires Inv(s)
    ensures ListedOnce(s.workflows)
  {
    forall k, i, j | k in s.workflows && 0 <= i < j < |s.workflows[k].retries|
      ensures s.workflows[k].retries[i] != s.workflows[k].retries[j]
    {
      assert RetryInv(s.workflows, k, i);
    }
  }

  /** When exactly one record becomes active again, at most one retry of each workflow stays active exactly if
      that record has no retries and no active sibling. */
  lemma RevivalAndBound(ws: Workflows, ws': Workflows, id: Id)
    requires AtMostOne(ws) && ListedOnce(ws) && SameLists(ws, ws')
    requires id in ws && IsTerminal(ws, id) && !IsTerminal(ws', id)
    requires forall k :: k != id ==> (IsTerminal(ws', k) <==> IsTerminal(ws, k))
    ensures AtMostOne(ws') <==> ws[id].retries == [] && !HasActiveSibling(ws, id)
  {
    if ws[id].retries == [] && !HasActiveSibling(ws, id) {
      forall k | k in ws' ensures AtMostOneAt(ws', k) {
        RevivalKeeps(ws, ws', id, k);
      }
    }
    if AtMostOne(ws') {
      assert AtMostOneAt(ws', id);
      forall k, i, j | k in ws && 0 <= i < |ws[k].retries| && 0 <= j < |ws[k].retries| && i != j
        && ws[k].retries[i] == id
        ensures IsTerminal(ws, ws[k].retries[j])
      {
        RevivalShows(ws, ws', id, k, i, j);
      }
    }
  }

  lemma RevivalShows(ws: Workflows, ws': Workflows, id: Id, k: Id, i: nat, j: nat)
    requires AtMostOne(ws') && SameLists(ws, ws') && IsTerminal(ws, id) && !IsTerminal(ws', id)
    requires forall x :: x != id ==> (IsTerminal(ws', x) <==> IsTerminal(ws, x))
    requires k in ws && i < |ws[k].retries| && j < |ws[k].retries| && i != j && ws[k].retries[i] == id
    ensures IsTerminal(ws, ws[k].retries[j])
  {
    assert AtMostOneAt(ws', k);
    hide IsTerminal, AtMostOne;
    var a, b := if i < j then i else j, if i < j then j else i;
    assert IsTerminal(ws', ws'[k].retries[a]) || IsTerminal(ws', ws'[k].retries[b]);
  }

  lemma RevivalKeeps(ws: Workflows, ws': Workflows, id: Id, k: Id)
    requires AtMostOne(ws) && ListedOnce(ws) && SameLists(ws, ws') && id in ws && k in ws
    requires forall x :: x != id ==> (IsTerminal(ws', x) <==> IsTerminal(ws, x))
    requires ws[id].retries == [] && !HasActiveSibling(ws, id)
    ensures AtMostOneAt(ws', k)
  {
    assert AtMostOneAt(ws, k) && (k != id ==> (IsTerminal(ws', k) <==> IsTerminal(ws, k)));
    forall i, j | 0 <= i < j < |ws[k].retries|
      ensures IsTerminal(ws', ws[k].retries[i]) || IsTerminal(ws', ws[k].retries[j])
    {
      var a, b := ws[k].retries[i], ws[k].retries[j];
      assert IsTerminal(ws, a) || IsTerminal(ws, b);
      assert a == id ==> IsTerminal(ws, b);
      assert b == id ==> IsTerminal(ws, a);
    }
  }

  lemma RevivesIts(s: System, step: Lifecycle.Step, id: Id)
    ensures Revives(s, step, id) ==>
              step.RefreshSummary? && id == step.id && Revives(s, step, step.id) && id in s.workflows
  {
    hide WorkflowIsDone, Exec;
  }

  lemma BreaksMeans(s: System, step: Lifecycle.Step)
    ensures BreaksBound(s, step)
       <==> step.RefreshSummary? && Revives(s, step, step.id) && step.id in s.workflows
            && !(s.workflows[step.id].retries == [] && !HasActiveSibling(s.workflows, step.id))
  {
    hide WorkflowIsDone, Exec, HasActiveSibling;
  }

  lemma UpToDateKeepsId(wf: Workflow, e: Execution, stopDate: Option<Time>, sfnOutput: string,
                        found: Result<Option<JobData>, ()>)
    requires SFNStatusToWorkflowStatus(e).WorkflowFailed? ==> found.Success?
    ensures UpToDate(wf, e, stopDate, sfnOutput, found).id == wf.id
  {
  }

  lemma PutLeavesOthers(s: System, wf: Workflow, k: Id)
    requires k != wf.id
    ensures IsTerminal(Put(s, wf).workflows, k) <==> IsTerminal(s.workflows, k)
  {
  }

  lemma RefreshLeavesOthers(s: System, step: Lifecycle.Step, k: Id)
    requires Inv(s) && step.RefreshSummary? && k != step.id
    ensures IsTerminal(Refreshed(s, step).workflows, k) <==> IsTerminal(s.workflows, k)
  {
    if step.id in s.workflows {
      IdsAreKeys(s, step.id);
      var wf, e := s.workflows[step.id], Exec(s, step.id);
      hide Inv, WorkflowIsDone, UpToDate, Put, IsTerminal, Exec;
      PutLeavesOthers(s, wf.(status := WorkflowFailed), k);
      if SFNStatusToWorkflowStatus(e).WorkflowFailed? ==> step.found.Success? {
        UpToDateKeepsId(wf, e, step.stopDate, step.sfnOutput, step.found);
        PutLeavesOthers(s, UpToDate(wf, e, step.stopDate, step.sfnOutput, step.found), k);
      }
    }
  }

  lemma SummaryEffect(s: System, step: Lifecycle.Step)
    requires Enabled(s, step) && step.RefreshSummary?
    ensures Effect(s, step) == Refreshed(s, step)
  {
    hide Refreshed;
  }

  lemma TickedLists(s: System)
    ensures Ticked(s).workflows == s.workflows
  {
  }

  lemma SameKeysAs(ws: Workflows, ws': Workflows)
    requires SameLists(ws, ws')
    ensures ws.Keys == ws'.Keys
  {
  }

  lemma CalmStepAndBound(s: System, step: Lifecycle.Step)
    requires Inv(s) && Enabled(s, step) && IsCalm(step) && AtMostOne(s.workflows)
    ensures AtMostOne(Next(s, step).workflows) <==> !BreaksBound(s, step)
  {
    hide *;
    var t := Next(s, step);
    NextIsTicked(s, step);
    TickedLists(Effect(s, step));
    CalmSteps(s, step);
    CalmKeepsLists(s, Effect(s, step));
    SameKeysAs(s.workflows, t.workflows);
    BreaksMeans(s, step);
    forall k | IsTerminal(s.workflows, k)
      ensures !IsTerminal(t.workflows, k) <==> Revives(s, step, k)
      ensures Revives(s, step, k) ==> step.RefreshSummary? && k == step.id && k in s.workflows
    {
      TerminalIsStored(s.workflows, k);
      WhatTakesATerminalRecordBack(s, step, k);
      RevivesIts(s, step, k);
    }
    if step.RefreshSummary? && Revives(s, step, step.id) {
      RevivedWasTerminal(s, step, step.id);
      SummaryEffect(s, step);
      forall k | k != step.id ensures IsTerminal(t.workflows, k) <==> IsTerminal(s.workflows, k) {
        RefreshLeavesOthers(s, step, k);
      }
      InvListsOnce(s);
      RevivalAndBound(s.workflows, t.workflows, step.id);
    } else {
      SettledKeepsBound(s.workflows, t.workflows);
    }
  }

  lemma RevivedWasTerminal(s: System, step: Lifecycle.Step, id: Id)
    requires Revives(s, step, id)
    ensures IsTerminal(s.workflows, id) && id in s.workflows
  {
    hide WorkflowIsDone, Exec;
  }

  // ---------- adding and removing records ----------

  /** The workflow and all of its retries have terminal statuses. */
  ghost predicate AllTerminal(ws: Workflows, id: Id) {
    IsTerminal(ws, id) && forall i :: 0 <= i < |ws[id].retries| ==> IsTerminal(ws, ws[id].retries[i])
  }

  lemma GrownBound(s: System, t: System, newId: Id, parent: Id, k: Id)
    requires Grown(s, t, newId, parent) && k in s.workflows && AtMostOneAt(s.workflows, k)
    requires parent in s.workflows ==> AllTerminal(s.workflows, parent)
    ensures AtMostOneAt(t.workflows, k)
  {
    hide Exec, TerminalState;
    var before, after := s.workflows[k].retries, t.workflows[k].retries;
    forall i, j | 0 <= i < j < |after| ensures IsTerminal(t.workflows, after[i]) || IsTerminal(t.workflows, after[j]) {
      assert after[i] == before[i];
      if j < |before| {
        assert after[j] == before[j];
        GrownTerminals(s, t, newId, parent, before[j]);
      }
      GrownTerminals(s, t, newId, parent, before[i]);
    }
  }

  lemma GrownTerminals(s: System, t: System, newId: Id, parent: Id, k: Id)
    requires Grown(s, t, newId, parent)
    ensures IsTerminal(s.workflows, k) ==> IsTerminal(t.workflows, k)
  {
    hide Exec, TerminalState;
  }

  lemma GrownKeepsBound(s: System, t: System, newId: Id, parent: Id)
    requires AtMostOne(s.workflows) && Grown(s, t, newId, parent)
    requires parent in s.workflows ==> AllTerminal(s.workflows, parent)
    ensures AtMostOne(t.workflows)
  {
    hide Exec, TerminalState, AllTerminal;
    forall k | k in t.workflows ensures AtMostOneAt(t.workflows, k) {
      if k != newId {
        assert AtMostOneAt(s.workflows, k);
        hide AtMostOneAt;
        GrownBound(s, t, newId, parent, k);
      }
    }
    hide AtMostOneAt;
  }

  lemma DoomedIsNoRetry(s: System, k: Id, child: Id, id: Id)
    requires Inv(s) && id in s.doomed && k in s.workflows && child in s.workflows && s.workflows[child].retryFor == k
    ensures child != id
  {
    assert RecordInv(s, child) && RecordInv(s, k);
  }

  lemma DeletedKeepsBound(s: System, id: Id)
    requires Inv(s) && AtMostOne(s.workflows) && id in s.doomed
    ensures AtMostOne(Deleted(s, id).workflows)
  {
    var t := Deleted(s, id);
    hide Inv, RetryInv;
    forall k | k in t.workflows ensures AtMostOneAt(t.workflows, k) {
      assert AtMostOneAt(s.workflows, k);
      forall i | 0 <= i < |s.workflows[k].retries|
        ensures IsTerminal(s.workflows, s.workflows[k].retries[i])
          ==> IsTerminal(t.workflows, s.workflows[k].retries[i])
      {
        var child := ChildOf(s, k, i);
        DoomedIsNoRetry(s, k, child, id);
      }
    }
  }

  /** Before a retry the original and all of its retries are done. */
  lemma ResumableIsTerminal(ws: Workflows, id: Id, startAt: string)
    requires MayResume(ws, id, startAt)
    ensures AllTerminal(ws, id)
  {
    hide IsLineage;
    forall i | 0 <= i < |ws[id].retries| ensures IsTerminal(ws, ws[id].retries[i]) {
      ChildIsDescendant(ws, id, ws[id].retries[i]);
    }
  }

  lemma ChildIsDescendant(ws: Workflows, id: Id, child: Id)
    requires IsRetryOf(ws, id, child)
    ensures IsDescendant(ws, id, child)
  {
    var p := [id, child];
    assert IsLineage(ws, p) && p[|p| - 1] == child;
  }

  lemma SameAllTerminal(ws: Workflows, ws': Workflows, id: Id)
    requires SameLists(ws, ws') && AllTerminal(ws, id) && forall k :: IsTerminal(ws, k) ==> IsTerminal(ws', k)
    ensures AllTerminal(ws', id)
  {
    hide IsTerminal;
    TerminalIsStored(ws, id);
  }

  lemma BeforeRetryKeepsTerminals(s: System, step: Lifecycle.Step)
    requires Inv(s) && step.Resume? && step.id in s.workflows
    ensures forall k :: IsTerminal(s.workflows, k) ==> IsTerminal(BeforeRetry(s, step).workflows, k)
  {
    hide *;
    forall k | IsTerminal(s.workflows, k) ensures IsTerminal(BeforeRetry(s, step).workflows, k) {
      TerminalIsStored(s.workflows, k);
      BeforeRetryKeepsRecord(s, step, k);
      SameStatus(s.workflows, BeforeRetry(s, step).workflows, k);
    }
  }

  lemma ResumeKeepsBound(s: System, step: Lifecycle.Step)
    requires Inv(s) && AtMostOne(s.workflows) && step.Resume? && Fresh(s, step.newId)
    ensures AtMostOne(Resumed(s, step).workflows)
  {
    hide *;
    ResumedCases(s, step);
    StartAtIsDefined(s.workflows, step.id, step.startAt);
    if Resumed(s, step) != s {
      var s1 := BeforeRetry(s, step);
      ResumableIsTerminal(s.workflows, step.id, step.startAt);
      BeforeRetryIsCalm(s, step);
      CalmKeepsInv(s, s1);
      CalmKeepsLists(s, s1);
      BeforeRetryKeepsTerminals(s, step);
      SettledKeepsBound(s.workflows, s1.workflows);
      if Resumed(s, step) != s1 {
        SameFresh(s, s1, step.newId);
        SameAllTerminal(s.workflows, s1.workflows, step.id);
        RetryIsGrown(s1, step.id, step.startAt, step.newId, step.started);
        GrownKeepsBound(s1, Resumed(s, step), step.newId, step.id);
      }
    }
  }

  // ---------- all steps and all runs ----------

  lemma OnlySummariesBreak(s: System, step: Lifecycle.Step)
    requires !IsCalm(step)
    ensures !BreaksBound(s, step)
  {
    hide Revives, HasActiveSibling;
  }

  /** From a reachable state in which at most one retry of each workflow is active, a step leads to two if and
      only if it is a summary that finds the execution of a terminal, unfinished record running, and that
      record has retries or an active sibling. */
  lemma WhatBreaksTheBound(s: System, step: Lifecycle.Step)
    requires Inv(s) && Enabled(s, step) && AtMostOne(s.workflows)
    ensures AtMostOne(Next(s, step).workflows) <==> !BreaksBound(s, step)
  {
    hide *;
    NextIsTicked(s, step);
    TickedLists(Effect(s, step));
    EnabledMoves(s, step);
    StepKinds(step);
    if IsCalm(step) {
      CalmStepAndBound(s, step);
    } else {
      OnlySummariesBreak(s, step);
      if step.Resume? {
        ResumeKeepsBound(s, step);
      } else if step.Create? {
        FreshIsNotStored(s, step.id);
        NewIsGrown(s, step.id, step.name, step.machine, step.started);
        GrownKeepsBound(s, Effect(s, step), step.id, "");
      } else {
        DoomedWhenDeleted(s, step);
        DeletedKeepsBound(s, step.id);
      }
    }
  }

  lemma DoomedWhenDeleted(s: System, step: Lifecycle.Step)
    requires Enabled(s, step) && step.DeleteDoomed?
    ensures step.id in s.doomed
  {
  }

  lemma EmptyIsBounded(ws: Workflows)
    requires ws == map[]
    ensures AtMostOne(ws)
  {
  }

  /** Over any run and up to any point of it, the bound has held throughout if and only if no step so far
      was of the one kind that breaks it. */
  lemma {:induction false} BoundHoldsExactly(run: seq<System>, steps: seq<Lifecycle.Step>, n: nat)
    requires IsRun(run, steps) && n < |run|
    ensures (forall k :: 0 <= k <= n ==> AtMostOne(run[k].workflows))
       <==> (forall i :: 0 <= i < n && i < |steps| ==> !BreaksBound(run[i], steps[i]))
    decreases n
  {
    hide *;
    RunShape(run, steps);
    if n == 0 {
      EmptyIsBounded(run[0].workflows);
    } else {
      BoundHoldsExactly(run, steps, n - 1);
      RunKeepsInv(run, steps);
      StepOfRun(run, steps, n - 1);
      if AtMostOne(run[n - 1].workflows) {
        WhatBreaksTheBound(run[n - 1], steps[n - 1]);
      }
    }
  }

  /** A step that breaks the bound finds an execution that began after its workflow had been given up on. */
  lemma BoundBreaksAfterLateStart(run: seq<System>, steps: seq<Lifecycle.Step>, n: nat) returns (i: nat)
    requires IsRun(run, steps) && n < |steps| && n < |run| && BreaksBound(run[n], steps[n])
    ensures steps[n].RefreshSummary? && i < n && steps[i] == LateStart(steps[n].id)
    ensures IsTerminal(run[i].workflows, steps[n].id)
  {
    hide *;
    BreaksMeans(run[n], steps[n]);
    RevivedWasTerminal(run[n], steps[n], steps[n].id);
    RevivesMeans(run[n], steps[n], steps[n].id);
    i := OnlyLateStartsRunOn(run, steps, n, steps[n].id);
  }
}
