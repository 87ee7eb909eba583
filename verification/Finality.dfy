/** When a terminal status is final: exactly when the execution behind it has ended, or can have no
    unfinished job to show. */
module Finality {
  import opened Wrappers
  import opened Replay
  import opened StateMachines
  import opened PruningMeaning
  import opened WorkflowStore
  import opened EventConsumer
  import opened Lifecycle
  import opened LifecycleRuns
  import opened CatchRuns
  import opened StatusSteps
  import opened JobRecords
  import opened SampleHistories

  // ---------- continuations ----------

  /** A run that goes on from `s`. */
  ghost predicate IsWalk(s: System, run: seq<System>, steps: seq<Lifecycle.Step>) {
    && |run| == |steps| + 1 && run[0] == s
    && forall i :: 0 <= i < |steps| ==> IsStep(run[i], steps[i], run[i + 1])
  }

  lemma StepOfWalk(s: System, run: seq<System>, steps: seq<Lifecycle.Step>, i: nat)
    requires IsWalk(s, run, steps) && i < |steps|
    ensures |run| == |steps| + 1 && Enabled(run[i], steps[i]) && run[i + 1] == Next(run[i], steps[i])
  {
    hide Enabled, Next;
    assert IsStep(run[i], steps[i], run[i + 1]);
  }

  lemma WalkShape(s: System, run: seq<System>, steps: seq<Lifecycle.Step>)
    requires IsWalk(s, run, steps)
    ensures |run| == |steps| + 1 && run[0] == s
  {
  }

  lemma {:induction false} WalkKeepsInv(s: System, run: seq<System>, steps: seq<Lifecycle.Step>, k: nat)
    requires IsWalk(s, run, steps) && Inv(s) && k < |run|
    ensures Inv(run[k])
    decreases k
  {
    hide *;
    WalkShape(s, run, steps);
    if k > 0 {
      WalkKeepsInv(s, run, steps, k - 1);
      StepOfWalk(s, run, steps, k - 1);
      NextKeepsInv(run[k - 1], steps[k - 1]);
    }
  }

  lemma {:induction false} WalkKeepsIds(s: System, run: seq<System>, steps: seq<Lifecycle.Step>, k: nat, id: Id)
    requires IsWalk(s, run, steps) && Inv(s) && k < |run| && id in s.workflows
    ensures id in run[k].executions
    decreases k
  {
    hide *;
    WalkShape(s, run, steps);
    if k == 0 {
      IdsAreKeys(s, id);
    } else {
      WalkKeepsIds(s, run, steps, k - 1, id);
      WalkKeepsInv(s, run, steps, k - 1);
      StepOfWalk(s, run, steps, k - 1);
      NoReturn(run[k - 1], steps[k - 1], id);
    }
  }

  /** A workflow that is stored was stored one step before. */
  lemma StoredBefore(s: System, run: seq<System>, steps: seq<Lifecycle.Step>, k: nat, id: Id)
    requires IsWalk(s, run, steps) && Inv(s) && 0 < k < |run| && id in s.workflows && id in run[k].workflows
    ensures id in run[k - 1].workflows && Inv(run[k - 1]) && |run| == |steps| + 1
    ensures Enabled(run[k - 1], steps[k - 1]) && run[k] == Next(run[k - 1], steps[k - 1])
  {
    hide *;
    WalkShape(s, run, steps);
    WalkKeepsIds(s, run, steps, k - 1, id);
    WalkKeepsInv(s, run, steps, k - 1);
    StepOfWalk(s, run, steps, k - 1);
    NoReturn(run[k - 1], steps[k - 1], id);
  }

  lemma MovesMean(e: Execution, now: Execution, late: bool)
    requires Moves(e, now, late)
    ensures !late && e != ExecRunning ==> now == e
    ensures HasEnded(e) ==> !late && now == e
    ensures late ==> e == Absent && now == ExecRunning
    ensures now == ExecRunning && e != ExecRunning ==> late
    ensures HasEnded(e) ==> e != ExecRunning
  {
  }

  lemma RevivesMeans(s: System, step: Lifecycle.Step, id: Id)
    ensures Revives(s, step, id) ==> Exec(s, id) == ExecRunning && step.RefreshSummary?
  {
    hide Exec, IsTerminal, WorkflowIsDone;
  }

  /** A terminal record without a running execution stays so until its execution starts late. */
  lemma {:induction false} SettledStays(s: System, run: seq<System>, steps: seq<Lifecycle.Step>, k: nat, id: Id)
    requires IsWalk(s, run, steps) && Inv(s) && k < |run| && id in run[k].workflows
    requires IsTerminal(s.workflows, id) && Exec(s, id) != ExecRunning
    requires forall i :: 0 <= i < k && i < |steps| ==> steps[i] != LateStart(id)
    ensures IsTerminal(run[k].workflows, id) && Exec(run[k], id) == Exec(s, id)
    decreases k
  {
    hide *;
    WalkShape(s, run, steps);
    TerminalIsStored(s.workflows, id);
    if k > 0 {
      StoredBefore(s, run, steps, k, id);
      SettledStays(s, run, steps, k - 1, id);
      SettledStep(run[k - 1], steps[k - 1], id);
    }
  }

  lemma SettledStep(s: System, step: Lifecycle.Step, id: Id)
    requires Inv(s) && Enabled(s, step) && IsTerminal(s.workflows, id) && Exec(s, id) != ExecRunning
    requires step != LateStart(id) && id in Next(s, step).workflows
    ensures IsTerminal(Next(s, step).workflows, id) && Exec(Next(s, step), id) == Exec(s, id)
  {
    hide *;
    TerminalIsStored(s.workflows, id);
    WhatTakesATerminalRecordBack(s, step, id);
    RevivesMeans(s, step, id);
    ExecMoves(s, step, id);
    MovesMean(Exec(s, id), Exec(Next(s, step), id), false);
  }

  lemma {:induction false} EndedStays(s: System, run: seq<System>, steps: seq<Lifecycle.Step>, k: nat, id: Id)
    requires IsWalk(s, run, steps) && Inv(s) && k < |run| && id in run[k].workflows
    requires IsTerminal(s.workflows, id) && HasEnded(Exec(s, id))
    ensures IsTerminal(run[k].workflows, id) && HasEnded(Exec(run[k], id))
    decreases k
  {
    hide *;
    WalkShape(s, run, steps);
    TerminalIsStored(s.workflows, id);
    if k > 0 {
      StoredBefore(s, run, steps, k, id);
      EndedStays(s, run, steps, k - 1, id);
      ExecMoves(run[k - 1], steps[k - 1], id);
      MovesMean(Exec(run[k - 1], id), Exec(run[k], id), steps[k - 1] == LateStart(id));
      SettledStep(run[k - 1], steps[k - 1], id);
    }
  }

  /** No continuation takes the workflow out of its terminal statuses. */
  ghost predicate IsFinal(s: System, id: Id) {
    forall run: seq<System>, steps, k :: IsWalk(s, run, steps) && 0 <= k < |run| && id in run[k].workflows
      ==> IsTerminal(run[k].workflows, id)
  }

  // ---------- executions without unfinished jobs to show ----------

  lemma QuietMoves(s: System, step: Lifecycle.Step)
    requires Enabled(s, step)
    ensures Next(s, step).quiet
         == if step.LateStart? then s.quiet - {step.id} else if step.Quieten? then s.quiet + {step.id} else s.quiet
  {
    hide WorkflowIsDone, Handled, MayResume, HasInput, NeedsHistory, Pruned, Enabled, UpToDate;
  }

  predicate AllJobsDone(wf: Workflow) {
    forall i :: 0 <= i < |JobsOf(wf)| ==> JobIsDone(JobsOf(wf)[i].status)
  }

  lemma DoneMeans(wf: Workflow)
    ensures WorkflowIsDone(wf) ==> AllJobsDone(wf)
    ensures RecordSays(wf) && TerminalState(wf.status) && AllJobsDone(wf) ==> WorkflowIsDone(wf)
  {
    hide MakesJobs;
  }

  lemma QuietAnswer(s: System, step: Lifecycle.Step, id: Id)
    requires Enabled(s, step) && id in s.quiet
    ensures (step.RefreshHistory? || step.Resume?) && step.id == id ==> ShowsOnlyDoneJobs(step.history)
  {
    hide IsHistoryOf, Fresh, Exec, ShowsOnlyDoneJobs, Accepted;
  }

  lemma DoneJobsKept(step: Lifecycle.Step, id: Id, was: Workflow, now: Workflow)
    requires RecordMoves(step, id, was, now) && AllJobsDone(was)
    requires (step.RefreshHistory? || step.Resume?) && step.id == id ==> ShowsOnlyDoneJobs(step.history)
    ensures AllJobsDone(now)
  {
    if now.jobs == was.jobs {
      assert JobsOf(now) == JobsOf(was);
    } else {
      assert TakesJobs(now, step.history);
    }
  }

  /** Terminal and done, with an execution that has begun and has no unfinished job to show. */
  ghost predicate IsLaidToRest(s: System, id: Id) {
    && IsTerminal(s.workflows, id) && WorkflowIsDone(s.workflows[id])
    && id in s.quiet && Exec(s, id) != Absent
  }

  lemma LaidToRestMeans(s: System, id: Id)
    requires IsTerminal(s.workflows, id)
    ensures IsLaidToRest(s, id)
       <==> WorkflowIsDone(s.workflows[id]) && id in s.quiet && Exec(s, id) != Absent
  {
    hide IsTerminal, WorkflowIsDone, Exec;
  }

  lemma LaidToRestParts(s: System, id: Id)
    requires IsLaidToRest(s, id)
    ensures id in s.workflows && IsTerminal(s.workflows, id) && TerminalState(s.workflows[id].status)
    ensures WorkflowIsDone(s.workflows[id]) && id in s.quiet && Exec(s, id) != Absent
  {
    hide WorkflowIsDone, Exec, TerminalState;
  }

  lemma SaysOf(ws: Workflows, id: Id)
    requires RecordsSay(ws) && id in ws
    ensures RecordSays(ws[id])
  {
    hide RecordSays;
  }

  lemma TerminalMeans(ws: Workflows, id: Id)
    requires id in ws
    ensures IsTerminal(ws, id) <==> TerminalState(ws[id].status)
  {
    hide TerminalState;
  }

  lemma DoneIsNotRevived(s: System, step: Lifecycle.Step, id: Id)
    requires id in s.workflows && WorkflowIsDone(s.workflows[id])
    ensures !Revives(s, step, id)
  {
    hide WorkflowIsDone, Exec;
  }

  lemma MovesOn(e: Execution, now: Execution, late: bool)
    requires Moves(e, now, late) && !e.Absent?
    ensures !late && !now.Absent?
  {
  }

  lemma RestStep(s: System, step: Lifecycle.Step, id: Id)
    requires Inv(s) && RecordsSay(s.workflows) && Enabled(s, step) && IsLaidToRest(s, id)
    requires id in Next(s, step).workflows
    ensures IsLaidToRest(Next(s, step), id)
  {
    hide *;
    var t := Next(s, step);
    LaidToRestParts(s, id);
    DoneIsNotRevived(s, step, id);
    WhatTakesATerminalRecordBack(s, step, id);
    TerminalMeans(t.workflows, id);
    NextMovesRecord(s, step, id);
    DoneMeans(s.workflows[id]);
    QuietAnswer(s, step, id);
    DoneJobsKept(step, id, s.workflows[id], t.workflows[id]);
    NextKeepsRecords(s, step);
    SaysOf(t.workflows, id);
    DoneMeans(t.workflows[id]);
    ExecMoves(s, step, id);
    MovesOn(Exec(s, id), Exec(t, id), step == LateStart(id));
    QuietMoves(s, step);
    LaidToRestMeans(t, id);
  }

  lemma {:induction false} WalkKeepsRecords(s: System, run: seq<System>, steps: seq<Lifecycle.Step>, k: nat)
    requires IsWalk(s, run, steps) && Inv(s) && RecordsSay(s.workflows) && k < |run|
    ensures Inv(run[k]) && RecordsSay(run[k].workflows)
    decreases k
  {
    hide *;
    WalkShape(s, run, steps);
    if k > 0 {
      WalkKeepsRecords(s, run, steps, k - 1);
      StepOfWalk(s, run, steps, k - 1);
      NextKeepsInv(run[k - 1], steps[k - 1]);
      NextKeepsRecords(run[k - 1], steps[k - 1]);
    }
  }

  lemma {:induction false} RestStays(s: System, run: seq<System>, steps: seq<Lifecycle.Step>, k: nat, id: Id)
    requires IsWalk(s, run, steps) && Inv(s) && RecordsSay(s.workflows) && k < |run|
    requires IsLaidToRest(s, id) && id in run[k].workflows
    ensures IsLaidToRest(run[k], id)
    decreases k
  {
    hide *;
    WalkShape(s, run, steps);
    LaidToRestParts(s, id);
    if k > 0 {
      StoredBefore(s, run, steps, k, id);
      RestStays(s, run, steps, k - 1, id);
      WalkKeepsRecords(s, run, steps, k - 1);
      RestStep(run[k - 1], steps[k - 1], id);
    }
  }

  lemma SameMachineMoved(step: Lifecycle.Step, id: Id, was: Workflow, now: Workflow)
    requires RecordMoves(step, id, was, now)
    ensures now.machine == was.machine
  {
  }

  /** A terminal record of a machine without jobs stays terminal. */
  lemma {:induction false} JoblessStays(s: System, run: seq<System>, steps: seq<Lifecycle.Step>, k: nat, id: Id)
    requires IsWalk(s, run, steps) && Inv(s) && RecordsSay(s.workflows) && k < |run|
    requires IsTerminal(s.workflows, id) && !MakesJobs(s.workflows[id].machine) && id in run[k].workflows
    ensures IsTerminal(run[k].workflows, id) && run[k].workflows[id].machine == s.workflows[id].machine
    decreases k
  {
    hide *;
    WalkShape(s, run, steps);
    TerminalIsStored(s.workflows, id);
    if k > 0 {
      StoredBefore(s, run, steps, k, id);
      JoblessStays(s, run, steps, k - 1, id);
      WalkKeepsRecords(s, run, steps, k - 1);
      NothingToRevive(run[k - 1], steps[k - 1], id);
      WhatTakesATerminalRecordBack(run[k - 1], steps[k - 1], id);
      NextMovesRecord(run[k - 1], steps[k - 1], id);
      SameMachineMoved(steps[k - 1], id, run[k - 1].workflows[id], run[k].workflows[id]);
    }
  }

  // ---------- a record that comes back ----------

  function PlainSummary(id: Id): Lifecycle.Step {
    RefreshSummary(id, true, None, "", Success(None))
  }

  ghost function SeenStep(id: Id, m: Machine, events: seq<HistoryEvent>): Lifecycle.Step {
    RefreshHistory(id, SeenOf(m, events))
  }

  lemma NextLateStart(s: System, id: Id)
    requires id in s.executions && Exec(s, id) == Absent
    ensures Enabled(s, LateStart(id))
    ensures Next(s, LateStart(id))
         == s.(executions := s.executions[id := ExecRunning], quiet := s.quiet - {id}, clock := s.clock + 1)
  {
  }

  /** A refresh of the history replaces the jobs. */
  lemma NextHistory(s: System, id: Id, history: HistoryOutcome)
    requires id in s.workflows && s.workflows[id].id == id && Exec(s, id) != Absent && id !in s.quiet
    requires history.Pages? && IsHistoryOf(s.workflows[id].machine, history)
    ensures Enabled(s, RefreshHistory(id, history))
    ensures var wf := s.workflows[id].(jobs := history.jobs, lastUpdated := s.clock);
            Next(s, RefreshHistory(id, history)) == s.(workflows := s.workflows[id := wf], clock := s.clock + 1)
  {
    hide IsHistoryOf, Exec;
  }

  lemma NextSummary(s: System, id: Id)
    ensures Enabled(s, PlainSummary(id))
    ensures Next(s, PlainSummary(id)) == Ticked(Refreshed(s, PlainSummary(id)))
  {
    hide Refreshed;
  }

  lemma UnfinishedJob(wf: Workflow, i: nat)
    requires i < |JobsOf(wf)| && !JobIsDone(JobsOf(wf)[i].status)
    ensures !WorkflowIsDone(wf)
  {
  }

  lemma RefreshedRunning(s: System, id: Id)
    requires id in s.workflows && s.workflows[id].id == id && !WorkflowIsDone(s.workflows[id])
    requires Exec(s, id) == ExecRunning
    ensures var t := Refreshed(s, PlainSummary(id));
            t == s.(workflows := t.workflows) && t.workflows.Keys == s.workflows.Keys
            && t.workflows[id].status == WorkflowRunning && t.workflows[id].retries == s.workflows[id].retries
  {
    hide WorkflowIsDone;
  }

  /** A summary that finds the execution of an unfinished record running takes it to running. */
  lemma UnfinishedRevives(s: System, id: Id)
    requires Inv(s) && id in s.workflows && Exec(s, id) == ExecRunning && !WorkflowIsDone(s.workflows[id])
    ensures Enabled(s, PlainSummary(id))
    ensures var t := Next(s, PlainSummary(id));
            && id in t.workflows && t.workflows[id].status == WorkflowRunning
            && t.workflows[id].retries == s.workflows[id].retries
  {
    IdsAreKeys(s, id);
    NextSummary(s, id);
    hide Inv, Next, Enabled, Refreshed, PlainSummary, WorkflowIsDone;
    RefreshedRunning(s, id);
  }

  /** While an execution runs, a history in which it has an unfinished job, and a summary, take its workflow
      back to running. */
  lemma RunningRevives(s: System, id: Id, history: HistoryOutcome, i: nat)
    requires Inv(s) && id in s.workflows && Exec(s, id) == ExecRunning && id !in s.quiet
    requires IsHistoryOf(s.workflows[id].machine, history) && history.Pages? && history.jobs.Some?
    requires i < |history.jobs.value| && !JobIsDone(history.jobs.value[i].status)
    ensures Enabled(s, RefreshHistory(id, history))
    ensures var s1 := Next(s, RefreshHistory(id, history));
            && Inv(s1) && Enabled(s1, PlainSummary(id))
            && var s2 := Next(s1, PlainSummary(id));
            && id in s2.workflows && s2.workflows[id].status == WorkflowRunning
            && s2.workflows[id].retries == s.workflows[id].retries
  {
    IdsAreKeys(s, id);
    hide Inv, Next, Enabled, PlainSummary, IsHistoryOf, JobIsDone;
    NextHistory(s, id, history);
    var s1 := Next(s, RefreshHistory(id, history));
    NextKeepsInv(s, RefreshHistory(id, history));
    UnfinishedJob(s1.workflows[id], i);
    hide WorkflowIsDone;
    UnfinishedRevives(s1, id);
  }

  /** The execution of a stored workflow that has none can still begin. */
  lemma LateStartIsPossible(s: System, id: Id)
    requires Inv(s) && id in s.workflows && Exec(s, id) == Absent
    ensures Enabled(s, LateStart(id)) && Inv(Next(s, LateStart(id)))
    ensures var s1 := Next(s, LateStart(id));
            s1.workflows == s.workflows && Exec(s1, id) == ExecRunning && id !in s1.quiet
  {
    IdsAreKeys(s, id);
    NextLateStart(s, id);
    NextKeepsInv(s, LateStart(id));
    hide Inv, Next, Enabled;
  }

  lemma RunningIsNotTerminal(ws: Workflows, id: Id)
    requires id in ws && ws[id].status == WorkflowRunning
    ensures !IsTerminal(ws, id)
  {
  }

  lemma IsStepOf(s: System, step: Lifecycle.Step)
    requires Enabled(s, step)
    ensures IsStep(s, step, Next(s, step))
  {
    hide Enabled, Next;
  }

  lemma NotFinal(s: System, run: seq<System>, steps: seq<Lifecycle.Step>, k: nat, id: Id)
    requires IsWalk(s, run, steps) && k < |run| && id in run[k].workflows && !IsTerminal(run[k].workflows, id)
    ensures !IsFinal(s, id)
  {
    hide IsWalk, IsTerminal;
  }

  lemma WalkOfTwo(s: System, a: Lifecycle.Step, s1: System, b: Lifecycle.Step, s2: System)
    requires IsStep(s, a, s1) && IsStep(s1, b, s2)
    ensures IsWalk(s, [s, s1, s2], [a, b])
  {
    hide IsStep;
  }

  lemma WalkBefore(s: System, a: Lifecycle.Step, s1: System, run: seq<System>, steps: seq<Lifecycle.Step>)
    requires IsStep(s, a, s1) && IsWalk(s1, run, steps)
    ensures IsWalk(s, [s] + run, [a] + steps)
  {
    hide IsStep;
  }

  lemma WalkOfOne(s: System, a: Lifecycle.Step, s1: System)
    requires IsStep(s, a, s1)
    ensures IsWalk(s, [s, s1], [a])
  {
    hide IsStep;
  }

  /** A running execution that can still show an unfinished job, or whose record already has one. */
  lemma RunningIsNotFinal(s: System, id: Id) returns (run: seq<System>, steps: seq<Lifecycle.Step>)
    requires Inv(s) && id in s.workflows && Exec(s, id) == ExecRunning
    requires !WorkflowIsDone(s.workflows[id]) || (id !in s.quiet && MakesJobs(s.workflows[id].machine))
    ensures IsWalk(s, run, steps) && |run| > 0
    ensures id in run[|run| - 1].workflows && !IsTerminal(run[|run| - 1].workflows, id)
  {
    if WorkflowIsDone(s.workflows[id]) {
      var m := s.workflows[id].machine;
      var name, typ :| IsJobType(typ) && ComesTo(m, name, typ);
      hide *;
      run, steps := EntryRevives(s, id, name, typ);
    } else {
      hide *;
      UnfinishedRevives(s, id);
      var t := Next(s, PlainSummary(id));
      IsStepOf(s, PlainSummary(id));
      WalkOfOne(s, PlainSummary(id), t);
      run, steps := [s, t], [PlainSummary(id)];
      RunningIsNotTerminal(t.workflows, id);
    }
  }

  /** The execution is seen entering a state of its machine. */
  lemma EntryRevives(s: System, id: Id, name: string, typ: StateType)
    returns (run: seq<System>, steps: seq<Lifecycle.Step>)
    requires Inv(s) && id in s.workflows && Exec(s, id) == ExecRunning && id !in s.quiet
    requires IsJobType(typ) && ComesTo(s.workflows[id].machine, name, typ)
    ensures IsWalk(s, run, steps) && |run| == 3
    ensures id in run[2].workflows && !IsTerminal(run[2].workflows, id)
  {
    hide *;
    var m := s.workflows[id].machine;
    EntrySeen(m, name, typ);
    var history := SeenOf(m, EntryEvents(name, typ));
    RunningRevives(s, id, history, 0);
    var a, b := RefreshHistory(id, history), PlainSummary(id);
    var s1 := Next(s, a);
    var s2 := Next(s1, b);
    IsStepOf(s, a);
    IsStepOf(s1, b);
    WalkOfTwo(s, a, s1, b, s2);
    run, steps := [s, s1, s2], [a, b];
    RunningIsNotTerminal(s2.workflows, id);
  }

  lemma AbsentIsNotFinal(s: System, id: Id)
    requires Inv(s) && id in s.workflows && Exec(s, id) == Absent && MakesJobs(s.workflows[id].machine)
    ensures !IsFinal(s, id)
  {
    hide *;
    LateStartIsPossible(s, id);
    var s1 := Next(s, LateStart(id));
    IsStepOf(s, LateStart(id));
    var run, steps := RunningIsNotFinal(s1, id);
    WalkBefore(s, LateStart(id), s1, run, steps);
    assert ([s] + run)[|run|] == run[|run| - 1];
    NotFinal(s, [s] + run, [LateStart(id)] + steps, |run|, id);
  }

  /** The execution has ended, or runs of the machine come to no state that makes jobs, or the record is done
      and the execution, though running, has passed its last job. */
  ghost predicate CannotComeBack(s: System, id: Id)
    requires id in s.workflows
  {
    || HasEnded(Exec(s, id))
    || !MakesJobs(s.workflows[id].machine)
    || (WorkflowIsDone(s.workflows[id]) && Exec(s, id) == ExecRunning && id in s.quiet)
  }

  lemma CannotComeBackCases(s: System, id: Id)
    requires id in s.workflows && IsTerminal(s.workflows, id)
    ensures CannotComeBack(s, id)
       <==> HasEnded(Exec(s, id)) || !MakesJobs(s.workflows[id].machine)
            || (Exec(s, id) == ExecRunning && IsLaidToRest(s, id))
    ensures !CannotComeBack(s, id) ==>
              && MakesJobs(s.workflows[id].machine)
              && (Exec(s, id) == Absent
                  || (Exec(s, id) == ExecRunning && (!WorkflowIsDone(s.workflows[id]) || id !in s.quiet)))
  {
    LaidToRestMeans(s, id);
    hide WorkflowIsDone, MakesJobs, IsTerminal, IsLaidToRest;
  }

  /** In every reachable state a terminal status is final in all that can follow if and only if the workflow
      cannot come back. */
  lemma FinalExactly(s: System, id: Id)
    requires Inv(s) && RecordsSay(s.workflows) && IsTerminal(s.workflows, id)
    ensures id in s.workflows && (IsFinal(s, id) <==> CannotComeBack(s, id))
  {
    TerminalIsStored(s.workflows, id);
    CannotComeBackCases(s, id);
    if CannotComeBack(s, id) {
      hide Inv, IsTerminal, Exec, IsWalk, CannotComeBack, HasEnded, MakesJobs, IsLaidToRest, RecordsSay;
      forall run: seq<System>, steps, k | IsWalk(s, run, steps) && 0 <= k < |run| && id in run[k].workflows
        ensures IsTerminal(run[k].workflows, id)
      {
        CannotComeBackStays(s, run, steps, k, id);
      }
    } else {
      hide *;
      if Exec(s, id) == Absent {
        AbsentIsNotFinal(s, id);
      } else {
        var run, steps := RunningIsNotFinal(s, id);
        NotFinal(s, run, steps, |run| - 1, id);
      }
    }
  }

  lemma CannotComeBackStays(s: System, run: seq<System>, steps: seq<Lifecycle.Step>, k: nat, id: Id)
    requires Inv(s) && RecordsSay(s.workflows) && IsTerminal(s.workflows, id) && id in s.workflows
    requires HasEnded(Exec(s, id)) || !MakesJobs(s.workflows[id].machine)
             || (Exec(s, id) == ExecRunning && IsLaidToRest(s, id))
    requires IsWalk(s, run, steps) && k < |run| && id in run[k].workflows
    ensures IsTerminal(run[k].workflows, id)
  {
    hide *;
    if HasEnded(Exec(s, id)) {
      EndedStays(s, run, steps, k, id);
    } else if !MakesJobs(s.workflows[id].machine) {
      JoblessStays(s, run, steps, k, id);
    } else {
      RestStays(s, run, steps, k, id);
      LaidToRestParts(run[k], id);
    }
  }

  /** Before its execution begins: a terminal status is final if and only if no Task, Choice or Succeed state
      is visited by a run of the machine, at any depth. */
  lemma FinalBeforeTheBeginning(run: seq<System>, steps: seq<Lifecycle.Step>, k: nat, id: Id)
    requires IsRun(run, steps) && k < |run| && IsTerminal(run[k].workflows, id) && Exec(run[k], id) == Absent
    ensures id in run[k].workflows && (IsFinal(run[k], id) <==> !MakesJobs(run[k].workflows[id].machine))
  {
    RunKeepsRecords(run, steps, k);
    hide Inv, RecordsSay, IsTerminal, IsRun, MakesJobs, Exec, IsFinal, WorkflowIsDone;
    FinalExactly(run[k], id);
  }

  // ---------- runs ----------

  lemma StretchOfRun(run: seq<System>, steps: seq<Lifecycle.Step>, i: nat)
    requires IsRun(run, steps) && i < |run|
    ensures |run| == |steps| + 1 && IsWalk(run[i], run[i..], steps[i..])
  {
    hide IsStep;
  }

  /** Over any run, a workflow with a terminal status and no running execution keeps a terminal status for
      as long as it is stored and its execution does not start late. */
  lemma TerminalIsFinal(run: seq<System>, steps: seq<Lifecycle.Step>, i: nat, j: nat, id: Id)
    requires IsRun(run, steps) && i <= j < |run|
    requires IsTerminal(run[i].workflows, id) && Exec(run[i], id) != ExecRunning && id in run[j].workflows
    requires forall k :: i <= k < j && k < |steps| ==> steps[k] != LateStart(id)
    ensures IsTerminal(run[j].workflows, id)
  {
    hide *;
    RunKeepsInv(run, steps);
    StretchOfRun(run, steps, i);
    assert run[i..][j - i] == run[j];
    forall k | 0 <= k < j - i && k < |steps[i..]| ensures steps[i..][k] != LateStart(id) {
      assert steps[i..][k] == steps[i + k];
    }
    SettledStays(run[i], run[i..], steps[i..], j - i, id);
  }

  /** In any run a terminal record has a running execution only if that execution started late, after the
      workflow had been given up on. */
  lemma {:induction false} OnlyLateStartsRunOn(run: seq<System>, steps: seq<Lifecycle.Step>, k: nat, id: Id)
    returns (i: nat)
    requires IsRun(run, steps) && k < |run| && IsTerminal(run[k].workflows, id) && Exec(run[k], id) == ExecRunning
    ensures i < k && i < |steps| && steps[i] == LateStart(id) && IsTerminal(run[i].workflows, id)
    decreases k
  {
    hide *;
    RunShape(run, steps);
    TerminalIsStored(run[k].workflows, id);
    RunKeepsInv(run, steps);
    if k == 0 {
      assert false;
    } else {
      StepOfRun(run, steps, k - 1);
      if IsTerminal(run[k - 1].workflows, id) {
        TerminalIsStored(run[k - 1].workflows, id);
        if Exec(run[k - 1], id) == ExecRunning {
          i := OnlyLateStartsRunOn(run, steps, k - 1, id);
        } else {
          i := k - 1;
          ExecMoves(run[k - 1], steps[k - 1], id);
          MovesMean(Exec(run[k - 1], id), Exec(run[k], id), steps[k - 1] == LateStart(id));
        }
      } else {
        CannotSettleRunning(run[k - 1], steps[k - 1], id);
        assert false;
      }
    }
  }

  lemma CannotSettleRunning(s: System, step: Lifecycle.Step, id: Id)
    requires Inv(s) && Enabled(s, step) && !IsTerminal(s.workflows, id)
    ensures IsTerminal(Next(s, step).workflows, id) ==> Exec(Next(s, step), id) != ExecRunning
  {
    hide *;
    if IsTerminal(Next(s, step).workflows, id) {
      TerminalIsStored(Next(s, step).workflows, id);
      if id in s.workflows {
        BecomesTerminalStopped(s, step, id);
      } else {
        NewRecordsAreActive(s, step, id);
        assert false;
      }
    }
  }
}
