/** Whole runs, from an empty store, of workflows that are given up on before their executions begin: one that
    takes a terminal status back, one that leaves a retried workflow active, and one whose terminal status is
    final although its execution has yet to begin. */
module LateRuns {
  import opened Wrappers
  import opened Replay
  import opened StateMachines
  import opened PruningMeaning
  import opened CatchRuns
  import opened WorkflowStore
  import opened EventConsumer
  import opened Lifecycle
  import opened LifecycleRuns
  import opened StatusSteps
  import opened JobRecords
  import opened SampleHistories
  import opened Finality
  import opened RetryBound
  import opened RetryTree

  type LifeStep = Lifecycle.Step

  // ---------- given up ----------

  lemma NextTick(s: System, elapsed: nat)
    ensures Enabled(s, Tick(elapsed)) && Next(s, Tick(elapsed)) == s.(clock := s.clock + elapsed + 1)
  {
  }

  lemma ZombieRecord(s: System, id: Id)
    requires id in s.workflows && s.workflows[id].id == id && Exec(s, id) == Absent && !WorkflowIsDone(s.workflows[id])
    requires s.workflows[id].lastUpdated < s.clock - ZOMBIE_AGE
    ensures Refreshed(s, PlainSummary(id))
         == s.(workflows := s.workflows[id := s.workflows[id].(status := WorkflowFailed, lastUpdated := s.clock)])
  {
    hide WorkflowIsDone;
  }

  /** A workflow whose execution is absent for longer than the waiting time is marked failed by the next
      summary, and nothing else changes. */
  lemma ZombieIsGivenUpOn(s: System, id: Id)
    requires Inv(s) && id in s.workflows && Exec(s, id) == Absent && !WorkflowIsDone(s.workflows[id])
    requires s.workflows[id].lastUpdated <= s.clock
    ensures Enabled(s, Tick(ZOMBIE_AGE + 1))
    ensures var s1 := Next(s, Tick(ZOMBIE_AGE + 1));
            && Enabled(s1, PlainSummary(id))
            && var s2 := Next(s1, PlainSummary(id));
            && s2.workflows == s.workflows[id := s.workflows[id].(status := WorkflowFailed, lastUpdated := s1.clock)]
            && s2.executions == s.executions && s2.doomed == s.doomed
  {
    IdsAreKeys(s, id);
    hide Inv, Next, Enabled, WorkflowIsDone, Refreshed;
    NextTick(s, ZOMBIE_AGE + 1);
    var s1 := Next(s, Tick(ZOMBIE_AGE + 1));
    NextSummary(s1, id);
    ZombieRecord(s1, id);
  }

  const NOTHING := System(map[], map[], 0, {}, {})

  lemma NothingIsInv()
    ensures Inv(NOTHING) && NOTHING.workflows == map[] && NOTHING.executions == map[] && NOTHING.doomed == {}
    ensures NOTHING.quiet == {}
  {
  }

  function Unstartable(id: Id, m: Machine): LifeStep {
    Create(id, "", m, false)
  }

  /** The only workflow of the store, given up on. */
  ghost predicate IsGivenUp(s: System, id: Id, m: Machine) {
    && Inv(s) && id in s.workflows && s.executions == map[id := Absent]
    && s.workflows[id].status == WorkflowFailed && s.workflows[id].retries == [] && s.workflows[id].lastJob == None
    && s.workflows[id].machine == m
  }

  /** A workflow whose execution could not be started, right after that. */
  lemma Unstarted(id: Id, m: Machine)
    requires id != "" && Accepted(m)
    ensures Enabled(NOTHING, Unstartable(id, m))
    ensures Next(NOTHING, Unstartable(id, m))
         == System(map[id := NewWorkflow(id, "", m, "", 0)], map[id := Absent], 1, {id}, {})
    ensures !WorkflowIsDone(NewWorkflow(id, "", m, "", 0))
  {
    hide Accepted;
  }

  lemma FreshRecord(id: Id, m: Machine)
    ensures var wf := NewWorkflow(id, "", m, "", 0);
            && wf.id == id && wf.lastUpdated == 0 && wf.retries == [] && wf.lastJob == None && wf.machine == m
  {
  }

  lemma OnlyExec(s: System, id: Id)
    requires s.executions == map[id := Absent]
    ensures Exec(s, id) == Absent
  {
  }

  lemma GivenUp(id: Id, m: Machine) returns (s1: System, s2: System, s3: System)
    requires id != "" && Accepted(m)
    ensures IsStep(NOTHING, Unstartable(id, m), s1) && IsStep(s1, Tick(ZOMBIE_AGE + 1), s2)
    ensures IsStep(s2, PlainSummary(id), s3) && IsGivenUp(s3, id, m)
  {
    var create, tick, summary := Unstartable(id, m), Tick(ZOMBIE_AGE + 1), PlainSummary(id);
    NothingIsInv();
    Unstarted(id, m);
    FreshRecord(id, m);
    s1 := Next(NOTHING, create);
    hide Inv, Next, Enabled, NOTHING, Unstartable, PlainSummary, IsStep, Exec, NewWorkflow, ZOMBIE_AGE, WorkflowIsDone,
         Accepted;
    IsStepOf(NOTHING, create);
    NextKeepsInv(NOTHING, create);
    OnlyExec(s1, id);
    ZombieIsGivenUpOn(s1, id);
    IsStepOf(s1, tick);
    s2 := Next(s1, tick);
    NextKeepsInv(s1, tick);
    IsStepOf(s2, summary);
    s3 := Next(s2, summary);
    NextKeepsInv(s2, summary);
  }

  lemma GivenUpMeans(s: System, id: Id, m: Machine)
    requires IsGivenUp(s, id, m)
    ensures Inv(s) && id in s.workflows && s.workflows[id].machine == m
    ensures Exec(s, id) == Absent && IsTerminal(s.workflows, id)
  {
    hide Inv;
  }

  // ---------- a terminal status taken back ----------

  lemma RunOfWalk(run: seq<System>, steps: seq<LifeStep>)
    requires IsWalk(NOTHING, run, steps)
    ensures IsRun(run, steps)
  {
    NothingIsInv();
    hide IsStep, NOTHING;
  }

  /** The run up to the giving up, followed by more. */
  lemma AfterGivingUp(id: Id, m: Machine, s1: System, s2: System, s3: System,
                      tail: seq<System>, tailSteps: seq<LifeStep>)
    returns (run: seq<System>, steps: seq<LifeStep>)
    requires IsStep(NOTHING, Unstartable(id, m), s1) && IsStep(s1, Tick(ZOMBIE_AGE + 1), s2)
    requires IsStep(s2, PlainSummary(id), s3) && IsWalk(s3, tail, tailSteps)
    ensures IsRun(run, steps) && |run| == |tail| + 3 && forall i :: 3 <= i < |run| ==> run[i] == tail[i - 3]
  {
    hide *;
    var tick := TickStep();
    run, steps := Prepended(s2, PlainSummary(id), s3, tail, tailSteps);
    run, steps := Prepended(s1, tick, s2, run, steps);
    run, steps := Prepended(NOTHING, Unstartable(id, m), s1, run, steps);
    RunOfWalk(run, steps);
  }

  /** With a late start a terminal status is not final: a run that creates a workflow, gives up on it and
      finds it running after all. */
  lemma LateStartBreaksFinality(id: Id) returns (run: seq<System>, steps: seq<LifeStep>)
    requires id != ""
    ensures IsRun(run, steps) && |run| == 7
    ensures IsTerminal(run[3].workflows, id) && id in run[6].workflows && !IsTerminal(run[6].workflows, id)
  {
    hide *;
    TwoTasksAreAccepted();
    TwoTasksAreVisited();
    var s1, s2, s3 := GivenUp(id, TWO_TASKS);
    GivenUpMeans(s3, id, TWO_TASKS);
    LateStartIsPossible(s3, id);
    var s4 := Next(s3, LateStart(id));
    IsStepOf(s3, LateStart(id));
    var tail, tailSteps := EntryRevives(s4, id, "a", Task);
    tail, tailSteps := Prepended(s3, LateStart(id), s4, tail, tailSteps);
    run, steps := AfterGivingUp(id, TWO_TASKS, s1, s2, s3, tail, tailSteps);
  }

  lemma WalkOfNone(s: System)
    ensures IsWalk(s, [s], [])
  {
  }

  /** A workflow of a machine with one Pass state: once given up on, its status is final, although its
      execution has not ended and may yet begin. */
  lemma PassOnlyIsFinal(id: Id) returns (run: seq<System>, steps: seq<LifeStep>)
    requires id != ""
    ensures IsRun(run, steps) && |run| == 4 && id in run[3].workflows
    ensures IsTerminal(run[3].workflows, id) && Exec(run[3], id) == Absent && IsFinal(run[3], id)
  {
    hide *;
    OnePassMakesNoJobs();
    var s1, s2, s3 := GivenUp(id, ONE_PASS);
    GivenUpMeans(s3, id, ONE_PASS);
    WalkOfNone(s3);
    run, steps := AfterGivingUp(id, ONE_PASS, s1, s2, s3, [s3], []);
    assert run[3] == [s3][0];
    FinalBeforeTheBeginning(run, steps, 3, id);
  }

  lemma TickStep() returns (tick: LifeStep)
    ensures ZOMBIE_AGE + 1 >= 0 && tick == Tick(ZOMBIE_AGE + 1)
  {
    tick := Tick(ZOMBIE_AGE + 1);
  }

  // ---------- the bound on active retries broken ----------

  function ResumeStep(id: Id, newId: Id): LifeStep {
    Resume(id, "a", newId, HistoryUnavailable, true, true)
  }

  lemma DoneRecord(wf: Workflow)
    requires wf.status == WorkflowFailed && wf.jobs.Some? && |wf.jobs.value| == 1 && JobIsDone(wf.jobs.value[0].status)
    ensures WorkflowIsDone(wf)
  {
  }

  lemma FoundInput(wf: Workflow)
    requires WorkflowIsDone(wf) && wf.lastJob == None && wf.jobs.Some? && |wf.jobs.value| == 1
    requires wf.jobs.value[0].state == "a" && HasJobStarted(wf.jobs.value[0].status)
    ensures HasInput(wf, "a") && !NeedsHistory(wf, "a")
  {
    hide WorkflowIsDone;
  }

  lemma NoRetriesNoDescendants(ws: Workflows, id: Id)
    requires id in ws && ws[id].retries == []
    ensures DescendantsDone(ws, id)
  {
    DescendantsDoneStep(ws, id);
    hide DescendantsDone, IsDescendant, WorkflowIsDone;
  }

  /** A finished workflow with one job can be retried from that job. */
  lemma Retries(s: System, id: Id, newId: Id)
    requires id in s.workflows && WorkflowIsDone(s.workflows[id]) && s.workflows[id].retries == []
    requires "a" in s.workflows[id].machine.states && HasInput(s.workflows[id], "a")
             && !NeedsHistory(s.workflows[id], "a")
    requires Fresh(s, newId)
    ensures Enabled(s, ResumeStep(id, newId))
    ensures Resumed(s, ResumeStep(id, newId)) == WithRetry(s, id, "a", newId, true)
  {
    NoRetriesNoDescendants(s.workflows, id);
    hide WorkflowIsDone, HasInput, NeedsHistory, DescendantsDone, WithRetry, Exec, Fresh;
  }

  /** The records from a late start up to the retry. */
  lemma RetriedAfterLateStart(s3: System, id: Id, newId: Id) returns (s4: System, s5: System, s6: System)
    requires IsGivenUp(s3, id, TWO_TASKS) && newId != id && newId != ""
    ensures IsStep(s3, LateStart(id), s4) && IsStep(s4, SeenStep(id, TWO_TASKS, FIRST_EVENTS), s5)
    ensures IsStep(s5, ResumeStep(id, newId), s6)
    ensures IsRetriedOn(s6, id, newId)
  {
    hide *;
    s4, s5 := DoneAfterLateStart(s3, id);
    s6 := RetriedOnce(s5, id, newId);
  }

  /** The only workflow of the store, finished as far as its record says, with its execution running. */
  ghost predicate IsRunningOn(s: System, id: Id) {
    && Inv(s) && id in s.workflows && s.executions == map[id := ExecRunning] && id !in s.quiet
    && WorkflowIsDone(s.workflows[id]) && s.workflows[id].retries == []
    && s.workflows[id].machine == TWO_TASKS && "a" in s.workflows[id].machine.states
    && HasInput(s.workflows[id], "a") && !NeedsHistory(s.workflows[id], "a")
  }

  /** The workflow has a retry, and its execution runs. */
  ghost predicate IsRetriedOn(s: System, id: Id, newId: Id) {
    && Inv(s) && id in s.workflows && Exec(s, id) == ExecRunning && id !in s.quiet
    && s.workflows[id].retries == [newId] && s.workflows[id].machine == TWO_TASKS
  }

  lemma Begun(s3: System, id: Id) returns (s4: System)
    requires IsGivenUp(s3, id, TWO_TASKS)
    ensures IsStep(s3, LateStart(id), s4) && Inv(s4)
    ensures s4.workflows == s3.workflows && s4.executions == map[id := ExecRunning] && id !in s4.quiet
  {
    GivenUpMeans(s3, id, TWO_TASKS);
    assert s3.executions == map[id := Absent];
    hide Inv, Next, Enabled, IsStep, TWO_TASKS, IsTerminal, Exec, IsGivenUp;
    NextLateStart(s3, id);
    IsStepOf(s3, LateStart(id));
    NextKeepsInv(s3, LateStart(id));
    s4 := Next(s3, LateStart(id));
  }

  /** What the record looks like after a refresh that sees the first events. */
  lemma SeenRecord(wf: Workflow, now: Time)
    requires wf.status == WorkflowFailed && wf.lastJob == None && wf.retries == [] && wf.machine == TWO_TASKS
    requires SeenOf(TWO_TASKS, FIRST_EVENTS).Pages?
    ensures var after := wf.(jobs := SeenOf(TWO_TASKS, FIRST_EVENTS).jobs, lastUpdated := now);
            && WorkflowIsDone(after) && after.retries == [] && after.machine == TWO_TASKS && "a" in after.machine.states
            && HasInput(after, "a") && !NeedsHistory(after, "a")
  {
    TwoTasksAreAccepted();
    SeenFirst();
    var after := wf.(jobs := SeenOf(TWO_TASKS, FIRST_EVENTS).jobs, lastUpdated := now);
    hide SeenOf, FIRST_EVENTS, IsHistoryOf, WorkflowIsDone, HasInput, NeedsHistory, TWO_TASKS, Accepted, JobIsDone,
         HasJobStarted;
    DoneRecord(after);
    FoundInput(after);
  }

  lemma RunsOn(s: System, id: Id)
    requires Inv(s) && id in s.workflows && s.executions == map[id := ExecRunning] && id !in s.quiet
    requires WorkflowIsDone(s.workflows[id]) && s.workflows[id].retries == []
    requires s.workflows[id].machine == TWO_TASKS && "a" in s.workflows[id].machine.states
    requires HasInput(s.workflows[id], "a") && !NeedsHistory(s.workflows[id], "a")
    ensures IsRunningOn(s, id)
  {
    hide Inv, WorkflowIsDone, HasInput, NeedsHistory, TWO_TASKS;
  }

  lemma GivenUpRecord(s: System, id: Id)
    requires IsGivenUp(s, id, TWO_TASKS)
    ensures id in s.workflows && s.workflows[id].id == id
    ensures var wf := s.workflows[id];
            wf.status == WorkflowFailed && wf.lastJob == None && wf.retries == [] && wf.machine == TWO_TASKS
  {
    IdsAreKeys(s, id);
    hide Inv, TWO_TASKS;
  }

  lemma RunningExec(s: System, id: Id)
    requires s.executions == map[id := ExecRunning]
    ensures Exec(s, id) == ExecRunning
  {
  }

  lemma SeenStepIs(id: Id, m: Machine, events: seq<HistoryEvent>)
    ensures SeenStep(id, m, events) == RefreshHistory(id, SeenOf(m, events))
  {
    hide SeenOf;
  }

  lemma DoneAfterLateStart(s3: System, id: Id) returns (s4: System, s5: System)
    requires IsGivenUp(s3, id, TWO_TASKS)
    ensures IsStep(s3, LateStart(id), s4) && IsStep(s4, SeenStep(id, TWO_TASKS, FIRST_EVENTS), s5)
    ensures IsRunningOn(s5, id)
  {
    hide *;
    GivenUpRecord(s3, id);
    s4 := Begun(s3, id);
    RunningExec(s4, id);
    SeenFirst();
    var history := SeenOf(TWO_TASKS, FIRST_EVENTS);
    SeenStepIs(id, TWO_TASKS, FIRST_EVENTS);
    NextHistory(s4, id, history);
    IsStepOf(s4, RefreshHistory(id, history));
    NextKeepsInv(s4, RefreshHistory(id, history));
    s5 := Next(s4, RefreshHistory(id, history));
    SeenRecord(s4.workflows[id], s4.clock);
    RunsOn(s5, id);
  }

  lemma RunningOnMeans(s: System, id: Id, newId: Id)
    requires IsRunningOn(s, id) && newId != id && newId != ""
    ensures Inv(s) && id in s.workflows && Exec(s, id) == ExecRunning && Fresh(s, newId) && id !in s.quiet
    ensures WorkflowIsDone(s.workflows[id]) && s.workflows[id].retries == []
    ensures s.workflows[id].machine == TWO_TASKS && "a" in s.workflows[id].machine.states
    ensures HasInput(s.workflows[id], "a") && !NeedsHistory(s.workflows[id], "a")
  {
    hide Inv, WorkflowIsDone, HasInput, NeedsHistory, TWO_TASKS;
  }

  lemma ResumeStepIs(id: Id, newId: Id)
    ensures var step := ResumeStep(id, newId); step.Resume? && step.newId == newId
  {
  }

  lemma RetriedOn(t: System, id: Id, newId: Id)
    requires Inv(t) && id in t.workflows && Exec(t, id) == ExecRunning && id !in t.quiet
    requires t.workflows[id].retries == [newId] && t.workflows[id].machine == TWO_TASKS
    ensures IsRetriedOn(t, id, newId)
  {
    hide Inv, Exec, TWO_TASKS;
  }

  lemma RetriedOnMeans(t: System, id: Id, newId: Id)
    requires IsRetriedOn(t, id, newId)
    ensures Inv(t) && id in t.workflows && Exec(t, id) == ExecRunning && id !in t.quiet
    ensures t.workflows[id].retries == [newId] && t.workflows[id].machine == TWO_TASKS
  {
    hide Inv, Exec, TWO_TASKS;
  }

  lemma RetriedOnce(s: System, id: Id, newId: Id) returns (t: System)
    requires IsRunningOn(s, id) && newId != id && newId != ""
    ensures IsStep(s, ResumeStep(id, newId), t) && IsRetriedOn(t, id, newId)
  {
    hide *;
    RunningOnMeans(s, id, newId);
    var step := ResumeStep(id, newId);
    ResumeStepIs(id, newId);
    Retries(s, id, newId);
    IsStepOf(s, step);
    NextKeepsInv(s, step);
    NextIsTicked(s, step);
    QuietMoves(s, step);
    ResumedKeepsRecord(s, step, id);
    WithRetryShape(s, id, "a", newId, true);
    TickedExec(Effect(s, step), id);
    TickedRecords(Effect(s, step));
    t := Next(s, step);
    assert s.workflows[id].retries + [newId] == [newId];
    RetriedOn(t, id, newId);
  }

  lemma ActiveWithRetry(ws: Workflows, id: Id, newId: Id)
    requires id in ws && ws[id].status == WorkflowRunning && ws[id].retries == [newId]
    ensures !AtMostOne(ws)
  {
    assert !AtMostOneAt(ws, id);
  }

  /** With a late start a workflow can be active and have a retry: the workflow is given up on, begins late,
      is retried while its record still says failed, and is then found running. */
  lemma LateStartBreaksBound(id: Id, newId: Id) returns (run: seq<System>, steps: seq<LifeStep>)
    requires id != "" && newId != "" && newId != id
    ensures IsRun(run, steps) && |run| == 9
    ensures id in run[8].workflows && run[8].workflows[id].status == WorkflowRunning
    ensures run[8].workflows[id].retries == [newId] && !AtMostOne(run[8].workflows)
  {
    hide *;
    TwoTasksAreAccepted();
    var s1, s2, s3 := GivenUp(id, TWO_TASKS);
    var s4, s5, s6 := RetriedAfterLateStart(s3, id, newId);
    RetriedOnMeans(s6, id, newId);
    SeenMore();
    var history := SeenOf(TWO_TASKS, MORE_EVENTS);
    RunningRevives(s6, id, history, 1);
    var seen, summary := RefreshHistory(id, history), PlainSummary(id);
    var s7 := Next(s6, seen);
    var s8 := Next(s7, summary);
    IsStepOf(s6, seen);
    IsStepOf(s7, summary);
    ActiveWithRetry(s8.workflows, id, newId);
    WalkOfTwo(s6, seen, s7, summary, s8);
    var tail, tailSteps := [s6, s7, s8], [seen, summary];
    tail, tailSteps := Prepended(s5, ResumeStep(id, newId), s6, tail, tailSteps);
    tail, tailSteps := Prepended(s4, SeenStep(id, TWO_TASKS, FIRST_EVENTS), s5, tail, tailSteps);
    tail, tailSteps := Prepended(s3, LateStart(id), s4, tail, tailSteps);
    run, steps := AfterGivingUp(id, TWO_TASKS, s1, s2, s3, tail, tailSteps);
  }

  lemma Prepended(s: System, a: LifeStep, s1: System, run: seq<System>, steps: seq<LifeStep>)
    returns (longer: seq<System>, moreSteps: seq<LifeStep>)
    requires IsStep(s, a, s1) && IsWalk(s1, run, steps)
    ensures IsWalk(s, longer, moreSteps) && |longer| == |run| + 1 && longer[0] == s
    ensures forall i :: 0 < i < |longer| ==> longer[i] == run[i - 1]
  {
    hide *;
    WalkBefore(s, a, s1, run, steps);
    longer, moreSteps := [s] + run, [a] + steps;
  }
}
