/** Histories of executions: the entry of a state of any machine, and the growing history of a definition of
    two tasks, event for event. */
module SampleHistories {
  import opened Wrappers
  import opened Strings
  import opened Replay
  import opened StateMachines
  import opened PruningMeaning
  import opened CatchRuns
  import opened WorkflowStore
  import opened Lifecycle

  /** What a history refresh gets when SFN answers with one page of these events. */
  ghost function SeenOf(m: Machine, events: seq<HistoryEvent>): HistoryOutcome {
    OutcomeOf(Success([events]), ContextOf(m, "production"))
  }

  lemma SeenIsHistory(m: Machine, events: seq<HistoryEvent>)
    requires EntersItsStates(m, events) && forall i :: 0 <= i < |events| ==> HasDetails(events[i])
    ensures IsHistoryOf(m, SeenOf(m, events))
  {
    hide EntersItsStates, OutcomeOf;
    assert PagesHaveDetails(Success([events])) && AllEnterItsStates(m, [events]);
  }

  lemma RunOnePage(events: seq<HistoryEvent>, ctx: Context)
    ensures RunPages([events], ctx) == Run(FRESH, events, ctx)
  {
    assert [events][..0] == [];
    assert RunPages([], ctx) == FRESH;
  }

  lemma JobsSeen(m: Machine, events: seq<HistoryEvent>)
    requires Run(FRESH, events, ContextOf(m, "production")).jobs != []
    ensures SeenOf(m, events) == Pages(Some(Run(FRESH, events, ContextOf(m, "production")).jobs))
  {
    RunOnePage(events, ContextOf(m, "production"));
    hide Run, RunPages;
  }

  // ---------- any machine ----------

  function EntryType(typ: StateType): EventType
    requires IsJobType(typ)
    ensures Class(EntryType(typ)).Entered? && TypeEntered(EntryType(typ)) == typ
  {
    if typ.Task? then TaskStateEntered else if typ.Choice? then ChoiceStateEntered else SucceedStateEntered
  }

  function Entry(id: int, previousId: int, name: string, typ: StateType): HistoryEvent
    requires IsJobType(typ)
  {
    EventOf(id, previousId, EntryType(typ)).(entered := Some(EnteredDetails(name, "{}")))
  }

  /** The execution has begun and a state is entered. */
  function EntryEvents(name: string, typ: StateType): seq<HistoryEvent>
    requires IsJobType(typ)
  {
    [EventOf(1, 0, ExecutionStarted), Entry(2, 0, name, typ)]
  }

  lemma AfterEntry(id: int, previousId: int, name: string, typ: StateType, ctx: Context)
    requires IsJobType(typ)
    ensures var job := ApplyEvent(EMPTY_JOB, Entry(id, previousId, name, typ), ctx);
            job.state == name && job.status == JobStatus.Created
  {
    hide ResourceOf, TrimSpace;
  }

  lemma EntryReplayed(name: string, typ: StateType, ctx: Context)
    requires IsJobType(typ)
    ensures var jobs := Run(FRESH, EntryEvents(name, typ), ctx).jobs;
            |jobs| == 1 && jobs[0].state == name && jobs[0].status == JobStatus.Created
  {
    var e1, e2 := EventOf(1, 0, ExecutionStarted), Entry(2, 0, name, typ);
    assert [] + [e1] == [e1] && [e1] + [e2] == EntryEvents(name, typ);
    AfterEntry(2, 0, name, typ, ctx);
    assert Run(FRESH, [], ctx) == FRESH;
    hide Run, ApplyEvent;
    RunSnoc(FRESH, [], e1, ctx);
    RunSnoc(FRESH, [e1], e2, ctx);
  }

  lemma EntryIsOfMachine(m: Machine, name: string, typ: StateType)
    requires IsJobType(typ) && ComesTo(m, name, typ)
    ensures EntersItsStates(m, EntryEvents(name, typ))
    ensures forall i :: 0 <= i < |EntryEvents(name, typ)| ==> HasDetails(EntryEvents(name, typ)[i])
  {
    hide ComesTo;
  }

  lemma CreatedIsNotDone()
    ensures !JobIsDone(JobStatus.Created)
  {
  }

  /** A state that runs come to can be seen entered, with a job that is not done. */
  lemma EntrySeen(m: Machine, name: string, typ: StateType)
    requires IsJobType(typ) && ComesTo(m, name, typ)
    ensures IsHistoryOf(m, SeenOf(m, EntryEvents(name, typ)))
    ensures var seen := SeenOf(m, EntryEvents(name, typ));
            && seen.Pages? && seen.jobs.Some? && |seen.jobs.value| == 1
            && !JobIsDone(seen.jobs.value[0].status)
  {
    hide *;
    CreatedIsNotDone();
    EntryReplayed(name, typ, ContextOf(m, "production"));
    EntryIsOfMachine(m, name, typ);
    JobsSeen(m, EntryEvents(name, typ));
    SeenIsHistory(m, EntryEvents(name, typ));
  }

  // ---------- two tasks ----------

  function TaskState(next: string): StateMachines.State {
    StateMachines.State(StateInfo(Task, next, next == "", [], [], "", "work", None, None,
                                  WaitFields(0, "", "", ""), ""), [], None)
  }

  const TWO_TASKS := Machine("a", map["a" := TaskState("b"), "b" := TaskState("")])

  /** A machine without nested machines in which everything has support and goes somewhere is accepted. */
  lemma FlatIsAccepted(m: Machine)
    requires forall n :: n in m.states ==> !m.states[n].info.typ.Parallel? && !m.states[n].info.typ.Map?
    requires m.startAt in m.states && Supported(m, m.states.Keys)
    requires forall n :: n in m.states ==> HasValidTransitions(m.states[n].info, m.states.Keys)
    ensures Accepted(m)
  {
    KeptIsGreatest(m);
    assert Kept(m) == m.states.Keys;
    forall n | n in m.states
      ensures NilFreeState(m.states[n]) && NestedPrunable(m.states[n]) && PrunedState(m.states[n]) == m.states[n]
    {
      FlatState(m.states[n]);
    }
    hide Supported, HasValidTransitions, Kept, NilFreeState, NestedPrunable, PrunedState;
    assert Pruned(m).states == m.states;
  }

  lemma FlatState(s: StateMachines.State)
    requires !s.info.typ.Parallel? && !s.info.typ.Map?
    ensures NilFreeState(s) && NestedPrunable(s) && PrunedState(s) == s
  {
    assert Nested(s) == [];
  }

  lemma TwoTasksAreAccepted()
    ensures Accepted(TWO_TASKS) && "a" in TWO_TASKS.states
  {
    var m := TWO_TASKS;
    assert m.states.Keys == {"a", "b"} && m.states["a"] == TaskState("b") && m.states["b"] == TaskState("");
    assert Targets(m.states["a"].info) == {"b"};
    assert Reaches(m, m.states.Keys, "a") && Reaches(m, m.states.Keys, "b");
    hide Reaches, Accepted;
    FlatIsAccepted(m);
  }

  lemma TwoTasksAreVisited()
    ensures ComesTo(TWO_TASKS, "a", Task) && ComesTo(TWO_TASKS, "b", Task) && IsJobType(Task)
  {
    var m := TWO_TASKS;
    assert m.states["a"] == TaskState("b") && m.states["b"] == TaskState("");
    assert RuntimeStep(m, "a", "b");
    var first, both := ["a"], ["a", "b"];
    assert IsRuntimeRun(m, first) && first[|first| - 1] == "a";
    assert IsRuntimeRun(m, both) && both[|both| - 1] == "b";
    hide IsRuntimeRun, RuntimeStep;
    assert Visited(m, "a") && Visited(m, "b");
  }

  const BEGUN := EventOf(1, 0, ExecutionStarted)
  const A_ENTERED := Entry(2, 0, "a", Task)
  const A_SCHEDULED := EventOf(3, 2, ActivityScheduled)
  const A_STARTED := EventOf(4, 3, ActivityStarted)
  const A_SUCCEEDED := EventOf(5, 4, ActivitySucceeded)
  const A_EXITED := EventOf(6, 5, TaskStateExited)
  const B_ENTERED := Entry(7, 6, "b", Task)

  /** The first task runs from its entry to its exit; then the second one is entered. */
  const UP_TO_ENTRY := [BEGUN, A_ENTERED]
  const UP_TO_SCHEDULING := UP_TO_ENTRY + [A_SCHEDULED]
  const UP_TO_START := UP_TO_SCHEDULING + [A_STARTED]
  const UP_TO_SUCCESS := UP_TO_START + [A_SUCCEEDED]
  const FIRST_EVENTS := UP_TO_SUCCESS + [A_EXITED]
  const MORE_EVENTS := FIRST_EVENTS + [B_ENTERED]

  const PRODUCTION := ContextOf(TWO_TASKS, "production")

  /** The replay has one job, of the first task, and event `id` belongs to it. */
  ghost predicate OnFirstTask(st: Replay.State, id: int, status: JobStatus) {
    && Valid(st) && |st.jobs| == 1 && st.jobs[0].state == "a" && st.jobs[0].status == status
    && id in st.owner && st.owner[id] == 0
  }

  lemma OneMoreEvent(events: seq<HistoryEvent>, evt: HistoryEvent, status: JobStatus, after: JobStatus)
    requires OnFirstTask(Run(FRESH, events, PRODUCTION), evt.previousId, status) && Class(evt.typ).Linked?
    requires forall job: JobData :: job.state == "a" && job.status == status ==>
               ApplyEvent(job, evt, PRODUCTION).state == "a" && ApplyEvent(job, evt, PRODUCTION).status == after
    ensures OnFirstTask(Run(FRESH, events + [evt], PRODUCTION), evt.id, after)
  {
    hide Run, ApplyEvent, PRODUCTION;
    RunSnoc(FRESH, events, evt, PRODUCTION);
  }

  lemma FirstEntry()
    ensures OnFirstTask(Run(FRESH, UP_TO_ENTRY, PRODUCTION), 2, JobStatus.Created)
  {
    assert [] + [BEGUN] == [BEGUN] && [BEGUN] + [A_ENTERED] == UP_TO_ENTRY;
    AfterEntry(2, 0, "a", Task, PRODUCTION);
    assert Run(FRESH, [], PRODUCTION) == FRESH;
    hide Run, ApplyEvent, PRODUCTION;
    RunSnoc(FRESH, [], BEGUN, PRODUCTION);
    RunSnoc(FRESH, [BEGUN], A_ENTERED, PRODUCTION);
  }

  lemma FirstScheduling()
    ensures OnFirstTask(Run(FRESH, UP_TO_SCHEDULING, PRODUCTION), 3, JobStatus.Queued)
  {
    FirstEntry();
    forall job: JobData | job.status == JobStatus.Created
      ensures ApplyEvent(job, A_SCHEDULED, PRODUCTION) == job.(status := JobStatus.Queued)
    {
    }
    hide Run, ApplyEvent, PRODUCTION, OnFirstTask, UP_TO_ENTRY;
    OneMoreEvent(UP_TO_ENTRY, A_SCHEDULED, JobStatus.Created, JobStatus.Queued);
  }

  lemma FirstStart()
    ensures OnFirstTask(Run(FRESH, UP_TO_START, PRODUCTION), 4, JobStatus.Running)
  {
    FirstScheduling();
    forall job: JobData
      ensures ApplyEvent(job, A_STARTED, PRODUCTION).state == job.state
      ensures ApplyEvent(job, A_STARTED, PRODUCTION).status == JobStatus.Running
    {
    }
    hide Run, ApplyEvent, PRODUCTION, OnFirstTask, UP_TO_SCHEDULING;
    OneMoreEvent(UP_TO_SCHEDULING, A_STARTED, JobStatus.Queued, JobStatus.Running);
  }

  lemma FirstSuccess()
    ensures OnFirstTask(Run(FRESH, UP_TO_SUCCESS, PRODUCTION), 5, JobStatus.Succeeded)
  {
    FirstStart();
    forall job: JobData ensures ApplyEvent(job, A_SUCCEEDED, PRODUCTION) == job.(status := JobStatus.Succeeded) {
    }
    hide Run, ApplyEvent, PRODUCTION, OnFirstTask, UP_TO_START;
    OneMoreEvent(UP_TO_START, A_SUCCEEDED, JobStatus.Running, JobStatus.Succeeded);
  }

  lemma FirstJob()
    ensures OnFirstTask(Run(FRESH, FIRST_EVENTS, PRODUCTION), 6, JobStatus.Succeeded)
  {
    FirstSuccess();
    forall job: JobData
      ensures ApplyEvent(job, A_EXITED, PRODUCTION).state == job.state
      ensures ApplyEvent(job, A_EXITED, PRODUCTION).status == job.status
    {
    }
    hide Run, ApplyEvent, PRODUCTION, OnFirstTask, UP_TO_SUCCESS;
    OneMoreEvent(UP_TO_SUCCESS, A_EXITED, JobStatus.Succeeded, JobStatus.Succeeded);
  }

  lemma SecondJob()
    ensures var jobs := Run(FRESH, MORE_EVENTS, PRODUCTION).jobs; |jobs| == 2 && jobs[1].status == JobStatus.Created
  {
    FirstJob();
    AfterEntry(7, 6, "b", Task, PRODUCTION);
    RunSnoc(FRESH, FIRST_EVENTS, B_ENTERED, PRODUCTION);
    hide Run, ApplyEvent, FIRST_EVENTS, PRODUCTION;
  }

  lemma EventsAreOfTwoTasks()
    ensures EntersItsStates(TWO_TASKS, FIRST_EVENTS) && EntersItsStates(TWO_TASKS, MORE_EVENTS)
    ensures forall i :: 0 <= i < |FIRST_EVENTS| ==> HasDetails(FIRST_EVENTS[i])
    ensures forall i :: 0 <= i < |MORE_EVENTS| ==> HasDetails(MORE_EVENTS[i])
  {
    TwoTasksAreVisited();
    hide ComesTo, TWO_TASKS;
  }

  /** When the first task has been left, the workflow's only job is done and was started ... */
  lemma SeenFirst()
    ensures IsHistoryOf(TWO_TASKS, SeenOf(TWO_TASKS, FIRST_EVENTS))
    ensures var seen := SeenOf(TWO_TASKS, FIRST_EVENTS);
            && seen.Pages? && seen.jobs.Some? && |seen.jobs.value| == 1
            && var job := seen.jobs.value[0];
            job.state == "a" && HasJobStarted(job.status) && JobIsDone(job.status)
  {
    FirstJob();
    EventsAreOfTwoTasks();
    assert HasJobStarted(JobStatus.Succeeded) && JobIsDone(JobStatus.Succeeded);
    hide Run, FIRST_EVENTS, MORE_EVENTS, EntersItsStates, SeenOf, IsHistoryOf, HasDetails,
         HasJobStarted, JobIsDone, ContextOf;
    JobsSeen(TWO_TASKS, FIRST_EVENTS);
    SeenIsHistory(TWO_TASKS, FIRST_EVENTS);
  }

  /** ... and when the second one has been entered it has a job that is not done. */
  lemma SeenMore()
    ensures IsHistoryOf(TWO_TASKS, SeenOf(TWO_TASKS, MORE_EVENTS))
    ensures var seen := SeenOf(TWO_TASKS, MORE_EVENTS);
            && seen.Pages? && seen.jobs.Some? && |seen.jobs.value| == 2
            && !JobIsDone(seen.jobs.value[1].status)
  {
    SecondJob();
    EventsAreOfTwoTasks();
    assert !JobIsDone(JobStatus.Created);
    hide Run, FIRST_EVENTS, MORE_EVENTS, EntersItsStates, SeenOf, IsHistoryOf, HasDetails, JobIsDone, ContextOf;
    JobsSeen(TWO_TASKS, MORE_EVENTS);
    SeenIsHistory(TWO_TASKS, MORE_EVENTS);
  }

  // ---------- no tasks ----------

  /** One Pass state: its executions have no jobs. */
  const ONE_PASS := Machine("p", map["p" := PASS_STATE])
  const PASS_STATE := StateMachines.State(
    StateInfo(Pass, "", true, [], [], "", "", None, None, WaitFields(0, "", "", ""), ""), [], None)

  lemma OnePassMakesNoJobs()
    ensures Accepted(ONE_PASS) && !MakesJobs(ONE_PASS)
  {
    var m := ONE_PASS;
    assert m.states.Keys == {"p"} && m.states["p"] == PASS_STATE;
    assert Reaches(m, m.states.Keys, "p");
    assert forall n :: n in m.states ==> Nested(m.states[n]) == [] && m.states[n].info.typ.Pass?;
    hide Reaches, Accepted, ONE_PASS, PASS_STATE;
    FlatIsAccepted(m);
    hide HasValidTransitions, Supported;
    forall name, typ | IsJobType(typ) ensures !ComesTo(m, name, typ) {
      FlatComesTo(m, name, typ);
    }
  }

  lemma FlatComesTo(m: Machine, name: string, typ: StateType)
    requires forall n :: n in m.states ==> Nested(m.states[n]) == []
    ensures ComesTo(m, name, typ) ==> name in m.states && m.states[name].info.typ == typ
  {
    assert forall n :: n in m.states ==> !NestedComesTo(m.states[n], name, typ);
    hide Visited;
  }
}
