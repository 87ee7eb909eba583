/** Execution-history replay (`wfupdater/processevents.go`) as a fold over values.
    Jobs are numbered in the order in which they are created; `owner` maps an event id to the
    number of the job that the source's `eventIDToJob` map points to. The imperative form, which
    shares and rewrites job objects, is in module `ProcessEvents` and is proved equal to this fold. */
module Replay {
  import opened Wrappers
  import opened Strings

  /** An instant; zero is the zero value of Go's `time.Time`. */
  type Time = int
  const ZERO_TIME: Time := 0

  datatype JobStatus =
    | Unset | Created | Queued | WaitingForDeps | Running | Succeeded | Failed | AbortedDepsFailed | AbortedByUser

  datatype ResourceType = UnknownResource | ActivityARN | LambdaFunctionARN | TaskARN

  datatype StateResource = StateResource(name: string, typ: ResourceType, namespace: string, lastUpdated: Time)

  datatype JobAttempt =
    JobAttempt(reason: string, createdAt: Time, startedAt: Time, stoppedAt: Time, taskARN: string)

  datatype JobData = JobData(
    id: string, attempts: seq<JobAttempt>, container: string, createdAt: Time, input: string, output: string,
    startedAt: Time, state: string, resource: Option<StateResource>, status: JobStatus, statusReason: string,
    stoppedAt: Time)

  /** `models.Job{}`. */
  const EMPTY_JOB := JobData("", [], "", ZERO_TIME, "", "", ZERO_TIME, "", None, Unset, "", ZERO_TIME)

  datatype EventType =
    | ExecutionStarted
    | PassStateEntered | PassStateExited | ParallelStateEntered | ParallelStateExited
    | WaitStateEntered | WaitStateExited | FailStateEntered
    | TaskStateEntered | ChoiceStateEntered | SucceedStateEntered
    | ExecutionAborted | ExecutionFailed | ExecutionTimedOut
    | TaskScheduled | ActivityScheduled | LambdaFunctionScheduled
    | TaskStarted | ActivityStarted | LambdaFunctionStarted
    | ActivityFailed | LambdaFunctionFailed | LambdaFunctionScheduleFailed | LambdaFunctionStartFailed
    | TaskSubmitFailed
    | ActivityTimedOut | LambdaFunctionTimedOut | TaskTimedOut
    | TaskSucceeded | ActivitySucceeded | ExecutionSucceeded | LambdaFunctionSucceeded
    | TaskStateExited | ChoiceStateExited | SucceedStateExited
    | UnhandledEvent

  datatype EnteredDetails = EnteredDetails(name: string, input: string)
  datatype FailureDetails = FailureDetails(cause: string, error: string)

  /** The detail fields are those of the event's own type; an absent pointer to a string reads as "". */
  datatype HistoryEvent = HistoryEvent(
    id: int, previousId: int, typ: EventType, timestamp: Time,
    entered: Option<EnteredDetails>, exitOutput: Option<string>, workerName: Option<string>,
    failure: Option<FailureDetails>)

  /** An event without details, at the instant its id says. */
  function EventOf(id: int, previousId: int, typ: EventType): HistoryEvent {
    HistoryEvent(id, previousId, typ, id, None, None, None, None)
  }

  /** How asking SFN for an execution's history can fail. */
  datatype HistoryError = ExecutionDoesNotExist | OtherError

  /** What `ProcessEvents` reads of the workflow: the resource of each state, and the namespace. */
  datatype Context = Context(resources: map<string, string>, namespace: string)

  datatype EventClass = Ignored | Entered | ExecutionLevel | Linked

  /** The cases of `eventToJob`. */
  function Class(t: EventType): EventClass {
    match t
    case ExecutionStarted | PassStateEntered | PassStateExited | ParallelStateEntered | ParallelStateExited
       | WaitStateEntered | WaitStateExited | FailStateEntered => Ignored
    case TaskStateEntered | ChoiceStateEntered | SucceedStateEntered => Entered
    case ExecutionAborted | ExecutionFailed | ExecutionTimedOut => ExecutionLevel
    case _ => Linked
  }

  predicate IsScheduled(t: EventType) {
    t.TaskScheduled? || t.ActivityScheduled? || t.LambdaFunctionScheduled?
  }

  predicate IsJobFailure(t: EventType) {
    t.ActivityFailed? || t.LambdaFunctionFailed? || t.LambdaFunctionScheduleFailed? || t.LambdaFunctionStartFailed?
    || t.TaskSubmitFailed? || t.ActivityTimedOut? || t.LambdaFunctionTimedOut? || t.TaskTimedOut?
  }

  /** The details that the source dereferences are there. */
  predicate HasDetails(evt: HistoryEvent) {
    && (Class(evt.typ).Entered? ==> evt.entered.Some?)
    && (IsJobFailure(evt.typ) ==> evt.failure.Some?)
  }

  // ---------- status reasons ----------

  const MAX_FAILURE_REASON_LINES := 3
  const NEWLINE := "\n"
  const JOB_TIMED_OUT := "Job timed out"
  const WORKFLOW_TIMED_OUT := "Workflow timed out"

  function GetLastFewLines(rawLines: string): string {
    var lines := Split(TrimSpace(rawLines), NEWLINE);
    var few := if |lines| > MAX_FAILURE_REASON_LINES then lines[|lines| - MAX_FAILURE_REASON_LINES..] else lines;
    Join(few, NEWLINE)
  }

  function FailureReason(d: FailureDetails): string {
    TrimSpace(GetLastFewLines(d.cause) + NEWLINE + d.error)
  }

  function TimeoutReason(prefix: string, d: FailureDetails): string {
    TrimSpace(prefix + NEWLINE + d.error + NEWLINE + GetLastFewLines(d.cause))
  }

  function ExecutionFailedReason(current: string, d: FailureDetails): string {
    if d.error == "States.Runtime" && Contains(d.cause, "Internal Error") then "State resource does not exist"
    else if d.error == "States.Timeout" then current
    else FailureReason(d)
  }

  function FailureOf(evt: HistoryEvent): FailureDetails {
    if evt.failure.Some? then evt.failure.value else FailureDetails("", "")
  }

  // ---------- one event applied to one job ----------

  function ResourceOf(stateName: string, ctx: Context, timestamp: Time): StateResource {
    if stateName !in ctx.resources then StateResource("", UnknownResource, ctx.namespace, timestamp)
    else
      var resource := ctx.resources[stateName];
      if HasPrefix(resource, "lambda:") then
        StateResource(TrimPrefix(resource, "lambda:"), LambdaFunctionARN, ctx.namespace, timestamp)
      else if HasPrefix(resource, "glue:") then
        StateResource(TrimPrefix(resource, "glue:"), TaskARN, ctx.namespace, timestamp)
      else StateResource(resource, ActivityARN, ctx.namespace, timestamp)
  }

  function EnterState(job: JobData, evt: HistoryEvent, ctx: Context): JobData {
    var j := job.(id := Itoa(evt.id), attempts := [], createdAt := evt.timestamp,
                  startedAt := if evt.typ.TaskStateEntered? then job.startedAt else evt.timestamp,
                  status := Created);
    match evt.entered
    case None => j
    case Some(details) =>
      j.(input := details.input, state := details.name, resource := Some(ResourceOf(details.name, ctx, evt.timestamp)))
  }

  function AttemptOf(job: JobData): JobAttempt {
    JobAttempt(job.statusReason, job.createdAt, job.startedAt, job.stoppedAt, job.container)
  }

  /** A retry keeps state, input and the resource's name, type and namespace, takes the id and the time of
      its own event, files the failed run as an attempt and clears the rest. */
  function Retried(job: JobData, evt: HistoryEvent): JobData {
    EMPTY_JOB.(id := Itoa(evt.id), attempts := job.attempts + [AttemptOf(job)], createdAt := evt.timestamp,
               input := job.input, state := job.state,
               resource := match job.resource
                           case None => None
                           case Some(r) => Some(r.(lastUpdated := evt.timestamp)))
  }

  function Stopped(job: JobData, evt: HistoryEvent, status: JobStatus, reason: string): JobData {
    job.(status := status, stoppedAt := evt.timestamp, statusReason := reason)
  }

  function Exited(job: JobData, evt: HistoryEvent): JobData {
    job.(stoppedAt := evt.timestamp, output := if evt.exitOutput.Some? then evt.exitOutput.value else job.output)
  }

  function ApplyEvent(job: JobData, evt: HistoryEvent, ctx: Context): JobData {
    match evt.typ
    case TaskStateEntered | ChoiceStateEntered | SucceedStateEntered => EnterState(job, evt, ctx)
    case TaskScheduled | ActivityScheduled | LambdaFunctionScheduled =>
      (if job.status.Failed? then Retried(job, evt) else job).(status := Queued)
    case TaskStarted | ActivityStarted | LambdaFunctionStarted =>
      job.(status := Running, startedAt := evt.timestamp,
           container := if evt.workerName.Some? then evt.workerName.value else job.container)
    case ActivityFailed | LambdaFunctionFailed | LambdaFunctionScheduleFailed | LambdaFunctionStartFailed
       | TaskSubmitFailed =>
      Stopped(job, evt, Failed, FailureReason(FailureOf(evt)))
    case ActivityTimedOut | LambdaFunctionTimedOut | TaskTimedOut =>
      Stopped(job, evt, Failed, TimeoutReason(JOB_TIMED_OUT, FailureOf(evt)))
    case TaskSucceeded | ActivitySucceeded | ExecutionSucceeded | LambdaFunctionSucceeded =>
      job.(status := Succeeded)
    case ExecutionAborted =>
      Stopped(job, evt, AbortedByUser, if evt.failure.Some? then evt.failure.value.cause else job.statusReason)
    case ExecutionFailed =>
      Stopped(job, evt, Failed,
              if evt.failure.Some? then ExecutionFailedReason(job.statusReason, evt.failure.value)
              else job.statusReason)
    case ExecutionTimedOut =>
      Stopped(job, evt, Failed,
              if evt.failure.Some? then TimeoutReason(WORKFLOW_TIMED_OUT, evt.failure.value) else WORKFLOW_TIMED_OUT)
    case TaskStateExited => Exited(job, evt)
    case ChoiceStateExited | SucceedStateExited => Exited(job, evt).(status := Succeeded)
    case _ => job
  }

  // ---------- the fold ----------

  /** `pageStart` is the number of the first job of the current call to `ProcessEvents`. */
  datatype State = State(jobs: seq<JobData>, owner: map<int, nat>, pageStart: nat)

  ghost predicate Valid(st: State) {
    && st.pageStart <= |st.jobs|
    && forall id :: id in st.owner ==> st.owner[id] < |st.jobs|
  }

  const FRESH := State([], map[], 0)

  ghost function Step(st: State, evt: HistoryEvent, ctx: Context): (r: State)
    requires Valid(st)
    ensures Valid(r) && r.pageStart == st.pageStart
    ensures |r.jobs| == |st.jobs| + (if Class(evt.typ).Entered? then 1 else 0)
  {
    match Class(evt.typ)
    case Ignored => st
    case Entered => State(st.jobs + [ApplyEvent(EMPTY_JOB, evt, ctx)], st.owner[evt.id := |st.jobs|], st.pageStart)
    case ExecutionLevel =>
      var last := |st.jobs| - 1;
      if |st.jobs| > st.pageStart then st.(jobs := st.jobs[last := ApplyEvent(st.jobs[last], evt, ctx)]) else st
    case Linked =>
      if evt.previousId !in st.owner then st
      else
        var k := st.owner[evt.previousId];
        st.(jobs := st.jobs[k := ApplyEvent(st.jobs[k], evt, ctx)], owner := st.owner[evt.id := k])
  }

  ghost function Run(st: State, events: seq<HistoryEvent>, ctx: Context): (r: State)
    requires Valid(st)
    ensures Valid(r) && r.pageStart == st.pageStart
    ensures |r.jobs| == |st.jobs| + EnteredCount(events)
  {
    if events == [] then st
    else Step(Run(st, events[..|events| - 1], ctx), events[|events| - 1], ctx)
  }

  function EnteredCount(events: seq<HistoryEvent>): nat {
    if events == [] then 0
    else EnteredCount(events[..|events| - 1]) + (if Class(events[|events| - 1].typ).Entered? then 1 else 0)
  }

  /** One call of `ProcessEvents`, which starts with no jobs of its own but with the shared map. */
  ghost function RunPage(st: State, page: seq<HistoryEvent>, ctx: Context): (r: State)
    requires Valid(st)
    ensures Valid(r)
  {
    Run(st.(pageStart := |st.jobs|), page, ctx)
  }

  ghost function RunPages(pages: seq<seq<HistoryEvent>>, ctx: Context): (r: State)
    ensures Valid(r)
  {
    if pages == [] then FRESH else RunPage(RunPages(pages[..|pages| - 1], ctx), pages[|pages| - 1], ctx)
  }

  function Concat(pages: seq<seq<HistoryEvent>>): seq<HistoryEvent> {
    if pages == [] then [] else Concat(pages[..|pages| - 1]) + pages[|pages| - 1]
  }

  // ---------- basic facts ----------

  lemma RunSnoc(st: State, events: seq<HistoryEvent>, evt: HistoryEvent, ctx: Context)
    requires Valid(st)
    ensures Run(st, events + [evt], ctx) == Step(Run(st, events, ctx), evt, ctx)
    ensures EnteredCount(events + [evt]) == EnteredCount(events) + (if Class(evt.typ).Entered? then 1 else 0)
  {
    assert (events + [evt])[..|events + [evt]| - 1] == events;
  }

  lemma {:induction false} RunConcat(st: State, a: seq<HistoryEvent>, b: seq<HistoryEvent>, ctx: Context)
    requires Valid(st)
    ensures Run(st, a + b, ctx) == Run(Run(st, a, ctx), b, ctx)
    ensures EnteredCount(a + b) == EnteredCount(a) + EnteredCount(b)
    decreases |b|
  {
    if b == [] {
      assert a + b == a;
    } else {
      var b', e := b[..|b| - 1], b[|b| - 1];
      RunConcat(st, a, b', ctx);
      RunSnoc(st, a + b', e, ctx);
      assert a + b == (a + b') + [e];
    }
  }

  function Ids(events: seq<HistoryEvent>): set<int> {
    set e | e in events :: e.id
  }

  ghost predicate UniqueIds(events: seq<HistoryEvent>) {
    forall i, j :: 0 <= i < j < |events| ==> events[i].id != events[j].id
  }

  lemma {:induction false} OwnersAreEvents(st: State, events: seq<HistoryEvent>, ctx: Context)
    requires Valid(st)
    ensures forall id :: id in Run(st, events, ctx).owner ==> id in st.owner || id in Ids(events)
  {
    if events != [] {
      var init := events[..|events| - 1];
      OwnersAreEvents(st, init, ctx);
      assert forall id :: id in Ids(init) ==> id in Ids(events);
      assert events[|events| - 1].id in Ids(events);
    }
  }
}
