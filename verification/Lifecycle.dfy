/** The life of workflows: API calls, refreshes, event deliveries and the executions behind them, as one
    transition system. API calls and deliveries are atomic; time never stands still between two steps. */
module Lifecycle {
  import opened Wrappers
  import opened Replay
  import opened StateMachines
  import opened PruningMeaning
  import opened CatchRuns
  import opened WorkflowStore
  import opened EventConsumer

  datatype Execution = Absent | ExecRunning | ExecSucceeded | ExecFailed | ExecTimedOut | ExecAborted

  /** `executions` has an entry for every id ever given to a workflow; `doomed` are the workflows whose
      creation failed to start an execution and that are still to be deleted; `quiet` are the running
      executions of which SFN will show no unfinished job any more, as their last job is over. */
  datatype System = System(
    workflows: Workflows, executions: map<Id, Execution>, clock: nat, doomed: set<Id>, quiet: set<Id>)

  function Exec(s: System, id: Id): Execution {
    if id in s.executions then s.executions[id] else Absent
  }

  const ZOMBIE_AGE := 300_000_000_000

  // ---------- status predicates ----------

  predicate JobIsDone(status: JobStatus) {
    status.Failed? || status.Succeeded? || status.AbortedDepsFailed? || status.AbortedByUser?
  }

  predicate HasJobStarted(status: JobStatus) {
    !(status.AbortedDepsFailed? || status.Queued? || status.WaitingForDeps? || status.Created?)
  }

  predicate WorkflowStatusIsDone(wf: Workflow) {
    (wf.status.WorkflowCancelled? && wf.resolvedByUser) || wf.status.WorkflowFailed? || wf.status.WorkflowSucceeded?
  }

  function JobsOf(wf: Workflow): seq<JobData> {
    if wf.jobs.Some? then wf.jobs.value else []
  }

  predicate WorkflowIsDone(wf: Workflow) {
    (forall i :: 0 <= i < |JobsOf(wf)| ==> JobIsDone(JobsOf(wf)[i].status)) && WorkflowStatusIsDone(wf)
  }

  function SFNStatusToWorkflowStatus(e: Execution): WorkflowStatus {
    match e
    case ExecRunning => WorkflowRunning
    case ExecSucceeded => WorkflowSucceeded
    case ExecFailed | ExecTimedOut => WorkflowFailed
    case ExecAborted => WorkflowCancelled
    case Absent => WorkflowQueued
  }

  // ---------- descendants ----------

  predicate IsRetryOf(ws: Workflows, parent: Id, child: Id) {
    parent in ws && child in ws[parent].retries
  }

  /** A chain of retries: each workflow is in the retry list of the one before it. */
  ghost predicate IsLineage(ws: Workflows, p: seq<Id>) {
    forall i :: 0 < i < |p| ==> IsRetryOf(ws, p[i - 1], p[i])
  }

  ghost predicate IsDescendant(ws: Workflows, id: Id, d: Id) {
    exists p :: |p| >= 2 && IsLineage(ws, p) && p[0] == id && p[|p| - 1] == d
  }

  ghost predicate DescendantsDone(ws: Workflows, id: Id) {
    forall d :: IsDescendant(ws, id, d) ==> d in ws && WorkflowIsDone(ws[d])
  }

  // ---------- steps ----------

  datatype HistoryOutcome = NoExecution | HistoryUnavailable | Pages(jobs: Option<seq<JobData>>)

  /** The fields after the workflow ids are the answers of the outside world to the call. */
  datatype Step =
    | Create(id: Id, name: string, machine: Machine, started: bool)
    | DeleteDoomed(id: Id)
    | Resume(id: Id, startAt: string, newId: Id, history: HistoryOutcome, ready: bool, started: bool)
    | Cancel(id: Id, reason: string, stopped: bool)
    | RefreshSummary(id: Id, described: bool, stopDate: Option<Time>, sfnOutput: string,
                     found: Result<Option<JobData>, ()>)
    | RefreshHistory(id: Id, history: HistoryOutcome)
    | Resolve(id: Id)
    | Deliver(d: Delivery)
    | Finish(id: Id, to: Execution)
    | LateStart(id: Id)
    | Quieten(id: Id)
    | Tick(elapsed: nat)

  /** What the handler lets into the store: every Map state has an iterator and pruning changes nothing. */
  ghost predicate Accepted(machine: Machine) {
    NilFree(machine) && Sound(machine)
  }

  predicate Fresh(s: System, id: Id) {
    id !in s.executions && id != ""
  }

  /** What the pages of an execution's history say about its jobs; no job at all leaves a nil slice. */
  ghost function OutcomeOf(history: Result<seq<seq<HistoryEvent>>, HistoryError>, ctx: Context): HistoryOutcome {
    match history
    case Failure(ExecutionDoesNotExist) => NoExecution
    case Failure(OtherError) => HistoryUnavailable
    case Success(pages) =>
      var jobs := RunPages(pages, ctx).jobs;
      Pages(if jobs == [] then None else Some(jobs))
  }

  predicate PagesHaveDetails(history: Result<seq<seq<HistoryEvent>>, HistoryError>) {
    history.Success? ==>
      forall p, i :: 0 <= p < |history.value| && 0 <= i < |history.value[p]| ==> HasDetails(history.value[p][i])
  }

  /** The type of the states that such an event is about. */
  function TypeEntered(t: EventType): StateType
    requires Class(t).Entered?
  {
    match t
    case TaskStateEntered => Task
    case ChoiceStateEntered => Choice
    case SucceedStateEntered => Succeed
  }

  /** What the replay reads of a workflow with this machine. */
  function ContextOf(m: Machine, namespace: string): Context {
    Context(map n | n in m.states :: m.states[n].info.resource, namespace)
  }

  /** The states entered are states of the machine that its runs come to, at any depth, of the type that the
      event says. */
  ghost predicate EntersItsStates(m: Machine, events: seq<HistoryEvent>) {
    forall i :: 0 <= i < |events| && Class(events[i].typ).Entered? ==>
      && events[i].entered.Some?
      && ComesTo(m, events[i].entered.value.name, TypeEntered(events[i].typ))
  }

  ghost predicate AllEnterItsStates(m: Machine, pages: seq<seq<HistoryEvent>>) {
    forall p :: 0 <= p < |pages| ==> EntersItsStates(m, pages[p])
  }

  /** The answer is what a replay makes of events that an execution of this machine can write. */
  ghost predicate IsHistoryOf(m: Machine, history: HistoryOutcome) {
    exists pages, namespace ::
      && PagesHaveDetails(Success(pages)) && AllEnterItsStates(m, pages)
      && history == OutcomeOf(Success(pages), ContextOf(m, namespace))
  }

  predicate ShowsOnlyDoneJobs(history: HistoryOutcome) {
    history.Pages? && history.jobs.Some? ==>
      forall i :: 0 <= i < |history.jobs.value| ==> JobIsDone(history.jobs.value[i].status)
  }

  /** SFN answers for the execution there is, with events of the workflow's own machine. */
  ghost predicate Plausible(s: System, id: Id, history: HistoryOutcome) {
    && (id in s.quiet ==> ShowsOnlyDoneJobs(history))
    && (history.Pages? ==> Exec(s, id) != Absent)
    && (history.Pages? && id in s.workflows ==> IsHistoryOf(s.workflows[id].machine, history))
    && (history.NoExecution? ==> Exec(s, id) == Absent)
  }

  function EndOf(t: CwEventType): Execution
    requires IsTerminalEvent(t)
  {
    match t
    case CwExecutionAborted => ExecAborted
    case CwExecutionFailed => ExecFailed
    case CwExecutionTimedOut => ExecTimedOut
    case CwExecutionSucceeded => ExecSucceeded
  }

  ghost predicate Enabled(s: System, step: Step) {
    match step
    case Create(id, _, machine, _) => Fresh(s, id) && Accepted(machine)
    case DeleteDoomed(id) => id in s.doomed
    case Resume(id, _, newId, history, _, _) => Fresh(s, newId) && Plausible(s, id, history)
    case RefreshHistory(id, history) => Plausible(s, id, history)
    case Deliver(d) => IsTerminalEvent(d.evt.typ) ==> Exec(s, ExecOf(d.evt)) == EndOf(d.evt.typ)
    case Finish(id, to) => Exec(s, id) == ExecRunning && !to.Absent? && !to.ExecRunning?
    case LateStart(id) => id in s.executions && Exec(s, id) == Absent
    case Quieten(id) => Exec(s, id) == ExecRunning
    case _ => true
  }

  /** `UpdateWorkflow`: the whole record, stamped. */
  function Put(s: System, wf: Workflow): System {
    if wf.id in s.workflows then s.(workflows := s.workflows[wf.id := wf.(lastUpdated := s.clock)]) else s
  }

  function NewWorkflow(id: Id, name: string, machine: Machine, retryFor: Id, now: Time): Workflow {
    Workflow(id, now, now, ZERO_TIME, WorkflowQueued, "", false, "", [], retryFor, Some([]), None, name, machine)
  }

  function WithNew(s: System, id: Id, name: string, machine: Machine, started: bool): System {
    s.(workflows := s.workflows[id := NewWorkflow(id, name, machine, "", s.clock)],
       executions := s.executions[id := if started then ExecRunning else Absent],
       doomed := if started then s.doomed else s.doomed + {id})
  }

  function Deleted(s: System, id: Id): System {
    s.(workflows := s.workflows - {id}, doomed := s.doomed - {id})
  }

  function Cancelled(s: System, id: Id, reason: string, stopped: bool): System {
    if id !in s.workflows then s
    else
      var wf := s.workflows[id];
      if wf.status.WorkflowSucceeded? || wf.status.WorkflowFailed? || Exec(s, id).Absent? || !stopped then s
      else
        var e := if Exec(s, id).ExecRunning? then ExecAborted else Exec(s, id);
        Put(s.(executions := s.executions[id := e]), wf.(statusReason := reason, resolvedByUser := true))
  }

  /** A record after a summary refresh that could look up what it needs. */
  function UpToDate(wf: Workflow, e: Execution, stopDate: Option<Time>, sfnOutput: string,
                    found: Result<Option<JobData>, ()>): Workflow
    requires SFNStatusToWorkflowStatus(e).WorkflowFailed? ==> found.Success?
  {
    var status := SFNStatusToWorkflowStatus(e);
    wf.(status := status,
        statusReason := if e.ExecTimedOut? then WORKFLOW_TIMED_OUT else wf.statusReason,
        stoppedAt := OrElse(stopDate, wf.stoppedAt),
        resolvedByUser := wf.resolvedByUser || status.WorkflowSucceeded? || status.WorkflowCancelled?,
        lastJob := if status.WorkflowFailed? && found.value.Some? then found.value else wf.lastJob,
        output := sfnOutput)
  }

  function Refreshed(s: System, step: Step): System
    requires step.RefreshSummary?
  {
    if step.id !in s.workflows || WorkflowIsDone(s.workflows[step.id]) || !step.described then s
    else
      var wf := s.workflows[step.id];
      var e := Exec(s, step.id);
      if e.Absent? then
        if wf.lastUpdated < s.clock - ZOMBIE_AGE then Put(s, wf.(status := WorkflowFailed)) else s
      else
        var status := SFNStatusToWorkflowStatus(e);
        if status.WorkflowFailed? && step.found.Failure? then s
        else
          Put(s, UpToDate(wf, e, step.stopDate, step.sfnOutput, step.found))
  }

  function WithHistory(s: System, id: Id, history: HistoryOutcome): System {
    if id in s.workflows && history.Pages? then Put(s, s.workflows[id].(jobs := history.jobs)) else s
  }

  function Resolved(s: System, id: Id): System {
    if id !in s.workflows || s.workflows[id].resolvedByUser then s
    else Put(s, s.workflows[id].(resolvedByUser := true))
  }

  /** The job whose input a resumed workflow starts from. */
  function OriginalJob(wf: Workflow, startAt: string): Option<JobData> {
    if wf.lastJob.Some? && wf.lastJob.value.state == startAt then wf.lastJob else FirstJobFor(JobsOf(wf), startAt)
  }

  function FirstJobFor(jobs: seq<JobData>, startAt: string): Option<JobData> {
    if jobs == [] then None
    else if jobs[0].state == startAt then Some(jobs[0])
    else FirstJobFor(jobs[1..], startAt)
  }

  predicate NeedsHistory(wf: Workflow, startAt: string) {
    !(wf.lastJob.Some? && wf.lastJob.value.state == startAt) && wf.jobs.None?
  }

  ghost predicate MayResume(ws: Workflows, id: Id, startAt: string) {
    id in ws && WorkflowIsDone(ws[id]) && DescendantsDone(ws, id) && startAt in ws[id].machine.states
  }

  /** The record found after a possible refresh of the history still allows a retry. */
  predicate HasInput(wf: Workflow, startAt: string) {
    var job := OriginalJob(wf, startAt);
    job.Some? && HasJobStarted(job.value.status) && WorkflowIsDone(wf)
  }

  ghost function WithRetry(s: System, id: Id, startAt: string, newId: Id, started: bool): System
    requires id in s.workflows
  {
    var wf := s.workflows[id];
    var machine := Pruned(wf.machine.(startAt := startAt));
    var retry := NewWorkflow(newId, wf.definitionName, machine, id, s.clock);
    Put(s.(workflows := s.workflows[newId := retry],
           executions := s.executions[newId := if started then ExecRunning else Absent]),
        wf.(retries := wf.retries + [newId]))
  }

  ghost function Resumed(s: System, step: Step): System
    requires step.Resume?
  {
    if !MayResume(s.workflows, step.id, step.startAt) then s
    else
      var refresh := NeedsHistory(s.workflows[step.id], step.startAt);
      if refresh && step.history.HistoryUnavailable? then s
      else
        var s1 := if refresh then WithHistory(s, step.id, step.history) else s;
        if step.ready && HasInput(s1.workflows[step.id], step.startAt) then
          WithRetry(s1, step.id, step.startAt, step.newId, step.started)
        else s1
  }

  function Delivered(s: System, d: Delivery): System {
    s.(workflows := Handled(s.workflows, d).0)
  }

  ghost function Effect(s: System, step: Step): System
    requires Enabled(s, step)
  {
    match step
    case Create(id, name, machine, started) => WithNew(s, id, name, machine, started)
    case DeleteDoomed(id) => Deleted(s, id)
    case Resume(_, _, _, _, _, _) => Resumed(s, step)
    case Cancel(id, reason, stopped) => Cancelled(s, id, reason, stopped)
    case RefreshSummary(_, _, _, _, _) => Refreshed(s, step)
    case RefreshHistory(id, history) => WithHistory(s, id, history)
    case Resolve(id) => Resolved(s, id)
    case Deliver(d) => Delivered(s, d)
    case Finish(id, to) => s.(executions := s.executions[id := to])
    case LateStart(id) => s.(executions := s.executions[id := ExecRunning], quiet := s.quiet - {id})
    case Quieten(id) => s.(quiet := s.quiet + {id})
    case Tick(elapsed) => s.(clock := s.clock + elapsed)
  }

  ghost function Next(s: System, step: Step): System
    requires Enabled(s, step)
  {
    Ticked(Effect(s, step))
  }

  function Ticked(s: System): System {
    s.(clock := s.clock + 1)
  }

  ghost predicate IsRun(run: seq<System>, steps: seq<Step>) {
    && |run| == |steps| + 1
    && run[0].workflows == map[] && run[0].executions == map[] && run[0].doomed == {} && run[0].quiet == {}
    && forall i :: 0 <= i < |steps| ==> IsStep(run[i], steps[i], run[i + 1])
  }

  ghost predicate IsStep(s: System, step: Step, t: System) {
    Enabled(s, step) && t == Next(s, step)
  }
}
