/** The consumer of execution events (`cmd/sfn-execution-events-consumer/main.go`). Deliveries come out
    of order, more than once and mixed between executions; each makes at most one conditional update. */
module EventConsumer {
  import opened Wrappers
  import opened Strings
  import opened Names
  import opened Replay
  import opened WorkflowStore

  datatype CwEventType = CwExecutionAborted | CwExecutionFailed | CwExecutionTimedOut | CwExecutionSucceeded
                       | CwOther(name: string)

  datatype CwEvent = CwEvent(executionARN: string, id: string, typ: CwEventType,
                             output: Option<string>, timestamp: string)

  datatype ConsumerError = BadTimestamp | NoOutput | Unavailable | FromStore(error: WorkflowStore.StoreError)

  /** One delivery of an event, with the outcome of the last-job replay should the event ask for it. */
  datatype Delivery = Delivery(evt: CwEvent, found: Result<Option<JobData>, ConsumerError>)

  function ExecOf(evt: CwEvent): Id {
    ExecIDFromExecutionARN(evt.executionARN)
  }

  // Go's division and remainder truncate toward zero.
  function QuoTrunc(a: int, b: int): int
    requires b > 0
  {
    if a >= 0 then a / b else -((-a) / b)
  }

  function RemTrunc(a: int, b: int): int
    requires b > 0
  {
    a - b * QuoTrunc(a, b)
  }

  /** `time.Unix(msec/1e3, (msec%1e3)*1e6)`, in nanoseconds: exact for negative times too. */
  function UnixMilli(msec: int): (r: Time)
    ensures r == msec * 1_000_000
  {
    QuoTrunc(msec, 1000) * 1_000_000_000 + RemTrunc(msec, 1000) * 1_000_000
  }

  predicate IsTerminalEvent(t: CwEventType) {
    !t.CwOther?
  }

  predicate IsFailureEvent(t: CwEventType) {
    t.CwExecutionFailed? || t.CwExecutionTimedOut?
  }

  function StatusOf(t: CwEventType): WorkflowStatus
    requires IsTerminalEvent(t)
  {
    match t
    case CwExecutionAborted => WorkflowCancelled
    case CwExecutionFailed | CwExecutionTimedOut => WorkflowFailed
    case CwExecutionSucceeded => WorkflowSucceeded
  }

  /** The update that a terminal event stands for. */
  function TerminalUpdate(evt: CwEvent, stoppedAt: Time, lastJob: Option<JobData>): Update
    requires IsTerminalEvent(evt.typ)
  {
    NO_UPDATE.(
      stoppedAt := Some(stoppedAt),
      status := Some(StatusOf(evt.typ)),
      statusReason := if evt.typ.CwExecutionTimedOut? then Some(WORKFLOW_TIMED_OUT) else None,
      output := if evt.typ.CwExecutionSucceeded? then evt.output else None,
      resolvedByUser := if IsFailureEvent(evt.typ) then None else Some(true),
      lastJob := if IsFailureEvent(evt.typ) then lastJob else None)
  }

  /** `ZeroValue`, which does not look at the last job. */
  predicate ZeroValue(u: Update) {
    u.lastUpdated.None? && u.status.None? && u.statusReason.None? && u.stoppedAt.None? && u.resolvedByUser.None?
    && u.output.None?
  }

  function UpdateFor(workflows: Workflows, d: Delivery): Result<Update, ConsumerError> {
    var evt := d.evt;
    if !IsTerminalEvent(evt.typ) then
      Success(if evt.id == "2" then NO_UPDATE.(status := Some(WorkflowRunning)) else NO_UPDATE)
    else match Atoi(evt.timestamp)
      case None => Failure(BadTimestamp)
      case Some(msec) =>
        if evt.typ.CwExecutionSucceeded? && evt.output.None? then Failure(NoOutput)
        else if !IsFailureEvent(evt.typ) then Success(TerminalUpdate(evt, UnixMilli(msec), None))
        else if ExecOf(evt) !in workflows then Failure(FromStore(NotFound(ExecOf(evt))))
        else match d.found
          case Failure(error) => Failure(error)
          case Success(job) =>
            var lastJob := if job.Some? then job else workflows[ExecOf(evt)].lastJob;
            Success(TerminalUpdate(evt, UnixMilli(msec), lastJob))
  }

  function Handled(workflows: Workflows, d: Delivery): (Workflows, Result<(), ConsumerError>) {
    match UpdateFor(workflows, d)
    case Failure(error) => (workflows, Failure(error))
    case Success(u) =>
      if ZeroValue(u) then (workflows, Success(()))
      else
        var (after, r) := MemoryUpdate(workflows, ExecOf(d.evt), u);
        (after, match r
                case Success(_) => Success(())
                case Failure(error) => if error.TerminalToNonTerminal? then Success(()) else Failure(FromStore(error)))
  }

  method SwallowOutOfOrderStateError(r: Result<(), WorkflowStore.StoreError>) returns (out: Result<(), ConsumerError>)
    ensures out == match r
                   case Success(_) => Success(())
                   case Failure(error) =>
                     if error.TerminalToNonTerminal? then Success(()) else Failure(FromStore(error))
  {
    if r.Failure? && r.error.TerminalToNonTerminal? {
      return Success(());
    }
    return match r case Success(_) => Success(()) case Failure(error) => Failure(FromStore(error));
  }

  method HandleHistoryEvent(store: MemoryStore, d: Delivery) returns (r: Result<(), ConsumerError>)
    requires |Split(d.evt.executionARN, COLON)| >= 2
    modifies store
    ensures (store.workflows, r) == Handled(old(store.workflows), d)
  {
    hide MemoryUpdate;
    var evt := d.evt;
    var execID := ExecOf(evt);
    var update := NO_UPDATE;
    if IsTerminalEvent(evt.typ) {
      var msec := Atoi(evt.timestamp);
      if msec.None? {
        return Failure(BadTimestamp);
      }
      update := update.(stoppedAt := Some(UnixMilli(msec.value)));
    } else if evt.id == "2" {
      update := update.(status := Some(WorkflowRunning));
      var result := store.UpdateWorkflowAttributes(execID, update);
      r := SwallowOutOfOrderStateError(result);
      return;
    }
    match evt.typ {
      case CwExecutionAborted =>
        update := update.(status := Some(WorkflowCancelled));
      case CwExecutionFailed =>
        update := update.(status := Some(WorkflowFailed));
      case CwExecutionTimedOut =>
        update := update.(status := Some(WorkflowFailed));
        update := update.(statusReason := Some(WORKFLOW_TIMED_OUT));
      case CwExecutionSucceeded =>
        update := update.(status := Some(WorkflowSucceeded));
        if evt.output.None? {
          return Failure(NoOutput);
        }
        update := update.(output := evt.output);
      case CwOther(_) =>
    }
    if update.status == Some(WorkflowSucceeded) || update.status == Some(WorkflowCancelled) {
      update := update.(resolvedByUser := Some(true));
    }
    if update.status == Some(WorkflowFailed) {
      var workflow := store.GetWorkflowByID(execID);
      if workflow.Failure? {
        return Failure(FromStore(workflow.error));
      }
      if d.found.Failure? {
        return Failure(d.found.error);
      }
      var lastJob := if d.found.value.Some? then d.found.value else workflow.value.lastJob;
      if lastJob.Some? {
        update := update.(lastJob := lastJob);
      }
    }
    if ZeroValue(update) {
      return Success(());
    }
    var result := store.UpdateWorkflowAttributes(execID, update);
    r := SwallowOutOfOrderStateError(result);
  }

  // ---------- convergence ----------

  function Consumed(workflows: Workflows, ds: seq<Delivery>): Workflows {
    if ds == [] then workflows else Handled(Consumed(workflows, ds[..|ds| - 1]), ds[|ds| - 1]).0
  }

  /** The end of an execution, as SFN reports it. */
  ghost predicate IsEnd(end: CwEvent) {
    && IsTerminalEvent(end.typ) && Atoi(end.timestamp).Some?
    && (end.typ.CwExecutionSucceeded? ==> end.output.Some?)
  }

  /** The delivery is of another execution, of a non-terminal event, or of this very end; when the
      last-job replay is available it always finds the same job. */
  ghost predicate Agrees(d: Delivery, end: CwEvent, job: Option<JobData>) {
    ExecOf(d.evt) == ExecOf(end) && IsTerminalEvent(d.evt.typ) ==>
      d.evt == end && (d.found.Success? ==> d.found.value == job)
  }

  /** The delivery brings the end through. */
  predicate Settles(d: Delivery, end: CwEvent) {
    d.evt == end && (IsFailureEvent(end.typ) ==> d.found.Success?)
  }

  function Settled(wf: Workflow, end: CwEvent, job: Option<JobData>): Workflow
    requires IsTerminalEvent(end.typ) && Atoi(end.timestamp).Some?
  {
    Applied(wf, TerminalUpdate(end, UnixMilli(Atoi(end.timestamp).value), if job.Some? then job else wf.lastJob))
  }

  /** What deliveries can have made of a record: at most running before the end, settled after it. */
  ghost predicate Progress(was: Workflow, now: Workflow, end: CwEvent, job: Option<JobData>, ended: bool)
    requires IsEnd(end)
  {
    if ended then now == Settled(was, end, job)
    else now == was || (now == was.(status := WorkflowRunning) && !TerminalState(was.status))
  }

  lemma DeliveryMakesProgress(workflows: Workflows, d: Delivery, was: Workflow, end: CwEvent,
                              job: Option<JobData>, ended: bool)
    requires IsEnd(end) && Agrees(d, end, job)
    requires ExecOf(end) in workflows && Progress(was, workflows[ExecOf(end)], end, job, ended)
    ensures var after := Handled(workflows, d).0;
            && ExecOf(end) in after
            && Progress(was, after[ExecOf(end)], end, job, ended || Settles(d, end))
  {
    hide Atoi, ExecIDFromExecutionARN;
    var now := workflows[ExecOf(end)];
    if ExecOf(d.evt) == ExecOf(end) {
      if IsTerminalEvent(d.evt.typ) {
        SettlingTwice(was, end, job);
      }
    }
  }

  lemma SettlingTwice(wf: Workflow, end: CwEvent, job: Option<JobData>)
    requires IsEnd(end)
    ensures Settled(Settled(wf, end, job), end, job) == Settled(wf, end, job)
    ensures Settled(wf.(status := WorkflowRunning), end, job) == Settled(wf, end, job)
    ensures TerminalState(Settled(wf, end, job).status)
  {
    hide Atoi, UnixMilli;
  }

  lemma {:induction false} ConsumptionMakesProgress(workflows: Workflows, ds: seq<Delivery>,
                                                    end: CwEvent, job: Option<JobData>)
    requires IsEnd(end) && ExecOf(end) in workflows
    requires forall i :: 0 <= i < |ds| ==> Agrees(ds[i], end, job)
    ensures var after := Consumed(workflows, ds);
            && ExecOf(end) in after
            && Progress(workflows[ExecOf(end)], after[ExecOf(end)], end, job,
                        exists i :: 0 <= i < |ds| && Settles(ds[i], end))
  {
    if ds != [] {
      var init, d := ds[..|ds| - 1], ds[|ds| - 1];
      ConsumptionMakesProgress(workflows, init, end, job);
      var was := workflows[ExecOf(end)];
      var ended := exists i :: 0 <= i < |init| && Settles(init[i], end);
      DeliveryMakesProgress(Consumed(workflows, init), d, was, end, job, ended);
      hide Settles, Progress, Agrees, Handled;
      assert (exists i :: 0 <= i < |ds| && Settles(ds[i], end)) <==> ended || Settles(d, end) by {
        if ended {
          var i :| 0 <= i < |init| && Settles(init[i], end);
          assert Settles(ds[i], end);
        }
        if Settles(d, end) {
          assert Settles(ds[|ds| - 1], end);
        }
      }
    }
  }

  /** However the events of all executions are reordered, repeated or refused on the way: once the end of
      an execution has come through, its record is what the end alone would have made of it. */
  lemma ConsumerConverges(workflows: Workflows, ds: seq<Delivery>, end: CwEvent, job: Option<JobData>)
    requires IsEnd(end) && ExecOf(end) in workflows
    requires forall i :: 0 <= i < |ds| ==> Agrees(ds[i], end, job)
    requires exists i :: 0 <= i < |ds| && Settles(ds[i], end)
    ensures ExecOf(end) in Consumed(workflows, ds)
    ensures Consumed(workflows, ds)[ExecOf(end)] == Settled(workflows[ExecOf(end)], end, job)
  {
    ConsumptionMakesProgress(workflows, ds, end, job);
  }

  /** An execution's events find their workflow: the id in the ARN is the id it was started with. */
  lemma EventsFindTheirWorkflow(region: string, accountID: string, parts: SMParts, workflowID: Id, evt: CwEvent)
    requires evt.executionARN == ExecutionArn(region, accountID, Sanitize(RawName(parts)), workflowID)
    requires ColonFree(workflowID)
    ensures ExecOf(evt) == workflowID
  {
    ExecutionArnRoundTrip(region, accountID, parts, workflowID);
  }
}
