/** Workflow records and their in-memory store (`store/memory/memory_store.go`, `store/store.go`), with
    the guard that keeps terminal records terminal as each of the two stores writes it. */
module WorkflowStore {
  import opened Wrappers
  import opened Replay
  import opened StateMachines

  type Id = string

  datatype WorkflowStatus = WorkflowQueued | WorkflowRunning | WorkflowFailed | WorkflowSucceeded | WorkflowCancelled

  /** `jobs` is absent for a nil slice; `machine` is the state machine of the workflow's own definition. */
  datatype Workflow = Workflow(
    id: Id, createdAt: Time, lastUpdated: Time, stoppedAt: Time, status: WorkflowStatus, statusReason: string,
    resolvedByUser: bool, output: string, retries: seq<Id>, retryFor: Id, jobs: Option<seq<JobData>>,
    lastJob: Option<JobData>, definitionName: string, machine: Machine)

  const TERMINAL_STATES: seq<WorkflowStatus> := [WorkflowSucceeded, WorkflowFailed, WorkflowCancelled]

  predicate TerminalState(s: WorkflowStatus) {
    s in TERMINAL_STATES
  }

  lemma TerminalMeans(s: WorkflowStatus)
    ensures TerminalState(s) <==> s != WorkflowQueued && s != WorkflowRunning
  {
  }

  datatype Update = Update(
    lastUpdated: Option<Time>, status: Option<WorkflowStatus>, statusReason: Option<string>, stoppedAt: Option<Time>,
    resolvedByUser: Option<bool>, output: Option<string>, lastJob: Option<JobData>)

  const NO_UPDATE := Update(None, None, None, None, None, None, None)

  function OrElse<T>(o: Option<T>, otherwise: T): T {
    if o.Some? then o.value else otherwise
  }

  /** The record with the given attributes replaced. */
  function Applied(wf: Workflow, u: Update): Workflow {
    wf.(lastUpdated := OrElse(u.lastUpdated, wf.lastUpdated), status := OrElse(u.status, wf.status),
        statusReason := OrElse(u.statusReason, wf.statusReason), stoppedAt := OrElse(u.stoppedAt, wf.stoppedAt),
        resolvedByUser := OrElse(u.resolvedByUser, wf.resolvedByUser), output := OrElse(u.output, wf.output),
        lastJob := if u.lastJob.Some? then u.lastJob else wf.lastJob)
  }

  /** The update would take a terminal record back to a non-terminal status. */
  predicate Backwards(wf: Workflow, u: Update) {
    u.status.Some? && TerminalState(wf.status) && !TerminalState(u.status.value)
  }

  datatype StoreError = NotFound(id: Id) | Conflict(id: Id) | TerminalToNonTerminal | NoUpdatesProvided
                      | InvalidPageToken | NoSuchItem(id: Id)

  type Workflows = map<Id, Workflow>

  class MemoryStore {
    var workflows: Workflows

    constructor ()
      ensures workflows == map[]
    {
      workflows := map[];
    }

    method SaveWorkflow(wf: Workflow, now: Time) returns (r: Result<(), StoreError>)
      modifies this
      ensures r == if wf.id in old(workflows) then Failure(Conflict(wf.id)) else Success(())
      ensures workflows == if r.Success? then old(workflows)[wf.id := wf.(createdAt := now, lastUpdated := now)]
                           else old(workflows)
    {
      if wf.id in workflows {
        return Failure(Conflict(wf.id));
      }
      var saved := wf.(createdAt := now);
      saved := saved.(lastUpdated := saved.createdAt);
      workflows := workflows[wf.id := saved];
      return Success(());
    }

    method UpdateWorkflow(wf: Workflow, now: Time) returns (r: Result<(), StoreError>)
      modifies this
      ensures r == if wf.id in old(workflows) then Success(()) else Failure(NotFound(wf.id))
      ensures workflows == if r.Success? then old(workflows)[wf.id := wf.(lastUpdated := now)] else old(workflows)
    {
      if wf.id !in workflows {
        return Failure(NotFound(wf.id));
      }
      workflows := workflows[wf.id := wf.(lastUpdated := now)];
      return Success(());
    }

    method DeleteWorkflowByID(id: Id) returns (r: Result<(), StoreError>)
      modifies this
      ensures r == if id in old(workflows) then Success(()) else Failure(NotFound(id))
      ensures workflows == old(workflows) - {id}
    {
      if id !in workflows {
        return Failure(NotFound(id));
      }
      workflows := workflows - {id};
      return Success(());
    }

    method GetWorkflowByID(id: Id) returns (r: Result<Workflow, StoreError>)
      ensures r == if id in workflows then Success(workflows[id]) else Failure(NotFound(id))
    {
      if id !in workflows {
        return Failure(NotFound(id));
      }
      return Success(workflows[id]);
    }

    /** A refused update leaves the whole store as it was, the attributes it carries besides the status
        included. */
    method UpdateWorkflowAttributes(id: Id, u: Update) returns (r: Result<(), StoreError>)
      modifies this
      ensures r == MemoryUpdate(old(workflows), id, u).1 && workflows == MemoryUpdate(old(workflows), id, u).0
      ensures r.Failure? ==> workflows == old(workflows)
      ensures r.Failure? <==>
                || id !in old(workflows)
                || ((u.status == Some(WorkflowQueued) || u.status == Some(WorkflowRunning))
                    && old(workflows)[id].status != WorkflowQueued && old(workflows)[id].status != WorkflowRunning)
    {
      if id !in workflows {
        return Failure(NotFound(id));
      }
      var wf := workflows[id];
      wf := wf.(lastUpdated := OrElse(u.lastUpdated, wf.lastUpdated));
      if u.status.Some? {
        TerminalMeans(wf.status);
        TerminalMeans(u.status.value);
        if TerminalState(wf.status) && !TerminalState(u.status.value) {
          return Failure(TerminalToNonTerminal);
        }
        wf := wf.(status := u.status.value);
      }
      wf := wf.(statusReason := OrElse(u.statusReason, wf.statusReason));
      wf := wf.(stoppedAt := OrElse(u.stoppedAt, wf.stoppedAt));
      wf := wf.(resolvedByUser := OrElse(u.resolvedByUser, wf.resolvedByUser));
      wf := wf.(output := OrElse(u.output, wf.output));
      if u.lastJob.Some? {
        wf := wf.(lastJob := u.lastJob);
      }
      workflows := workflows[id := wf];
      return Success(());
    }
  }

  function MemoryUpdate(workflows: Workflows, id: Id, u: Update): (Workflows, Result<(), StoreError>) {
    if id !in workflows then (workflows, Failure(NotFound(id)))
    else if Backwards(workflows[id], u) then (workflows, Failure(TerminalToNonTerminal))
    else (workflows[id := Applied(workflows[id], u)], Success(()))
  }

  // ---------- the same update against DynamoDB ----------

  datatype Condition = NotEqual(status: WorkflowStatus) | And(left: Condition, right: Condition)

  predicate Holds(c: Condition, status: WorkflowStatus) {
    match c
    case NotEqual(s) => status != s
    case And(a, b) => Holds(a, status) && Holds(b, status)
  }

  /** Builds the condition expression term by term; it holds of exactly the non-terminal statuses. */
  method NotTerminalStateCondition() returns (condition: Condition)
    ensures forall s :: Holds(condition, s) <==> s == WorkflowQueued || s == WorkflowRunning
  {
    condition := NotEqual(TERMINAL_STATES[0]);
    for i := 1 to |TERMINAL_STATES|
      invariant forall s :: Holds(condition, s) <==> s !in TERMINAL_STATES[..i]
    {
      assert TERMINAL_STATES[..i + 1] == TERMINAL_STATES[..i] + [TERMINAL_STATES[i]];
      condition := And(condition, NotEqual(TERMINAL_STATES[i]));
    }
    assert TERMINAL_STATES[..|TERMINAL_STATES|] == TERMINAL_STATES;
  }

  /** `UpdateItem`: one atomic conditional update. The condition is only sent with a non-terminal status, an
      update that sets nothing is refused by the expression builder, and an attribute inside a workflow
      cannot be set where no workflow is stored. */
  method DynamoUpdate(workflows: Workflows, id: Id, u: Update) returns (after: Workflows, r: Result<(), StoreError>)
    ensures u == NO_UPDATE ==> after == workflows && r == Failure(NoUpdatesProvided)
    ensures u != NO_UPDATE && id !in workflows ==> after == workflows && r == Failure(NoSuchItem(id))
    ensures u != NO_UPDATE && id in workflows ==> (after, r) == MemoryUpdate(workflows, id, u)
  {
    if u == NO_UPDATE {
      return workflows, Failure(NoUpdatesProvided);
    }
    if id !in workflows {
      return workflows, Failure(NoSuchItem(id));
    }
    var wf := workflows[id];
    if u.status.Some? && !TerminalState(u.status.value) {
      var condition := NotTerminalStateCondition();
      if !Holds(condition, wf.status) {
        return workflows, Failure(TerminalToNonTerminal);
      }
    }
    return workflows[id := Applied(wf, u)], Success(());
  }

  /** The store after a sequence of attribute updates, refused ones included. */
  function Updated(workflows: Workflows, updates: seq<(Id, Update)>): Workflows {
    if updates == [] then workflows
    else
      var last := updates[|updates| - 1];
      MemoryUpdate(Updated(workflows, updates[..|updates| - 1]), last.0, last.1).0
  }

  /** Over any sequence of attribute updates, of any workflows, a terminal status never becomes
      non-terminal and no workflow comes or goes. */
  lemma {:induction false} UpdatesKeepTerminal(workflows: Workflows, updates: seq<(Id, Update)>, id: Id)
    ensures Updated(workflows, updates).Keys == workflows.Keys
    ensures id in workflows && workflows[id].status != WorkflowQueued && workflows[id].status != WorkflowRunning ==>
      var status := Updated(workflows, updates)[id].status; status != WorkflowQueued && status != WorkflowRunning
  {
    if updates != [] {
      UpdatesKeepTerminal(workflows, updates[..|updates| - 1], id);
      hide Applied;
      var last := updates[|updates| - 1];
      AppliedKeepsTerminal(Updated(workflows, updates[..|updates| - 1]), last.0, last.1, id);
    }
  }

  lemma AppliedKeepsTerminal(workflows: Workflows, id: Id, u: Update, other: Id)
    ensures MemoryUpdate(workflows, id, u).0.Keys == workflows.Keys
    ensures other in workflows && TerminalState(workflows[other].status) ==>
              TerminalState(MemoryUpdate(workflows, id, u).0[other].status)
  {
  }
}
