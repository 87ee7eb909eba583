/** What every run of the lifecycle keeps. */
module LifecycleRuns {
  import opened Wrappers
  import opened Replay
  import opened StateMachines
  import opened PruningMeaning
  import opened WorkflowStore
  import opened EventConsumer
  import opened Lifecycle

  // ---------- invariants ----------

  ghost predicate RecordInv(s: System, id: Id)
    requires id in s.workflows
  {
    var wf := s.workflows[id];
    && wf.id == id && id != "" && id in s.executions
    && wf.createdAt < s.clock
    && (id in s.doomed ==> wf.retryFor == "")
    && Accepted(wf.machine)
  }

  /** The retry at position `i` of a list is a stored, later workflow that names its original, and is
      listed there once. */
  ghost predicate RetryInv(ws: Workflows, id: Id, i: nat)
    requires id in ws && i < |ws[id].retries|
  {
    var child := ws[id].retries[i];
    && child in ws && ws[child].retryFor == id && ws[child].createdAt > ws[id].createdAt
    && forall j :: 0 <= j < |ws[id].retries| && ws[id].retries[j] == child ==> j == i
  }

  ghost predicate Forest(ws: Workflows) {
    forall id, i :: id in ws && 0 <= i < |ws[id].retries| ==> RetryInv(ws, id, i)
  }

  ghost predicate Inv(s: System) {
    && s.doomed <= s.executions.Keys
    && (forall id :: id in s.workflows ==> RecordInv(s, id))
    && Forest(s.workflows)
  }

  // ---------- steps that touch one record ----------

  /** What a record keeps for life. */
  predicate SameKin(a: Workflow, b: Workflow) {
    a.id == b.id && a.createdAt == b.createdAt && a.retries == b.retries && a.retryFor == b.retryFor
    && a.machine == b.machine
  }

  /** The same workflows, each with its kin as before. */
  ghost predicate Calm(s: System, t: System) {
    && s.workflows.Keys == t.workflows.Keys && s.executions.Keys <= t.executions.Keys && t.doomed == s.doomed
    && s.clock <= t.clock
    && forall id :: id in s.workflows ==> SameKin(s.workflows[id], t.workflows[id])
  }

  predicate IsCalm(step: Step) {
    !step.Create? && !step.DeleteDoomed? && !step.Resume?
  }

  lemma CancelledIsCalm(s: System, id: Id, reason: string, stopped: bool)
    requires id in s.workflows ==> s.workflows[id].id == id
    ensures Calm(s, Cancelled(s, id, reason, stopped))
  {
  }

  lemma RefreshedIsCalm(s: System, step: Step)
    requires step.RefreshSummary? && (step.id in s.workflows ==> s.workflows[step.id].id == step.id)
    ensures Calm(s, Refreshed(s, step))
  {
    hide WorkflowIsDone;
  }

  lemma WithHistoryIsCalm(s: System, id: Id, history: HistoryOutcome)
    requires id in s.workflows ==> s.workflows[id].id == id
    ensures Calm(s, WithHistory(s, id, history))
    ensures WithHistory(s, id, history).executions == s.executions && WithHistory(s, id, history).clock == s.clock
  {
  }

  lemma ResolvedIsCalm(s: System, id: Id)
    requires id in s.workflows ==> s.workflows[id].id == id
    ensures Calm(s, Resolved(s, id))
  {
  }

  lemma DeliveredIsCalm(s: System, d: Delivery)
    ensures Calm(s, Delivered(s, d))
  {
    hide ExecOf, TerminalUpdate, UpdateFor;
  }

  lemma IdsAreKeys(s: System, id: Id)
    requires Inv(s) && id in s.workflows
    ensures s.workflows[id].id == id && id != "" && id in s.executions
  {
    assert RecordInv(s, id);
  }

  lemma CalmSteps(s: System, step: Step)
    requires Inv(s) && Enabled(s, step) && IsCalm(step)
    ensures Calm(s, Effect(s, step))
  {
    hide Inv, Enabled, Cancelled, Refreshed, WithHistory, Resolved, Delivered;
    forall id | id in s.workflows ensures s.workflows[id].id == id {
      IdsAreKeys(s, id);
    }
    match step
    case Cancel(id, reason, stopped) => CancelledIsCalm(s, id, reason, stopped);
    case RefreshSummary(_, _, _, _, _) => RefreshedIsCalm(s, step);
    case RefreshHistory(id, history) => WithHistoryIsCalm(s, id, history);
    case Resolve(id) => ResolvedIsCalm(s, id);
    case Deliver(d) => DeliveredIsCalm(s, d);
    case _ =>
  }

  /** A retry stays in order when its list and the two records keep what the order is about. */
  lemma KeepsRetry(ws: Workflows, ws': Workflows, id: Id, i: nat)
    requires id in ws && i < |ws[id].retries| && RetryInv(ws, id, i)
    requires id in ws' && ws'[id].retries == ws[id].retries && ws'[id].createdAt == ws[id].createdAt
    requires var child := ws[id].retries[i];
             child in ws' && ws'[child].retryFor == ws[child].retryFor && ws'[child].createdAt == ws[child].createdAt
    ensures RetryInv(ws', id, i)
  {
  }

  lemma ChildOf(s: System, id: Id, i: nat) returns (child: Id)
    requires Inv(s) && id in s.workflows && i < |s.workflows[id].retries|
    ensures child == s.workflows[id].retries[i] && child in s.workflows && s.workflows[child].retryFor == id
    ensures RetryInv(s.workflows, id, i)
  {
    child := s.workflows[id].retries[i];
    assert RetryInv(s.workflows, id, i);
  }

  lemma CalmKeepsInv(s: System, t: System)
    requires Inv(s) && Calm(s, t)
    ensures Inv(t)
  {
    hide Accepted;
    forall id | id in t.workflows ensures RecordInv(t, id) {
      assert RecordInv(s, id);
    }
    hide RecordInv, RetryInv;
    forall id, i | id in t.workflows && 0 <= i < |t.workflows[id].retries| ensures RetryInv(t.workflows, id, i) {
      var child := ChildOf(s, id, i);
      KeepsRetry(s.workflows, t.workflows, id, i);
    }
  }

  // ---------- steps that add or remove a workflow ----------

  lemma CreatedKeepsInv(s: System, id: Id, name: string, machine: Machine, started: bool)
    requires Inv(s) && Fresh(s, id) && Accepted(machine)
    ensures Inv(Ticked(WithNew(s, id, name, machine, started)))
  {
    var t := Ticked(WithNew(s, id, name, machine, started));
    hide Accepted;
    forall k | k in t.workflows ensures RecordInv(t, k) {
      if k != id { assert RecordInv(s, k); }
    }
    assert id !in s.workflows by {
      assert id in s.workflows ==> RecordInv(s, id);
    }
    hide RecordInv, RetryInv;
    forall k, i | k in t.workflows && 0 <= i < |t.workflows[k].retries| ensures RetryInv(t.workflows, k, i) {
      var child := ChildOf(s, k, i);
      KeepsRetry(s.workflows, t.workflows, k, i);
    }
  }

  /** A doomed workflow is nobody's retry, so deleting it leaves no gap in any list. */
  lemma DeletedKeepsInv(s: System, id: Id)
    requires Inv(s) && id in s.doomed
    ensures Inv(Ticked(Deleted(s, id)))
  {
    var t := Ticked(Deleted(s, id));
    hide Accepted, RetryInv;
    forall k | k in t.workflows ensures RecordInv(t, k) {
      assert RecordInv(s, k);
    }
    forall k, i | k in t.workflows && 0 <= i < |t.workflows[k].retries| ensures RetryInv(t.workflows, k, i) {
      var child := ChildOf(s, k, i);
      assert RecordInv(s, child) && RecordInv(s, k);
      KeepsRetry(s.workflows, t.workflows, k, i);
    }
  }

  /** Everything about the new pair of records that the order of retries needs. */
  lemma WithRetryShape(s: System, id: Id, startAt: string, newId: Id, started: bool)
    requires Inv(s) && id in s.workflows && Fresh(s, newId)
    ensures var t := WithRetry(s, id, startAt, newId, started);
            && newId !in s.workflows && newId != id
            && t.workflows.Keys == s.workflows.Keys + {newId} && t.executions.Keys == s.executions.Keys + {newId}
            && t.doomed == s.doomed && s.doomed <= s.executions.Keys && t.clock == s.clock
            && t.workflows[newId].id == newId && t.workflows[newId].retryFor == id
            && t.workflows[newId].createdAt == s.clock && t.workflows[newId].retries == []
            && t.workflows[newId].status == WorkflowQueued
            && t.workflows[newId].machine == Pruned(s.workflows[id].machine.(startAt := startAt))
            && t.workflows[id] == s.workflows[id].(retries := s.workflows[id].retries + [newId], lastUpdated := s.clock)
            && forall k :: k in s.workflows && k != id ==> t.workflows[k] == s.workflows[k]
  {
    hide Accepted, Pruned;
    assert RecordInv(s, id);
    assert newId in s.workflows ==> RecordInv(s, newId);
  }

  lemma WithRetryKeepsInv(s: System, id: Id, startAt: string, newId: Id, started: bool)
    requires Inv(s) && id in s.workflows && Fresh(s, newId) && startAt in s.workflows[id].machine.states
    ensures Inv(Ticked(WithRetry(s, id, startAt, newId, started)))
  {
    hide Inv, Fresh, WithRetry;
    WithRetryShape(s, id, startAt, newId, started);
    var t := Ticked(WithRetry(s, id, startAt, newId, started));
    WithRetryKeepsForest(s, id, newId, t.workflows);
    forall k | k in t.workflows ensures RecordInv(t, k) {
      WithRetryRecord(s, id, startAt, newId, started, k);
    }
    InvOf(t);
  }

  lemma InvOf(s: System)
    requires forall id :: id in s.workflows ==> RecordInv(s, id)
    requires Forest(s.workflows) && s.doomed <= s.executions.Keys
    ensures Inv(s)
  {
  }

  lemma WithRetryRecord(s: System, id: Id, startAt: string, newId: Id, started: bool, k: Id)
    requires Inv(s) && id in s.workflows && Fresh(s, newId) && startAt in s.workflows[id].machine.states
    requires k in WithRetry(s, id, startAt, newId, started).workflows
    ensures RecordInv(Ticked(WithRetry(s, id, startAt, newId, started)), k)
  {
    hide *;
    WithRetryShape(s, id, startAt, newId, started);
    RetryMachineIsAccepted(s, id, startAt);
    var t := WithRetry(s, id, startAt, newId, started);
    if k == newId {
      FreshIsNotDoomed(s, newId);
      NewRecord(t, newId);
    } else {
      OldRecord(s, t, k, newId);
    }
  }

  lemma RetryMachineIsAccepted(s: System, id: Id, startAt: string)
    requires Inv(s) && id in s.workflows && startAt in s.workflows[id].machine.states
    ensures Accepted(Pruned(s.workflows[id].machine.(startAt := startAt)))
  {
    assert RecordInv(s, id);
    hide Inv, Sound, NilFreeState;
    var m := s.workflows[id].machine;
    ResumeNeverFailsToPrune(m, startAt);
    assert NilFree(m.(startAt := startAt));
    PrunedIsNilFree(m.(startAt := startAt));
  }

  lemma FreshIsNotDoomed(s: System, newId: Id)
    requires Inv(s) && Fresh(s, newId)
    ensures newId !in s.doomed && newId != ""
  {
  }

  lemma NewRecord(t: System, newId: Id)
    requires newId in t.workflows && newId in t.executions && newId !in t.doomed && newId != ""
    requires t.workflows[newId].id == newId && t.workflows[newId].createdAt == t.clock
    requires Accepted(t.workflows[newId].machine)
    ensures RecordInv(Ticked(t), newId)
  {
  }

  lemma OldRecord(s: System, t: System, k: Id, newId: Id)
    requires Inv(s) && k in s.workflows && k in t.workflows
    requires t.executions.Keys == s.executions.Keys + {newId} && t.doomed == s.doomed && t.clock == s.clock
    requires t.workflows[k] == s.workflows[k].(retries := t.workflows[k].retries,
                                               lastUpdated := t.workflows[k].lastUpdated)
    ensures RecordInv(Ticked(t), k)
  {
    assert RecordInv(s, k);
    hide Inv, Accepted;
  }

  /** `ws` is `s.workflows` with one more workflow, a retry of `id`. */
  ghost predicate AddsRetry(s: System, id: Id, newId: Id, ws: Workflows) {
    && id in s.workflows && newId !in s.workflows && newId != id
    && ws.Keys == s.workflows.Keys + {newId}
    && ws[newId].retries == [] && ws[newId].retryFor == id && ws[newId].createdAt == s.clock
    && ws[id].retries == s.workflows[id].retries + [newId]
    && ws[id].createdAt == s.workflows[id].createdAt && ws[id].retryFor == s.workflows[id].retryFor
    && forall k :: k in s.workflows && k != id ==> ws[k] == s.workflows[k]
  }

  lemma WithRetryKeepsForest(s: System, id: Id, newId: Id, ws: Workflows)
    requires Inv(s) && AddsRetry(s, id, newId, ws)
    ensures Forest(ws)
  {
    hide Inv, RetryInv;
    forall k, i | k in ws && 0 <= i < |ws[k].retries| ensures RetryInv(ws, k, i) {
      if k == newId {
      } else if k != id {
        var child := ChildOf(s, k, i);
        KeepsRetry(s.workflows, ws, k, i);
      } else {
        RetryOfRetried(s, id, newId, ws, i);
      }
    }
  }

  lemma RetryOfRetried(s: System, id: Id, newId: Id, ws: Workflows, i: nat)
    requires Inv(s) && AddsRetry(s, id, newId, ws) && i < |ws[id].retries|
    ensures RetryInv(ws, id, i)
  {
    assert RecordInv(s, id);
    var before := s.workflows[id].retries;
    forall j | 0 <= j < |before| ensures before[j] in s.workflows {
      assert RetryInv(s.workflows, id, j);
    }
    hide Inv, RecordInv, RetryInv, Forest;
    if i < |before| {
      var child := ChildOf(s, id, i);
      EarlierRetry(s.workflows, ws, id, i, newId);
    } else {
      LastRetry(ws, id, i);
    }
  }

  lemma EarlierRetry(ws: Workflows, ws': Workflows, id: Id, i: nat, newId: Id)
    requires id in ws && i < |ws[id].retries| && RetryInv(ws, id, i)
    requires id in ws' && ws'[id].retries == ws[id].retries + [newId] && ws'[id].createdAt == ws[id].createdAt
    requires var child := ws[id].retries[i];
             child != newId && child in ws'
             && ws'[child].retryFor == ws[child].retryFor && ws'[child].createdAt == ws[child].createdAt
    ensures RetryInv(ws', id, i)
  {
  }

  lemma LastRetry(ws: Workflows, id: Id, i: nat)
    requires id in ws && i == |ws[id].retries| - 1
    requires var child := ws[id].retries[i];
             child in ws && ws[child].retryFor == id && ws[child].createdAt > ws[id].createdAt
             && forall j :: 0 <= j < i ==> ws[id].retries[j] != child
    ensures RetryInv(ws, id, i)
  {
  }

  /** The state in which a resume retries, after a possible refresh of the history. */
  ghost function BeforeRetry(s: System, step: Step): System
    requires step.Resume? && step.id in s.workflows
  {
    if NeedsHistory(s.workflows[step.id], step.startAt) then WithHistory(s, step.id, step.history) else s
  }

  /** A resume does nothing, or refreshes the history, or goes on to retry. */
  lemma ResumedCases(s: System, step: Step)
    requires step.Resume?
    ensures || Resumed(s, step) == s
            || (MayResume(s.workflows, step.id, step.startAt)
                && var s1 := BeforeRetry(s, step);
                && step.id in s1.workflows
                && (Resumed(s, step) == s1
                    || (HasInput(s1.workflows[step.id], step.startAt)
                        && Resumed(s, step) == WithRetry(s1, step.id, step.startAt, step.newId, step.started))))
  {
    hide WithRetry, MayResume, HasInput, NeedsHistory;
    assert MayResume(s.workflows, step.id, step.startAt) ==> step.id in s.workflows by {
      StartAtIsDefined(s.workflows, step.id, step.startAt);
    }
  }

  lemma StartAtIsDefined(ws: Workflows, id: Id, startAt: string)
    ensures MayResume(ws, id, startAt) ==> id in ws && startAt in ws[id].machine.states
  {
  }

  lemma BeforeRetryIsCalm(s: System, step: Step)
    requires Inv(s) && step.Resume? && step.id in s.workflows
    ensures Calm(s, BeforeRetry(s, step)) && BeforeRetry(s, step).executions == s.executions
    ensures BeforeRetry(s, step).clock == s.clock
  {
    IdsAreKeys(s, step.id);
    hide Inv, NeedsHistory, WithHistory;
    WithHistoryIsCalm(s, step.id, step.history);
  }

  lemma TickedKeepsInv(s: System)
    requires Inv(s)
    ensures Inv(Ticked(s))
  {
    assert Calm(s, Ticked(s));
    CalmKeepsInv(s, Ticked(s));
  }

  lemma ResumedKeepsInv(s: System, step: Step)
    requires Inv(s) && step.Resume? && Fresh(s, step.newId)
    ensures Inv(Ticked(Resumed(s, step)))
  {
    hide *;
    ResumedCases(s, step);
    StartAtIsDefined(s.workflows, step.id, step.startAt);
    TickedKeepsInv(s);
    if Resumed(s, step) != s {
      BeforeRetryIsCalm(s, step);
      var s1 := BeforeRetry(s, step);
      CalmKeepsInv(s, s1);
      TickedKeepsInv(s1);
      if Resumed(s, step) != s1 {
        SameMachine(s, s1, step.id);
        SameFresh(s, s1, step.newId);
        WithRetryKeepsInv(s1, step.id, step.startAt, step.newId, step.started);
      }
    }
  }

  lemma SameMachine(s: System, t: System, id: Id)
    requires Calm(s, t) && id in s.workflows
    ensures id in t.workflows && SameKin(s.workflows[id], t.workflows[id])
    ensures t.workflows[id].machine == s.workflows[id].machine
  {
  }

  lemma SameFresh(s: System, t: System, id: Id)
    requires Fresh(s, id) && t.executions == s.executions
    ensures Fresh(t, id)
  {
  }

  lemma NextKeepsInv(s: System, step: Step)
    requires Inv(s) && Enabled(s, step)
    ensures Inv(Next(s, step))
  {
    if IsCalm(step) {
      hide Inv, Enabled, Effect;
      CalmSteps(s, step);
      assert Calm(s, Next(s, step));
      CalmKeepsInv(s, Next(s, step));
    } else {
      hide Inv, WithNew, Deleted, Resumed;
      match step
      case Create(id, name, machine, started) => CreatedKeepsInv(s, id, name, machine, started);
      case DeleteDoomed(id) => DeletedKeepsInv(s, id);
      case Resume(_, _, _, _, _, _) => ResumedKeepsInv(s, step);
    }
  }

  lemma EmptyIsInv(s: System)
    requires s.workflows == map[] && s.doomed == {}
    ensures Inv(s)
  {
  }

  lemma RunPrefix(run: seq<System>, steps: seq<Step>)
    requires IsRun(run, steps) && steps != []
    ensures IsRun(run[..|steps|], steps[..|steps| - 1])
  {
    hide IsStep;
  }

  lemma StepOfRun(run: seq<System>, steps: seq<Step>, i: nat)
    requires IsRun(run, steps) && i < |steps|
    ensures |run| == |steps| + 1 && Enabled(run[i], steps[i]) && run[i + 1] == Next(run[i], steps[i])
  {
    hide Enabled, Next;
    assert IsStep(run[i], steps[i], run[i + 1]);
  }

  lemma RunShape(run: seq<System>, steps: seq<Step>)
    requires IsRun(run, steps)
    ensures |run| == |steps| + 1 && run[0].workflows == map[] && run[0].executions == map[] && run[0].doomed == {}
  {
  }

  lemma {:induction false} RunKeepsInv(run: seq<System>, steps: seq<Step>)
    requires IsRun(run, steps)
    ensures forall i :: 0 <= i < |run| ==> Inv(run[i])
    decreases |run|
  {
    hide *;
    RunShape(run, steps);
    if |steps| == 0 {
      EmptyIsInv(run[0]);
    } else {
      var last := |steps| - 1;
      RunPrefix(run, steps);
      RunKeepsInv(run[..last + 1], steps[..last]);
      StepOfRun(run, steps, last);
      assert run[last] == run[..last + 1][last];
      NextKeepsInv(run[last], steps[last]);
    }
  }
}
