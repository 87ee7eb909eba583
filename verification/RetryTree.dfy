/** The graph of retries: a forest over every run, and the search through it that guards a resume
    (`areDescendantWorkflowsDone`). */
module RetryTree {
  import opened Wrappers
  import opened Replay
  import opened StateMachines
  import opened WorkflowStore
  import opened Lifecycle
  import opened LifecycleRuns

  // ---------- the search ----------

  /** A descendant is a retry or a descendant of a retry. */
  lemma DescendantStep(ws: Workflows, id: Id, d: Id)
    ensures IsDescendant(ws, id, d) <==> exists c :: IsRetryOf(ws, id, c) && (d == c || IsDescendant(ws, c, d))
  {
    hide IsRetryOf;
    if IsDescendant(ws, id, d) {
      var p :| |p| >= 2 && IsLineage(ws, p) && p[0] == id && p[|p| - 1] == d;
      assert IsRetryOf(ws, p[0], p[1]);
      if |p| > 2 {
        var q := p[1..];
        assert IsLineage(ws, q) && q[0] == p[1] && q[|q| - 1] == d;
      }
    }
    if c :| IsRetryOf(ws, id, c) && (d == c || IsDescendant(ws, c, d)) {
      if d == c {
        var p := [id, c];
        assert IsLineage(ws, p) && p[|p| - 1] == c;
      } else {
        var q :| |q| >= 2 && IsLineage(ws, q) && q[0] == c && q[|q| - 1] == d;
        var p := [id] + q;
        assert IsLineage(ws, p) && p[0] == id && p[|p| - 1] == d;
      }
    }
  }

  predicate Done(ws: Workflows, id: Id) {
    id in ws && WorkflowIsDone(ws[id])
  }

  lemma DescendantsDoneStep(ws: Workflows, id: Id)
    ensures DescendantsDone(ws, id)
       <==> forall c :: IsRetryOf(ws, id, c) ==> Done(ws, c) && DescendantsDone(ws, c)
  {
    hide IsDescendant, IsRetryOf, WorkflowIsDone;
    forall d ensures IsDescendant(ws, id, d) <==>
      exists c :: IsRetryOf(ws, id, c) && (d == c || IsDescendant(ws, c, d)) {
      DescendantStep(ws, id, d);
    }
  }

  /** Stored under their ids, created before `end`, and retries later than what they retry. */
  ghost predicate Ordered(ws: Workflows, end: Time) {
    && (forall id :: id in ws ==> ws[id].id == id && ws[id].createdAt < end)
    && forall id, c :: IsRetryOf(ws, id, c) && c in ws ==> ws[id].createdAt < ws[c].createdAt
  }

  /** Depth first. Over a store in which retries are later than what they retry it comes to an end; it
      says true exactly when every strict descendant is stored and done, false for a descendant that is
      not done, and fails for one that is missing. */
  method AreDescendantWorkflowsDone(s: MemoryStore, wf: Workflow, ghost end: Time) returns (r: Result<bool, StoreError>)
    requires Ordered(s.workflows, end)
    requires wf.id in s.workflows && s.workflows[wf.id] == wf
    ensures r == Success(true) <==> DescendantsDone(s.workflows, wf.id)
    ensures r == Success(false) ==>
      exists d :: IsDescendant(s.workflows, wf.id, d) && d in s.workflows && !Done(s.workflows, d)
    ensures r.Failure? ==>
      r.error.NotFound? && IsDescendant(s.workflows, wf.id, r.error.id) && r.error.id !in s.workflows
    decreases end - wf.createdAt
  {
    hide WorkflowIsDone, DescendantsDone, IsDescendant;
    DescendantsDoneStep(s.workflows, wf.id);
    for i := 0 to |wf.retries|
      invariant forall k :: 0 <= k < i ==>
        Done(s.workflows, wf.retries[k]) && DescendantsDone(s.workflows, wf.retries[k])
    {
      var childId := wf.retries[i];
      assert IsRetryOf(s.workflows, wf.id, childId);
      DescendantStep(s.workflows, wf.id, childId);
      var found := s.GetWorkflowByID(childId);
      if found.Failure? {
        return Failure(found.error);
      }
      var child := found.value;
      if !WorkflowIsDone(child) {
        return Success(false);
      }
      var descendants := AreDescendantWorkflowsDone(s, child, end);
      if descendants.Failure? || !descendants.value {
        forall d | IsDescendant(s.workflows, childId, d) ensures IsDescendant(s.workflows, wf.id, d) {
          DescendantStep(s.workflows, wf.id, d);
        }
        return descendants;
      }
    }
    return Success(true);
  }

  // ---------- the forest ----------

  /** Every retry is in the list of the workflow it retries, if that workflow is still stored. */
  ghost predicate LinkInv(s: System, id: Id)
    requires id in s.workflows
  {
    var parent := s.workflows[id].retryFor;
    parent == "" || (parent in s.executions && (parent in s.workflows ==> id in s.workflows[parent].retries))
  }

  ghost predicate Linked(s: System) {
    forall id :: id in s.workflows ==> LinkInv(s, id)
  }

  lemma CalmKeepsLinked(s: System, t: System)
    requires Linked(s) && Calm(s, t)
    ensures Linked(t)
  {
    forall id | id in t.workflows ensures LinkInv(t, id) {
      assert LinkInv(s, id) && SameKin(s.workflows[id], t.workflows[id]);
    }
  }

  lemma NewKeepsLinked(s: System, id: Id, name: string, machine: Machine, started: bool)
    requires Linked(s) && Fresh(s, id)
    ensures Linked(WithNew(s, id, name, machine, started))
  {
    var t := WithNew(s, id, name, machine, started);
    forall k | k in t.workflows ensures LinkInv(t, k) {
      assert k != id ==> LinkInv(s, k);
    }
  }

  lemma DeletedKeepsLinked(s: System, id: Id)
    requires Linked(s)
    ensures Linked(Deleted(s, id))
  {
    forall k | k in Deleted(s, id).workflows ensures LinkInv(Deleted(s, id), k) {
      assert LinkInv(s, k);
    }
  }

  lemma RetryKeepsLinked(s: System, id: Id, startAt: string, newId: Id, started: bool)
    requires Inv(s) && Linked(s) && id in s.workflows && Fresh(s, newId)
    ensures Linked(WithRetry(s, id, startAt, newId, started))
  {
    IdsAreKeys(s, id);
    assert newId !in s.executions;
    hide Inv, Fresh, WithRetry;
    WithRetryShape(s, id, startAt, newId, started);
    var t := WithRetry(s, id, startAt, newId, started);
    forall k | k in t.workflows ensures LinkInv(t, k) {
      if k == newId {
        assert t.workflows[id].retries[|s.workflows[id].retries|] == newId;
      } else {
        OldLink(s, t, id, newId, k);
      }
    }
  }

  lemma OldLink(s: System, t: System, id: Id, newId: Id, k: Id)
    requires Linked(s) && id in s.workflows && k in s.workflows && newId !in s.executions
    requires t.workflows.Keys == s.workflows.Keys + {newId} && t.executions.Keys == s.executions.Keys + {newId}
    requires t.workflows[id] == s.workflows[id].(retries := s.workflows[id].retries + [newId], lastUpdated := s.clock)
    requires forall j :: j in s.workflows && j != id ==> t.workflows[j] == s.workflows[j]
    ensures LinkInv(t, k)
  {
    assert LinkInv(s, k);
    assert t.workflows[k].retryFor == s.workflows[k].retryFor;
  }

  lemma ResumedKeepsLinked(s: System, step: Step)
    requires Inv(s) && Linked(s) && step.Resume? && Fresh(s, step.newId)
    ensures Linked(Resumed(s, step))
  {
    hide *;
    ResumedCases(s, step);
    StartAtIsDefined(s.workflows, step.id, step.startAt);
    if Resumed(s, step) != s {
      var s1 := BeforeRetry(s, step);
      BeforeRetryIsCalm(s, step);
      CalmKeepsInv(s, s1);
      CalmKeepsLinked(s, s1);
      if Resumed(s, step) != s1 {
        SameMachine(s, s1, step.id);
        SameFresh(s, s1, step.newId);
        RetryKeepsLinked(s1, step.id, step.startAt, step.newId, step.started);
      }
    }
  }

  lemma NextKeepsLinked(s: System, step: Step)
    requires Inv(s) && Linked(s) && Enabled(s, step)
    ensures Linked(Next(s, step))
  {
    hide Inv, Linked, WithNew, Deleted, Resumed;
    if IsCalm(step) {
      CalmSteps(s, step);
      hide Enabled, Effect;
      CalmKeepsLinked(s, Effect(s, step));
    } else {
      match step
      case Create(id, name, machine, started) => NewKeepsLinked(s, id, name, machine, started);
      case DeleteDoomed(id) => DeletedKeepsLinked(s, id);
      case Resume(_, _, _, _, _, _) => ResumedKeepsLinked(s, step);
    }
    TickedLinked(Effect(s, step));
  }

  lemma TickedLinked(s: System)
    requires Linked(s)
    ensures Linked(Ticked(s))
  {
    forall id | id in s.workflows ensures LinkInv(Ticked(s), id) {
      assert LinkInv(s, id);
    }
  }

  lemma EmptyIsLinked(s: System)
    requires s.workflows == map[]
    ensures Linked(s)
  {
  }

  lemma {:induction false} RunKeepsLinked(run: seq<System>, steps: seq<Step>)
    requires IsRun(run, steps)
    ensures forall i :: 0 <= i < |run| ==> Linked(run[i])
    decreases |run|
  {
    hide *;
    RunShape(run, steps);
    if |steps| == 0 {
      EmptyIsLinked(run[0]);
    } else {
      var last := |steps| - 1;
      RunPrefix(run, steps);
      RunKeepsLinked(run[..last + 1], steps[..last]);
      RunKeepsInv(run, steps);
      StepOfRun(run, steps, last);
      assert run[last] == run[..last + 1][last];
      NextKeepsLinked(run[last], steps[last]);
    }
  }

  predicate AtMostOnce(s: seq<Id>, id: Id) {
    forall i, j :: 0 <= i < |s| && 0 <= j < |s| && s[i] == id && s[j] == id ==> i == j
  }

  lemma InvGivesRetry(s: System, id: Id, child: Id)
    requires Inv(s) && IsRetryOf(s.workflows, id, child)
    ensures child in s.workflows && s.workflows[child].retryFor == id
    ensures s.workflows[child].createdAt > s.workflows[id].createdAt
    ensures AtMostOnce(s.workflows[id].retries, child)
  {
    var i :| 0 <= i < |s.workflows[id].retries| && s.workflows[id].retries[i] == child;
    assert RetryInv(s.workflows, id, i);
  }

  /** In every run the retry lists are a forest: the retries of a stored workflow are exactly the stored
      workflows that name it as the one they retry, each listed once and created later. */
  lemma RetriesFormAForest(run: seq<System>, steps: seq<Step>, k: nat, id: Id, child: Id)
    requires IsRun(run, steps) && k < |run| && id in run[k].workflows
    ensures var ws := run[k].workflows;
            && (child in ws[id].retries <==> child in ws && ws[child].retryFor == id)
            && AtMostOnce(ws[id].retries, child)
            && (child in ws[id].retries ==> ws[child].createdAt > ws[id].createdAt)
  {
    RunKeepsInv(run, steps);
    RunKeepsLinked(run, steps);
    var s := run[k];
    IdsAreKeys(s, id);
    hide Inv, IsRun;
    if IsRetryOf(s.workflows, id, child) {
      InvGivesRetry(s, id, child);
    }
    assert child in s.workflows ==> LinkInv(s, child);
  }

  lemma {:induction false} LineageAges(s: System, p: seq<Id>)
    requires Inv(s) && IsLineage(s.workflows, p) && |p| >= 2
    ensures p[0] in s.workflows && p[|p| - 1] in s.workflows
    ensures s.workflows[p[0]].createdAt < s.workflows[p[|p| - 1]].createdAt
    decreases |p|
  {
    hide Inv, IsRetryOf;
    var q := p[..|p| - 1];
    assert IsRetryOf(s.workflows, p[|p| - 2], p[|p| - 1]);
    assert IsLineage(s.workflows, q);
    if |p| > 2 {
      LineageAges(s, q);
    }
    LastGeneration(s, p[|p| - 2], p[|p| - 1]);
  }

  lemma LastGeneration(s: System, id: Id, child: Id)
    requires Inv(s) && IsRetryOf(s.workflows, id, child)
    ensures id in s.workflows && child in s.workflows
    ensures s.workflows[id].createdAt < s.workflows[child].createdAt
  {
    InvGivesRetry(s, id, child);
  }

  /** Two lineages that end in the same workflow are the same as far back as the shorter one goes. */
  lemma {:induction false} LineagesNeverMeet(s: System, p: seq<Id>, q: seq<Id>)
    requires Inv(s) && IsLineage(s.workflows, p) && IsLineage(s.workflows, q)
    requires 0 < |p| <= |q| && p[|p| - 1] == q[|q| - 1]
    ensures q[|q| - |p|..] == p
    decreases |p|
  {
    hide Inv, IsRetryOf;
    if |p| > 1 {
      var p', q' := p[..|p| - 1], q[..|q| - 1];
      assert IsRetryOf(s.workflows, p[|p| - 2], p[|p| - 1]) && IsRetryOf(s.workflows, q[|q| - 2], q[|q| - 1]);
      InvGivesRetry(s, p[|p| - 2], p[|p| - 1]);
      InvGivesRetry(s, q[|q| - 2], q[|q| - 1]);
      LineagesNeverMeet(s, p', q');
      assert p == p' + [p[|p| - 1]];
      assert q[|q| - |p|..] == q'[|q'| - |p'|..] + [q[|q| - 1]];
    }
  }

  lemma NobodyDescendsFromThemselves(s: System, id: Id)
    requires Inv(s)
    ensures !IsDescendant(s.workflows, id, id)
  {
    hide Inv, IsLineage;
    if IsDescendant(s.workflows, id, id) {
      var p :| |p| >= 2 && IsLineage(s.workflows, p) && p[0] == id && p[|p| - 1] == id;
      LineageAges(s, p);
      assert false;
    }
  }

  /** What every reachable store gives the search: an order to end by, and no missing descendants. */
  lemma ReachableStoresAreSearchable(run: seq<System>, steps: seq<Step>, k: nat)
    requires IsRun(run, steps) && k < |run|
    ensures var s := run[k];
            && Ordered(s.workflows, s.clock)
            && forall id, d :: IsDescendant(s.workflows, id, d) ==> d in s.workflows && d != id
  {
    RunKeepsInv(run, steps);
    hide IsRun, IsDescendant;
    InvIsOrdered(run[k]);
    forall id, d | IsDescendant(run[k].workflows, id, d) ensures d in run[k].workflows && d != id {
      NobodyDescendsFromThemselves(run[k], id);
      DescendantsAreStored(run[k], id, d);
    }
  }

  lemma RecordAge(s: System, id: Id)
    requires Inv(s) && id in s.workflows
    ensures s.workflows[id].id == id && s.workflows[id].createdAt < s.clock
  {
    assert RecordInv(s, id);
    hide Inv;
  }

  lemma InvIsOrdered(s: System)
    requires Inv(s)
    ensures Ordered(s.workflows, s.clock)
  {
    hide Inv, IsRetryOf;
    forall id | id in s.workflows ensures s.workflows[id].id == id && s.workflows[id].createdAt < s.clock {
      RecordAge(s, id);
    }
    forall id, c | IsRetryOf(s.workflows, id, c)
      ensures id in s.workflows && c in s.workflows && s.workflows[id].createdAt < s.workflows[c].createdAt
    {
      LastGeneration(s, id, c);
    }
  }

  lemma DescendantsAreStored(s: System, id: Id, d: Id)
    requires Inv(s) && IsDescendant(s.workflows, id, d)
    ensures d in s.workflows
  {
    hide Inv, IsLineage;
    var p :| |p| >= 2 && IsLineage(s.workflows, p) && p[0] == id && p[|p| - 1] == d;
    LineageAges(s, p);
  }
}
