/** How far the promise of default retriers reaches. The comment on `stateMachineWithDefaultRetriers`
    speaks of every state and of any Task state; the code writes the states of the top level only. */
module Retriers {
  import opened Wrappers
  import opened StateMachines
  import opened Expansion

  /** The fields of every state have the property, at every depth. */
  ghost predicate Everywhere(m: Machine, p: StateInfo -> bool)
    decreases m, 1
  {
    forall n :: n in m.states ==> p(m.states[n].info) && NestedEverywhere(m.states[n], p)
  }

  ghost predicate NestedEverywhere(s: State, p: StateInfo -> bool)
    decreases s, 0
  {
    forall i :: 0 <= i < |Nested(s)| ==> Everywhere(Nested(s)[i], p)
  }

  predicate RetriesIfTask(s: StateInfo) {
    s.typ.Task? ==> HasCommandTerminated(UserRetriers(s))
  }

  predicate HasRetryList(s: StateInfo) {
    s.retry.Some?
  }

  /** Any Task state, wherever it is, is retried when its command is terminated. */
  ghost predicate AllTasksRetry(m: Machine) {
    Everywhere(m, RetriesIfTask)
  }

  ghost predicate NestedTasksRetry(s: State) {
    NestedEverywhere(s, RetriesIfTask)
  }

  /** No state, wherever it is, has a nil retry list. */
  ghost predicate AllListsAreSet(m: Machine) {
    Everywhere(m, HasRetryList)
  }

  ghost predicate NestedListsAreSet(s: State) {
    NestedEverywhere(s, HasRetryList)
  }

  lemma ShallowEverywhere(m: Machine, f: StateInfo -> StateInfo, p: StateInfo -> bool)
    requires KeepsShape(f) && forall s :: p(f(s))
    ensures Everywhere(Shallow(m, f), p) <==> forall n :: n in m.states ==> NestedEverywhere(m.states[n], p)
  {
    var r := Shallow(m, f);
    forall n | n in m.states
      ensures p(r.states[n].info) && (NestedEverywhere(r.states[n], p) <==> NestedEverywhere(m.states[n], p))
    {
      assert Shape(f(m.states[n].info)) == Shape(m.states[n].info);
      assert Nested(r.states[n]) == Nested(m.states[n]);
    }
  }

  lemma {:induction false} DeepEverywhere(m: Machine, f: StateInfo -> StateInfo, p: StateInfo -> bool)
    requires KeepsShape(f) && forall s :: p(f(s)) <==> p(s)
    ensures Everywhere(Deep(m, f), p) <==> Everywhere(m, p)
    decreases m, 1
  {
    forall n | n in m.states
      ensures NestedEverywhere(DeepState(m.states[n], f), p) <==> NestedEverywhere(m.states[n], p) {
      DeepStateEverywhere(m.states[n], f, p);
    }
    hide NestedEverywhere;
  }

  lemma {:induction false} DeepStateEverywhere(s: State, f: StateInfo -> StateInfo, p: StateInfo -> bool)
    requires KeepsShape(f) && forall s :: p(f(s)) <==> p(s)
    ensures NestedEverywhere(DeepState(s, f), p) <==> NestedEverywhere(s, p)
    decreases s, 0
  {
    hide Everywhere;
    var d := DeepState(s, f);
    forall i | 0 <= i < |Nested(s)| ensures Everywhere(Nested(d)[i], p) <==> Everywhere(Nested(s)[i], p) {
      DeepEverywhere(Nested(s)[i], f, p);
    }
  }

  /** After injection any Task state retries, and no retry list is nil, exactly when that was so in every
      nested machine before: the top level is always served, the levels below never. */
  lemma PromisesHoldExactly(m: Machine)
    ensures AllTasksRetry(WithDefaultRetriers(m)) <==> forall n :: n in m.states ==> NestedTasksRetry(m.states[n])
    ensures AllListsAreSet(WithDefaultRetriers(m)) <==> forall n :: n in m.states ==> NestedListsAreSet(m.states[n])
  {
    hide Everywhere, NestedEverywhere;
    forall s ensures RetriesIfTask(WithRetriersInfo(s)) {
      InjectedOnce(s);
    }
    ShallowEverywhere(m, WithRetriersInfo, RetriesIfTask);
    ShallowEverywhere(m, WithRetriersInfo, HasRetryList);
  }

  lemma ExpandedInfoKeeps(s: StateInfo, env: Env)
    ensures Shape(ExpandedInfo(s, env)) == Shape(s)
    ensures RetriesIfTask(ExpandedInfo(s, env)) <==> RetriesIfTask(s)
    ensures HasRetryList(ExpandedInfo(s, env)) <==> HasRetryList(s)
  {
    assert ExpandedInfo(s, env).retry == s.retry && ExpandedInfo(s, env).typ == s.typ;
    hide ExpandedInfo;
  }

  lemma DeepKeepsRetries(m: Machine, f: StateInfo -> StateInfo, n: string)
    requires n in m.states && forall s :: Shape(f(s)) == Shape(s)
    requires forall s :: (RetriesIfTask(f(s)) <==> RetriesIfTask(s)) && (HasRetryList(f(s)) <==> HasRetryList(s))
    ensures NestedTasksRetry(Deep(m, f).states[n]) <==> NestedTasksRetry(m.states[n])
    ensures NestedListsAreSet(Deep(m, f).states[n]) <==> NestedListsAreSet(m.states[n])
  {
    assert Deep(m, f).states[n] == DeepState(m.states[n], f) && KeepsShape(f);
    hide NestedEverywhere, RetriesIfTask, HasRetryList, KeepsShape, Deep, DeepState, Shape;
    DeepStateEverywhere(m.states[n], f, RetriesIfTask);
    DeepStateEverywhere(m.states[n], f, HasRetryList);
  }

  lemma ExpansionKeepsRetries(m: Machine, env: Env, n: string)
    requires n in m.states
    ensures Expanded(m, env).states.Keys == m.states.Keys
    ensures NestedTasksRetry(Expanded(m, env).states[n]) <==> NestedTasksRetry(m.states[n])
    ensures NestedListsAreSet(Expanded(m, env).states[n]) <==> NestedListsAreSet(m.states[n])
  {
    var f := s => ExpandedInfo(s, env);
    assert Expanded(m, env) == Deep(m, f);
    hide *;
    forall s
      ensures Shape(f(s)) == Shape(s)
      ensures (RetriesIfTask(f(s)) <==> RetriesIfTask(s)) && (HasRetryList(f(s)) <==> HasRetryList(s))
    {
      ExpandedInfoKeeps(s, env);
    }
    DeepKeepsRetries(m, f, n);
  }

  lemma SfnMachineIs(m: Machine, env: Env)
    ensures SfnMachine(m, env) == WithDefaultRetriers(Expanded(m, env)) && Expanded(m, env).states.Keys == m.states.Keys
  {
  }

  /** The machine handed to SFN keeps the promises exactly when the definition keeps them below its top
      level. */
  lemma SfnMachineKeepsPromises(m: Machine, env: Env)
    ensures AllTasksRetry(SfnMachine(m, env)) <==> forall n :: n in m.states ==> NestedTasksRetry(m.states[n])
    ensures AllListsAreSet(SfnMachine(m, env)) <==> forall n :: n in m.states ==> NestedListsAreSet(m.states[n])
  {
    hide *;
    SfnMachineIs(m, env);
    PromisesHoldExactly(Expanded(m, env));
    forall n | n in m.states
      ensures NestedTasksRetry(Expanded(m, env).states[n]) <==> NestedTasksRetry(m.states[n])
      ensures NestedListsAreSet(Expanded(m, env).states[n]) <==> NestedListsAreSet(m.states[n])
    {
      ExpansionKeepsRetries(m, env, n);
    }
  }

  function PlainInfo(typ: StateType): StateInfo {
    StateInfo(typ, "", true, [], [], "", "work", None, None, WaitFields(0, "", "", ""), "")
  }

  const ONE_TASK := Machine("t", map["t" := State(PlainInfo(Task), [], None)])
  const ONE_BRANCH := Machine("p", map["p" := State(PlainInfo(Parallel), [ONE_TASK], None)])

  lemma OneBranchLacksThem()
    ensures "p" in ONE_BRANCH.states
    ensures !NestedTasksRetry(ONE_BRANCH.states["p"]) && !NestedListsAreSet(ONE_BRANCH.states["p"])
  {
    var s := ONE_BRANCH.states["p"];
    assert Nested(s)[0] == ONE_TASK;
    assert !RetriesIfTask(ONE_TASK.states["t"].info) && !HasRetryList(ONE_TASK.states["t"].info);
    hide NestedEverywhere;
    assert !Everywhere(ONE_TASK, RetriesIfTask) && !Everywhere(ONE_TASK, HasRetryList);
    hide Everywhere, ONE_TASK;
    LacksNested(s, RetriesIfTask);
    LacksNested(s, HasRetryList);
  }

  lemma LacksNested(s: State, p: StateInfo -> bool)
    requires Nested(s) != [] && !Everywhere(Nested(s)[0], p)
    ensures !NestedEverywhere(s, p)
  {
    hide Everywhere;
  }

  /** A Task in a branch of a Parallel state gets neither retrier nor retry list. */
  lemma BranchesAreNotServed(env: Env)
    ensures !AllTasksRetry(WithDefaultRetriers(ONE_BRANCH)) && !AllListsAreSet(WithDefaultRetriers(ONE_BRANCH))
    ensures !AllTasksRetry(SfnMachine(ONE_BRANCH, env)) && !AllListsAreSet(SfnMachine(ONE_BRANCH, env))
  {
    hide *;
    OneBranchLacksThem();
    PromisesHoldExactly(ONE_BRANCH);
    SfnMachineKeepsPromises(ONE_BRANCH, env);
  }
}
