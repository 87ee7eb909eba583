/** From a workflow definition's machine to the machine sent to SFN (`executor/workflow_manager_sfn.go`):
    full resource names and parameters at every depth, default retriers on the states of the top level. */
module Expansion {
  import opened Wrappers
  import opened Strings
  import opened StateMachines

  const EXECUTION_NAME_KEY := "_EXECUTION_NAME.$"
  const EXECUTION_NAME_PATH := "$._EXECUTION_NAME"
  const JOB_NAME_FIELD := "JobName"
  const COMMAND_TERMINATED := "sfncli.CommandTerminated"
  const DEFAULT_RETRIER := Retrier([COMMAND_TERMINATED], 10, 1, 10)

  datatype Env = Env(region: string, accountID: string, namespace: string)

  function SFNCLIResource(resource: string, env: Env): string {
    "arn:aws:states:" + env.region + ":" + env.accountID + ":activity:" + env.namespace + "--" + resource
  }

  function LambdaResource(resource: string, env: Env): string {
    "arn:aws:lambda:" + env.region + ":" + env.accountID + ":function:" + env.namespace + "--"
      + TrimPrefix(resource, "lambda:")
  }

  const GLUE_RESOURCE := "arn:aws:states:::glue:startJobRun.sync"

  function GlueJobName(resource: string, env: Env): string {
    env.namespace + "--" + TrimPrefix(resource, "glue:")
  }

  function OrEmpty(parameters: Option<map<string, string>>): map<string, string> {
    if parameters.Some? then parameters.value else map[]
  }

  function ExpandedInfo(s: StateInfo, env: Env): StateInfo {
    match s.typ
    case Map =>
      var p := OrEmpty(s.parameters);
      s.(parameters := Some(if EXECUTION_NAME_KEY in p then p else p[EXECUTION_NAME_KEY := EXECUTION_NAME_PATH]))
    case Task =>
      if HasPrefix(s.resource, "lambda:") then s.(resource := LambdaResource(s.resource, env))
      else if HasPrefix(s.resource, "glue:") then
        s.(resource := GLUE_RESOURCE,
           parameters := Some(OrEmpty(s.parameters)[JOB_NAME_FIELD := GlueJobName(s.resource, env)]))
      else s.(resource := SFNCLIResource(s.resource, env))
    case _ => s
  }

  // ---------- rewriting state fields ----------

  /** What pruning looks at in a state. */
  function Shape(s: StateInfo): (StateType, string, bool, seq<string>, seq<string>, string) {
    (s.typ, s.next, s.end, s.catches, s.choices, s.defaultNext)
  }

  ghost predicate KeepsShape(f: StateInfo -> StateInfo) {
    forall s :: Shape(f(s)) == Shape(s)
  }

  /** Rewrites the fields of every state, at every depth. */
  ghost function Deep(m: Machine, f: StateInfo -> StateInfo): (r: Machine)
    ensures r.startAt == m.startAt && r.states.Keys == m.states.Keys
    ensures forall n :: n in m.states ==> r.states[n] == DeepState(m.states[n], f)
    decreases m, 1
  {
    Machine(m.startAt, map n | n in m.states :: DeepState(m.states[n], f))
  }

  ghost function DeepState(s: State, f: StateInfo -> StateInfo): (r: State)
    ensures r.info == f(s.info)
    ensures Shape(r.info) == Shape(s.info) ==>
              |Nested(r)| == |Nested(s)| && forall i :: 0 <= i < |Nested(s)| ==> Nested(r)[i] == Deep(Nested(s)[i], f)
    decreases s, 0
  {
    match s.info.typ
    case Parallel =>
      State(f(s.info), seq(|s.branches|, i requires 0 <= i < |s.branches| => Deep(s.branches[i], f)), s.iter)
    case Map =>
      State(f(s.info), s.branches,
            match s.iter
            case None => None
            case Some(it) => Some(Deep(it, f)))
    case _ => s.(info := f(s.info))
  }

  /** Rewrites the fields of the states of the top level only. */
  function Shallow(m: Machine, f: StateInfo -> StateInfo): (r: Machine)
    ensures r.startAt == m.startAt && r.states.Keys == m.states.Keys
  {
    Machine(m.startAt, map n | n in m.states :: m.states[n].(info := f(m.states[n].info)))
  }

  lemma SameShapeSameTargets(a: StateInfo, b: StateInfo, defined: set<string>)
    requires Shape(a) == Shape(b)
    ensures Targets(a) == Targets(b)
    ensures HasValidTransitions(a, defined) <==> HasValidTransitions(b, defined)
  {
  }

  ghost predicate SameShapes(a: Machine, b: Machine) {
    && a.startAt == b.startAt && a.states.Keys == b.states.Keys
    && forall n :: n in a.states ==> Shape(a.states[n].info) == Shape(b.states[n].info)
  }

  lemma SameShapesReach(a: Machine, b: Machine, names: set<string>, n: string)
    requires SameShapes(a, b) && names <= a.states.Keys
    ensures Reaches(a, names, n) <==> Reaches(b, names, n)
  {
    hide Targets;
    forall p | p in names ensures Targets(a.states[p].info) == Targets(b.states[p].info) {
      SameShapeSameTargets(a.states[p].info, b.states[p].info, {});
    }
  }

  lemma SameShapesSupported(a: Machine, b: Machine, names: set<string>)
    requires SameShapes(a, b)
    ensures Supported(a, names) <==> Supported(b, names)
  {
    hide Reaches;
    if names <= a.states.Keys {
      forall n | n in names ensures Reaches(a, names, n) <==> Reaches(b, names, n) {
        SameShapesReach(a, b, names, n);
      }
    }
  }

  lemma SameShapesKept(a: Machine, b: Machine)
    requires SameShapes(a, b)
    ensures Kept(a) == Kept(b)
  {
    hide Kept, Supported;
    KeptIsGreatest(a);
    KeptIsGreatest(b);
    SameShapesSupported(a, b, Kept(a));
    SameShapesSupported(a, b, Kept(b));
  }

  lemma SameShapesCheck(a: Machine, b: Machine)
    requires SameShapes(a, b)
    ensures (forall n :: n in Kept(a) ==> HasValidTransitions(a.states[n].info, Kept(a)))
        <==> (forall n :: n in Kept(b) ==> HasValidTransitions(b.states[n].info, Kept(b)))
  {
    SameShapesKept(a, b);
    hide Kept, HasValidTransitions;
    forall n | n in Kept(a)
      ensures HasValidTransitions(a.states[n].info, Kept(a)) <==> HasValidTransitions(b.states[n].info, Kept(a))
    {
      SameShapeSameTargets(a.states[n].info, b.states[n].info, Kept(a));
    }
  }

  lemma SameVerdict(a: Machine, b: Machine)
    requires SameShapes(a, b)
    requires forall n :: n in a.states ==> (NestedPrunable(a.states[n]) <==> NestedPrunable(b.states[n]))
    ensures Prunable(a) <==> Prunable(b)
  {
    SameShapesKept(a, b);
    SameShapesCheck(a, b);
    hide Kept, HasValidTransitions, NestedPrunable;
  }

  /** Machines of the same shapes are pruned alike if their states are. */
  lemma AlikeStateByState(a: Machine, b: Machine, result: Machine)
    requires SameShapes(a, b)
    requires forall n :: n in a.states ==> (NestedPrunable(a.states[n]) <==> NestedPrunable(b.states[n]))
    requires result.startAt == a.startAt && result.states.Keys == Kept(b)
    requires forall n :: n in result.states && n in a.states ==> result.states[n] == PrunedState(a.states[n])
    ensures Prunable(a) <==> Prunable(b)
    ensures Pruned(a) == result
  {
    hide *;
    SameVerdict(a, b);
    SameShapesKept(a, b);
    SameShapesKeys(a, b);
    assert Pruned(a).states == result.states;
  }

  lemma SameShapesKeys(a: Machine, b: Machine)
    requires SameShapes(a, b)
    ensures a.startAt == b.startAt && a.states.Keys == b.states.Keys
  {
    hide Shape;
  }

  /** Pruning a rewritten machine is rewriting the pruned machine, error for error. */
  lemma {:induction false} DeepCommutes(m: Machine, f: StateInfo -> StateInfo)
    requires KeepsShape(f)
    ensures Prunable(Deep(m, f)) <==> Prunable(m)
    ensures Pruned(Deep(m, f)) == Deep(Pruned(m), f)
    decreases m, 1
  {
    var d := Deep(m, f);
    forall n | n in m.states
      ensures NestedPrunable(d.states[n]) <==> NestedPrunable(m.states[n])
      ensures PrunedState(d.states[n]) == DeepState(PrunedState(m.states[n]), f)
    {
      DeepStateCommutes(m.states[n], f);
    }
    hide NestedPrunable, PrunedState, DeepState, Kept, Prunable;
    AlikeStateByState(d, m, Deep(Pruned(m), f));
  }

  lemma {:induction false} DeepStateCommutes(s: State, f: StateInfo -> StateInfo)
    requires KeepsShape(f)
    ensures NestedPrunable(DeepState(s, f)) <==> NestedPrunable(s)
    ensures PrunedState(DeepState(s, f)) == DeepState(PrunedState(s), f)
    decreases s, 0
  {
    var d := DeepState(s, f);
    assert Shape(d.info) == Shape(s.info);
    forall i | 0 <= i < |Nested(s)|
      ensures Prunable(Nested(d)[i]) <==> Prunable(Nested(s)[i])
      ensures Pruned(Nested(d)[i]) == Deep(Pruned(Nested(s)[i]), f)
    {
      DeepCommutes(Nested(s)[i], f);
    }
    hide Pruned, Deep, Prunable;
    var a, b := PrunedState(d), DeepState(PrunedState(s), f);
    match s.info.typ
    case Parallel =>
      assert a.branches == b.branches;
    case Map =>
      if s.iter.Some? {
        assert Nested(s)[0] == s.iter.value;
      }
    case _ =>
  }

  lemma ShallowCommutes(m: Machine, f: StateInfo -> StateInfo)
    requires KeepsShape(f)
    ensures Prunable(Shallow(m, f)) <==> Prunable(m)
    ensures Pruned(Shallow(m, f)) == Shallow(Pruned(m), f)
  {
    var d := Shallow(m, f);
    forall n | n in m.states
      ensures NestedPrunable(d.states[n]) <==> NestedPrunable(m.states[n])
      ensures PrunedState(d.states[n]) == PrunedState(m.states[n]).(info := f(m.states[n].info))
    {
      RewrittenAlone(m.states[n], f(m.states[n].info));
    }
    hide NestedPrunable, PrunedState, Kept, Prunable;
    AlikeStateByState(d, m, Shallow(Pruned(m), f));
  }

  lemma RewrittenAlone(s: State, info: StateInfo)
    requires Shape(info) == Shape(s.info)
    ensures NestedPrunable(s.(info := info)) <==> NestedPrunable(s)
    ensures PrunedState(s.(info := info)) == PrunedState(s).(info := info)
  {
    hide Pruned, Prunable;
    assert Nested(s.(info := info)) == Nested(s);
    match s.info.typ
    case Parallel => assert PrunedState(s.(info := info)).branches == PrunedState(s).branches;
    case _ =>
  }

  // ---------- the two transforms ----------

  ghost function Expanded(m: Machine, env: Env): Machine {
    Deep(m, s => ExpandedInfo(s, env))
  }

  datatype ExpansionError = NilIterator

  /** `stateMachineWithFullActivityARNsAndParameters`: rewrites the entries of a copy, one state after
      the other; it fails exactly on a Map state without iterator, at any depth. */
  method StateMachineWithFullActivityARNsAndParameters(oldSM: Machine, env: Env)
    returns (r: Result<Machine, ExpansionError>)
    ensures r.Success? <==> NilFree(oldSM)
    ensures r.Success? ==> r.value == Expanded(oldSM, env)
    decreases oldSM, 1
  {
    var states := oldSM.states;
    var pending := states.Keys;
    while pending != {}
      invariant pending <= states.Keys && states.Keys == oldSM.states.Keys
      invariant forall n :: n in pending ==> states[n] == oldSM.states[n]
      invariant forall n :: n in states && n !in pending ==>
                  NilFreeState(oldSM.states[n]) && states[n] == DeepState(oldSM.states[n], s => ExpandedInfo(s, env))
      decreases pending
    {
      var n :| n in pending;
      pending := pending - {n};
      hide DeepState, NilFreeState, ExpandedInfo;
      var expanded := ExpandState(states[n], env);
      if expanded.Failure? {
        return Failure(expanded.error);
      }
      states := states[n := expanded.value];
    }
    return Success(Machine(oldSM.startAt, states));
  }

  method ExpandState(s: State, env: Env) returns (r: Result<State, ExpansionError>)
    ensures r.Success? <==> NilFreeState(s)
    ensures r.Success? ==> r.value == DeepState(s, s => ExpandedInfo(s, env))
    decreases s, 0
  {
    hide NilFree, ExpandedInfo, Deep;
    ghost var f := s => ExpandedInfo(s, env);
    match s.info.typ
    case Parallel =>
      var branches := s.branches;
      for i := 0 to |branches|
        invariant |branches| == |s.branches|
        invariant forall j :: 0 <= j < i ==> NilFree(s.branches[j]) && branches[j] == Deep(s.branches[j], f)
        invariant forall j :: i <= j < |branches| ==> branches[j] == s.branches[j]
      {
        var branch := StateMachineWithFullActivityARNsAndParameters(branches[i], env);
        if branch.Failure? {
          assert Nested(s)[i] == s.branches[i];
          return Failure(branch.error);
        }
        branches := branches[i := branch.value];
      }
      assert branches == DeepState(s, f).branches;
      return Success(State(ExpandedInfo(s.info, env), branches, s.iter));
    case Map =>
      if s.iter.None? {
        return Failure(NilIterator);
      }
      assert Nested(s)[0] == s.iter.value;
      var it := StateMachineWithFullActivityARNsAndParameters(s.iter.value, env);
      if it.Failure? {
        return Failure(it.error);
      }
      return Success(State(ExpandedInfo(s.info, env), s.branches, Some(it.value)));
    case _ =>
      return Success(s.(info := ExpandedInfo(s.info, env)));
  }

  predicate HasCommandTerminated(retry: seq<Retrier>) {
    exists i :: 0 <= i < |retry| && COMMAND_TERMINATED in retry[i].errorEquals
  }

  function UserRetriers(s: StateInfo): seq<Retrier> {
    if s.retry.Some? then s.retry.value else []
  }

  function WithRetriersInfo(s: StateInfo): StateInfo {
    var user := UserRetriers(s);
    s.(retry := Some(if s.typ.Task? && !HasCommandTerminated(user) then [DEFAULT_RETRIER] + user else user))
  }

  function WithDefaultRetriers(m: Machine): Machine {
    Shallow(m, WithRetriersInfo)
  }

  /** `stateMachineWithDefaultRetriers`. */
  method StateMachineWithDefaultRetriers(oldSM: Machine) returns (sm: Machine)
    ensures sm == WithDefaultRetriers(oldSM)
  {
    var states := oldSM.states;
    var pending := states.Keys;
    while pending != {}
      invariant pending <= states.Keys && states.Keys == oldSM.states.Keys
      invariant forall n :: n in pending ==> states[n] == oldSM.states[n]
      invariant forall n :: n in states && n !in pending ==>
                  states[n] == oldSM.states[n].(info := WithRetriersInfo(oldSM.states[n].info))
      decreases pending
    {
      var n :| n in pending;
      pending := pending - {n};
      var info := states[n].info;
      var retry := if info.retry.None? then [] else info.retry.value;
      var injectRetry := true;
      for i := 0 to |retry|
        invariant injectRetry <==> forall j :: 0 <= j < i ==> COMMAND_TERMINATED !in retry[j].errorEquals
      {
        if COMMAND_TERMINATED in retry[i].errorEquals {
          injectRetry := false;
        }
      }
      if injectRetry && info.typ == Task {
        retry := [DEFAULT_RETRIER] + retry;
      }
      states := states[n := states[n].(info := info.(retry := Some(retry)))];
    }
    return Machine(oldSM.startAt, states);
  }

  /** The machine handed to SFN. */
  ghost function SfnMachine(m: Machine, env: Env): Machine {
    WithDefaultRetriers(Expanded(m, env))
  }

  /** Completing a machine for SFN and pruning it can be done in either order, with the same verdict. */
  lemma CompletionCommutesWithPruning(m: Machine, env: Env)
    ensures Prunable(SfnMachine(m, env)) <==> Prunable(m)
    ensures Pruned(SfnMachine(m, env)) == SfnMachine(Pruned(m), env)
  {
    DeepCommutes(m, s => ExpandedInfo(s, env));
    ShallowCommutes(Expanded(m, env), WithRetriersInfo);
  }

  /** Injection happens once, reaches every Task of the top level and keeps the user's retriers, in
      order, at the end; it changes nothing else, and nothing in nested machines. */
  lemma DefaultRetriersInjected(m: Machine)
    ensures WithDefaultRetriers(WithDefaultRetriers(m)) == WithDefaultRetriers(m)
    ensures forall n :: n in m.states ==>
              var before, after := m.states[n], WithDefaultRetriers(m).states[n];
              && after == before.(info := before.info.(retry := after.info.retry))
              && after.info.retry.Some?
              && (HasCommandTerminated(after.info.retry.value)
                  <==> before.info.typ.Task? || HasCommandTerminated(UserRetriers(before.info)))
              && (after.info.retry.value == UserRetriers(before.info)
                  || after.info.retry.value
                     == [Retrier(["sfncli.CommandTerminated"], 10, 1, 10)] + UserRetriers(before.info))
  {
    var r := WithDefaultRetriers(m);
    forall n | n in m.states
      ensures HasCommandTerminated(r.states[n].info.retry.value)
          <==> m.states[n].info.typ.Task? || HasCommandTerminated(UserRetriers(m.states[n].info))
      ensures WithRetriersInfo(r.states[n].info) == r.states[n].info
    {
      InjectedOnce(m.states[n].info);
    }
    assert WithDefaultRetriers(r).states == r.states;
  }

  lemma InjectedOnce(s: StateInfo)
    ensures var after := WithRetriersInfo(s);
            && (HasCommandTerminated(after.retry.value) <==> s.typ.Task? || HasCommandTerminated(UserRetriers(s)))
            && WithRetriersInfo(after) == after
  {
    var user := UserRetriers(s);
    var injected := [DEFAULT_RETRIER] + user;
    assert COMMAND_TERMINATED in injected[0].errorEquals;
    assert HasCommandTerminated(injected);
  }
}
