/** The machines and states at every depth of a machine, reached by name, and what validation and expansion
    mean for each of them. */
module Depths {
  import opened Wrappers
  import opened Strings
  import opened Names
  import opened StateMachines
  import opened KeptRuns
  import opened Acceptance
  import opened Expansion

  /** Which state to go into, and which of the machines inside it. */
  type Path = seq<(string, nat)>

  function MachineAt(m: Machine, path: Path): Option<Machine>
    decreases |path|
  {
    if path == [] then Some(m)
    else if path[0].0 !in m.states then None
    else
      match Inner(m.states[path[0].0], path[0].1)
      case None => None
      case Some(inner) => MachineAt(inner, path[1..])
  }

  function StateAt(m: Machine, path: Path, n: string): Option<State> {
    match MachineAt(m, path)
    case None => None
    case Some(x) => if n in x.states then Some(x.states[n]) else None
  }

  // ---------- validation ----------

  predicate IsSet(s: string) {
    s != ""
  }

  /** What a state of an accepted definition has, field by field. */
  predicate HasWhatItNeeds(s: State) {
    var i, w := s.info, s.info.wait;
    && (i.typ.Task? ==> i.resource != "")
    && (i.typ.Choice? ==> |i.choices| > 0 && forall c :: 0 <= c < |i.choices| ==> i.choices[c] != "")
    && (i.typ.Succeed? || i.typ.Fail? ==> i.next == "")
    && (i.typ.Parallel? ==> |s.branches| > 0)
    && (i.typ.Map? ==> s.iter.Some?)
    && (i.typ.Wait? ==>
          || (w.seconds > 0 && !IsSet(w.secondsPath) && !IsSet(w.timestamp) && !IsSet(w.timestampPath))
          || (w.seconds <= 0 && IsSet(w.secondsPath) && !IsSet(w.timestamp) && !IsSet(w.timestampPath))
          || (w.seconds <= 0 && !IsSet(w.secondsPath) && IsSet(w.timestamp) && !IsSet(w.timestampPath))
          || (w.seconds <= 0 && !IsSet(w.secondsPath) && !IsSet(w.timestamp) && IsSet(w.timestampPath)))
  }

  predicate LevelIsValid(m: Machine) {
    m.states != map[] && forall n :: n in m.states ==> HasWhatItNeeds(m.states[n])
  }

  ghost predicate AllLevelsAreValid(m: Machine) {
    forall path: Path :: MachineAt(m, path).Some? ==> LevelIsValid(MachineAt(m, path).value)
  }

  lemma StateByItself(s: State)
    ensures HasWhatItNeeds(s) <==> ValidInfo(s.info) && (s.info.typ.Parallel? || s.info.typ.Map? ==> Nested(s) != [])
  {
    var choices := s.info.choices;
    assert (forall c :: c in choices ==> c != "") <==> forall c :: 0 <= c < |choices| ==> choices[c] != "" by {
      forall c | 0 <= c < |choices| ensures choices[c] in choices {
      }
    }
  }

  lemma LevelsBelow(m: Machine, n: string, child: nat)
    requires n in m.states && Inner(m.states[n], child).Some? && AllLevelsAreValid(m)
    ensures AllLevelsAreValid(Inner(m.states[n], child).value)
  {
    hide Inner, LevelIsValid;
    var inner := Inner(m.states[n], child).value;
    forall path: Path | MachineAt(inner, path).Some? ensures LevelIsValid(MachineAt(inner, path).value) {
      var longer := [(n, child)] + path;
      assert longer[1..] == path;
      assert MachineAt(m, longer) == MachineAt(inner, path);
    }
  }

  lemma LevelsFromBelow(m: Machine)
    requires LevelIsValid(m)
    requires forall n, child :: n in m.states && Inner(m.states[n], child).Some? ==>
               AllLevelsAreValid(Inner(m.states[n], child).value)
    ensures AllLevelsAreValid(m)
  {
    hide Inner, LevelIsValid;
    forall path: Path | MachineAt(m, path).Some? ensures LevelIsValid(MachineAt(m, path).value) {
      if path != [] {
        var inner := Inner(m.states[path[0].0], path[0].1).value;
        assert AllLevelsAreValid(inner);
        assert MachineAt(m, path) == MachineAt(inner, path[1..]);
      }
    }
  }

  /** A definition passes validation if and only if, at every depth, there is a state and every state has
      what it needs. */
  lemma {:induction false} ValidatedExactly(m: Machine)
    ensures Validated(m) <==> AllLevelsAreValid(m)
    decreases m, 1
  {
    hide HasWhatItNeeds, ValidInfo, Inner;
    assert MachineAt(m, []) == Some(m);
    forall n | n in m.states
      ensures ValidatedState(m.states[n])
         <==> HasWhatItNeeds(m.states[n])
              && forall child :: Inner(m.states[n], child).Some? ==> AllLevelsAreValid(Inner(m.states[n], child).value)
    {
      ValidatedStateExactly(m.states[n]);
    }
    hide ValidatedState;
    if AllLevelsAreValid(m) {
      assert LevelIsValid(MachineAt(m, []).value);
      forall n, child: nat | n in m.states && Inner(m.states[n], child).Some?
        ensures AllLevelsAreValid(Inner(m.states[n], child).value)
      {
        LevelsBelow(m, n, child);
      }
    }
    if Validated(m) {
      LevelsFromBelow(m);
    }
  }

  lemma {:induction false} ValidatedStateExactly(s: State)
    ensures ValidatedState(s)
       <==> HasWhatItNeeds(s)
            && forall child :: Inner(s, child).Some? ==> AllLevelsAreValid(Inner(s, child).value)
    decreases s, 0
  {
    hide AllLevelsAreValid, HasWhatItNeeds, ValidInfo, Inner;
    StateByItself(s);
    forall child: nat
      ensures Inner(s, child) == if child < |Nested(s)| then Some(Nested(s)[child]) else None
      ensures child < |Nested(s)| ==> (Validated(Nested(s)[child]) <==> AllLevelsAreValid(Nested(s)[child]))
    {
      InnerIsNested(s, child);
      if child < |Nested(s)| {
        ValidatedExactly(Nested(s)[child]);
      }
    }
  }

  // ---------- expansion ----------

  lemma InnerOfDeep(s: State, f: StateInfo -> StateInfo, child: nat)
    requires KeepsShape(f)
    ensures Inner(DeepState(s, f), child)
         == match Inner(s, child) case None => None case Some(m) => Some(Deep(m, f))
  {
    assert Shape(f(s.info)) == Shape(s.info);
    InnerIsNested(s, child);
    InnerIsNested(DeepState(s, f), child);
    hide Deep, Inner, Nested;
  }

  lemma {:induction false} MachineAtOfDeep(m: Machine, f: StateInfo -> StateInfo, path: Path)
    requires KeepsShape(f)
    ensures MachineAt(Deep(m, f), path)
         == match MachineAt(m, path) case None => None case Some(x) => Some(Deep(x, f))
    decreases |path|
  {
    hide KeepsShape, DeepState, Inner;
    if path != [] && path[0].0 in m.states {
      var s := m.states[path[0].0];
      InnerOfDeep(s, f, path[0].1);
      if Inner(s, path[0].1).Some? {
        MachineAtOfDeep(Inner(s, path[0].1).value, f, path[1..]);
      }
    }
  }

  /** The resource is the kind, a colon and the name. */
  predicate IsFor(resource: string, kind: string, name: string) {
    resource == kind + ":" + name
  }

  /** What a state is sent to SFN as. */
  ghost predicate IsSentAs(before: StateInfo, after: StateInfo, env: Env) {
    && after == before.(resource := after.resource, parameters := after.parameters)
    && (before.typ.Task? && !HasPrefix(before.resource, "glue:") ==> after.parameters == before.parameters)
    && (before.typ.Task? && !HasPrefix(before.resource, "glue:") && !HasPrefix(before.resource, "lambda:")
          && ColonFree(env.region) && ColonFree(env.accountID) ==>
          Split(after.resource, ":") == ["arn", "aws", "states", env.region, env.accountID, "activity"]
                                        + Split(env.namespace + "--" + before.resource, ":"))
    && (before.typ.Task? && ColonFree(env.region) && ColonFree(env.accountID) ==>
          forall name :: IsFor(before.resource, "lambda", name) ==>
            Split(after.resource, ":") == ["arn", "aws", "lambda", env.region, env.accountID, "function"]
                                          + Split(env.namespace + "--" + name, ":"))
    && (before.typ.Task? ==>
          forall name :: IsFor(before.resource, "glue", name) ==>
            && after.resource == "arn:aws:states:::glue:startJobRun.sync"
            && Adds(before.parameters, after.parameters, "JobName", env.namespace + "--" + name, true))
    && (before.typ.Map? ==>
          && after.resource == before.resource
          && Adds(before.parameters, after.parameters, "_EXECUTION_NAME.$", "$._EXECUTION_NAME", false))
    && (!before.typ.Task? && !before.typ.Map? ==> after == before)
  }

  /** The parameters with one more, which replaces one of that name only if `overwrites`. */
  ghost predicate Adds(before: Option<map<string, string>>, after: Option<map<string, string>>,
                       key: string, value: string, overwrites: bool)
  {
    && after.Some? && key in after.value
    && (forall k :: k != key ==> (k in after.value <==> before.Some? && k in before.value))
    && (forall k :: k != key && k in after.value && before.Some? && k in before.value ==>
          after.value[k] == before.value[k])
    && after.value[key] == if !overwrites && before.Some? && key in before.value then before.value[key] else value
  }

  lemma ActivityFields(resource: string, env: Env)
    requires ColonFree(env.region) && ColonFree(env.accountID)
    ensures Split(SFNCLIResource(resource, env), ":")
         == ["arn", "aws", "states", env.region, env.accountID, "activity"]
            + Split(env.namespace + "--" + resource, ":")
  {
    hide Split;
    var name := env.namespace + "--" + resource;
    ArnFields("states", env.region, env.accountID, "activity", name);
    assert SFNCLIResource(resource, env)
        == "arn:aws:" + "states" + ":" + env.region + ":" + env.accountID + ":" + "activity" + ":" + name;
  }

  lemma LambdaFields(resource: string, env: Env)
    requires ColonFree(env.region) && ColonFree(env.accountID)
    ensures Split(LambdaResource(resource, env), ":")
         == ["arn", "aws", "lambda", env.region, env.accountID, "function"]
            + Split(env.namespace + "--" + TrimPrefix(resource, "lambda:"), ":")
  {
    hide Split, TrimPrefix;
    var name := env.namespace + "--" + TrimPrefix(resource, "lambda:");
    ArnFields("lambda", env.region, env.accountID, "function", name);
    assert LambdaResource(resource, env)
        == "arn:aws:" + "lambda" + ":" + env.region + ":" + env.accountID + ":" + "function" + ":" + name;
  }

  lemma NameAfterPrefix(resource: string, kind: string, name: string)
    requires IsFor(resource, kind, name)
    ensures HasPrefix(resource, kind + ":") && TrimPrefix(resource, kind + ":") == name
  {
  }

  lemma InfoIsSentAs(s: StateInfo, env: Env)
    ensures IsSentAs(s, ExpandedInfo(s, env), env)
  {
    hide Split, SFNCLIResource, LambdaResource;
    if ColonFree(env.region) && ColonFree(env.accountID) {
      ActivityFields(s.resource, env);
      LambdaFields(s.resource, env);
    }
    forall name | IsFor(s.resource, "lambda", name) || IsFor(s.resource, "glue", name)
      ensures IsFor(s.resource, "lambda", name) ==>
                HasPrefix(s.resource, "lambda:") && TrimPrefix(s.resource, "lambda:") == name
      ensures IsFor(s.resource, "glue", name) ==>
                && HasPrefix(s.resource, "glue:") && TrimPrefix(s.resource, "glue:") == name
                && !HasPrefix(s.resource, "lambda:")
    {
      if IsFor(s.resource, "lambda", name) {
        NameAfterPrefix(s.resource, "lambda", name);
        assert "lambda" + ":" == "lambda:";
      } else {
        NameAfterPrefix(s.resource, "glue", name);
        assert "glue" + ":" == "glue:";
        assert s.resource[0] == 'g';
      }
    }
  }

  /** The expanded machine has the same machines and states at every depth, and each state of them is sent as
      its type and its resource say. */
  lemma ExpandedEverywhere(m: Machine, env: Env, path: Path, n: string)
    ensures StateAt(Expanded(m, env), path, n).Some? <==> StateAt(m, path, n).Some?
    ensures StateAt(m, path, n).Some? ==>
              IsSentAs(StateAt(m, path, n).value.info, StateAt(Expanded(m, env), path, n).value.info, env)
  {
    var f := s => ExpandedInfo(s, env);
    MachineAtOfDeep(m, f, path);
    if StateAt(m, path, n).Some? {
      InfoIsSentAs(StateAt(m, path, n).value.info, env);
    }
    hide IsSentAs, ExpandedInfo, MachineAt;
  }
}
