/** Creating and resuming workflow definitions on machine objects (`handler.go`, `RetryWorkflow`). */
module Definitions {
  import opened Wrappers
  import opened StateMachines
  import opened PruningMeaning
  import opened RemoveInactive
  import opened Acceptance
  import Versioning

  /** What a caller of a nested machine needs to know about it. */
  lemma KidOf(sm: StateMachine, n: string, i: nat)
    requires sm.Valid() && n in sm.states && i < |Kids(sm.states[n])|
    ensures var kid := Kids(sm.states[n])[i];
            && kid.Valid() && kid.repr < sm.repr
            && i < |KidModels(sm.model.states[n])| && kid.model == KidModels(sm.model.states[n])[i]
  {
    sm.ShapeOf(n);
    assert sm.Owns(Kids(sm.states[n])[i]);
    assert Stands(sm.states[n], sm.model.states[n]);
  }

  method ValidateStateMachine(sm: StateMachine) returns (ok: bool)
    requires sm.Valid()
    ensures ok <==> Validated(sm.model)
    decreases sm.repr, 1
  {
    if |sm.states| == 0 {
      assert sm.model.states.Keys == {};
      return false;
    }
    assert sm.model.states.Keys != {};
    var pending := sm.states.Keys;
    while pending != {}
      invariant pending <= sm.states.Keys
      invariant forall n :: n in sm.states && n !in pending ==> ValidatedState(sm.model.states[n])
      decreases pending
    {
      hide ValidatedState;
      var n :| n in pending;
      pending := pending - {n};
      var valid := ValidateState(sm, n);
      if !valid {
        return false;
      }
    }
    return true;
  }

  method ValidateState(sm: StateMachine, n: string) returns (ok: bool)
    requires sm.Valid() && n in sm.states
    ensures ok <==> ValidatedState(sm.model.states[n])
    decreases sm.repr, 0
  {
    hide sm.Valid, Validated;
    var state := sm.states[n];
    ghost var v := sm.model.states[n];
    sm.ShapeOf(n);
    match state.info.typ
    case Map =>
      if state.iter == null {
        return false;
      }
      KidOf(sm, n, |state.branches|);
      ok := ValidateStateMachine(state.iter);
      assert Nested(v) == [v.iter.value];
    case Parallel =>
      if |state.branches| == 0 {
        return false;
      }
      for i := 0 to |state.branches|
        invariant forall j :: 0 <= j < i ==> Validated(v.branches[j])
      {
        KidOf(sm, n, i);
        var valid := ValidateStateMachine(state.branches[i]);
        if !valid {
          assert Nested(v)[i] == v.branches[i];
          return false;
        }
      }
      return true;
    case _ =>
      return ValidInfo(state.info);
  }

  method StateCount(sm: StateMachine) returns (numStates: nat)
    requires sm.Valid() && NilFree(sm.model)
    ensures numStates == Count(sm.model)
    decreases sm.repr, 1
  {
    ghost var m := sm.model;
    numStates := 0;
    var pending := sm.states.Keys;
    assert m.states.Keys - pending == {};
    while pending != {}
      invariant pending <= sm.states.Keys
      invariant numStates == CountOver(m, m.states.Keys - pending)
      decreases pending
    {
      hide sm.Valid, Weight, CountOver;
      var n :| n in pending;
      var weight := StateWeight(sm, n);
      ghost var done := m.states.Keys - pending;
      pending := pending - {n};
      CountRemove(m, done + {n}, n);
      assert m.states.Keys - pending == done + {n} && (done + {n}) - {n} == done;
      numStates := numStates + weight;
    }
    assert m.states.Keys - pending == m.states.Keys;
  }

  method StateWeight(sm: StateMachine, n: string) returns (weight: nat)
    requires sm.Valid() && n in sm.states && NilFree(sm.model)
    ensures weight == Weight(sm.model.states[n])
    decreases sm.repr, 0
  {
    hide sm.Valid, Count;
    var state := sm.states[n];
    ghost var v := sm.model.states[n];
    assert NilFreeState(v);
    sm.ShapeOf(n);
    match state.info.typ
    case Parallel =>
      weight := 0;
      for i := 0 to |state.branches|
        invariant weight == NestedCount(v, i)
      {
        KidOf(sm, n, i);
        assert Nested(v)[i] == v.branches[i];
        var count := StateCount(state.branches[i]);
        weight := weight + count;
      }
    case Map =>
      KidOf(sm, n, |state.branches|);
      assert Nested(v) == [v.iter.value];
      weight := StateCount(state.iter);
      NestedCountStep(v, 1);
      NestedCountStep(v, 0);
    case _ =>
      weight := 1;
  }

  datatype DefinitionError = NameRequired | InvalidStateMachine | StartAtRequired | CannotPrune(error: PruneError)
                           | NoTransitionPath | TagsNotStrings | NotSaved(reason: Versioning.StoreError)

  lemma SoundMeans(m: Machine)
    ensures Sound(m) <==> Prunable(m) && Pruned(m) == m
  {
  }

  /** Prunes its argument in place and refuses it when that deleted something; a definition that comes
      out holds the very machine that went in. */
  method NewWorkflowDefinitionFromRequest(sm: StateMachine, tagsAreStrings: bool)
    returns (r: Result<StateMachine, DefinitionError>)
    requires sm.Valid() && Validated(sm.model)
    modifies sm.repr
    ensures sm.Valid()
    ensures r.Success? <==> sm.startAt != "" && tagsAreStrings && Sound(old(sm.model))
    ensures r.Success? ==> r.value == sm && sm.model == old(sm.model)
  {
    hide *;
    if sm.startAt == "" {
      return Failure(StartAtRequired);
    }
    SoundMeans(sm.model);
    ValidatedIsNilFree(sm.model);
    NilFreeIsEnough(sm.model);
    ghost var m := sm.model;
    var numStates := StateCount(sm);
    var pruned := sm.RemoveInactiveStates();
    if pruned.Failure? {
      return Failure(CannotPrune(pruned.error));
    }
    CountDetectsDeletion(m);
    PrunedIsNilFree(m);
    var left := StateCount(sm);
    if left != numStates {
      return Failure(NoTransitionPath);
    }
    if !tagsAreStrings {
      return Failure(TagsNotStrings);
    }
    return Success(sm);
  }

  /** What a definition has to be like to be stored. */
  ghost predicate IsAcceptable(name: string, startAt: string, m: Machine, tagsAreStrings: bool) {
    name != "" && Validated(m) && startAt != "" && tagsAreStrings && Sound(m)
  }

  /** Stores exactly the acceptable definitions, as version 0 and with the machine as it came in; `body` is
      the definition encoded and `published` the answer to the second put. */
  method NewWorkflowDefinition(store: Versioning.DynamoDB, name: string, sm: StateMachine, tagsAreStrings: bool,
                               body: string, published: bool)
    returns (r: Result<StateMachine, DefinitionError>)
    requires sm.Valid()
    modifies sm.repr, store
    ensures sm.Valid()
    ensures var first := Versioning.Definition(name, 0, body);
            var saves := IsAcceptable(name, sm.startAt, old(sm.model), tagsAreStrings);
            var free := Versioning.CanPut(old(store.Contents()), first);
            && (r.Success? <==> saves && free && published)
            && (saves && free && published ==> r.value == sm && sm.model == old(sm.model))
            && (saves && !free ==> r == Failure(NotSaved(Versioning.Conflict(name))))
            && (saves && free && !published ==> r == Failure(NotSaved(Versioning.Unavailable)))
            && store.Contents() == if !saves || !free then old(store.Contents())
                                   else if published then
                                     Versioning.PutLatest(Versioning.PutDefinition(old(store.Contents()), first), first)
                                   else Versioning.PutDefinition(old(store.Contents()), first)
  {
    hide sm.Valid, Validated, Sound;
    if name == "" {
      return Failure(NameRequired);
    }
    var valid := ValidateStateMachine(sm);
    if !valid {
      return Failure(InvalidStateMachine);
    }
    r := NewWorkflowDefinitionFromRequest(sm, tagsAreStrings);
    if r.Failure? {
      return;
    }
    var saved := store.SaveWorkflowDefinition(Versioning.Definition(name, 0, body), published);
    if saved.Failure? {
      return Failure(NotSaved(saved.error));
    }
  }
}
