/** `RemoveInactiveStates` in place: machines are objects whose state maps lose entries, and a Parallel
    or Map state points to the machines nested in it. `model` is the value that an object tree stands
    for; every order in which Go may visit a map is allowed. */
module RemoveInactive {
  import opened Wrappers
  import opened StateMachines

  datatype PruneError = StartAtNotFound(name: string) | InvalidTransitions(name: string)

  datatype SLState = SLState(info: StateInfo, branches: seq<StateMachine>, iter: StateMachine?)

  /** All machines that a state refers to. */
  function Kids(s: SLState): (r: seq<StateMachine>) {
    s.branches + if s.iter != null then [s.iter] else []
  }

  function KidModels(v: State): seq<Machine> {
    v.branches + if v.iter.Some? then [v.iter.value] else []
  }

  /** `v` is the value of state `s`, given the models of the machines it refers to. */
  ghost predicate Stands(s: SLState, v: State)
    reads Kids(s)
  {
    && v.info == s.info
    && |v.branches| == |s.branches|
    && (v.iter.Some? <==> s.iter != null)
    && forall i :: 0 <= i < |Kids(s)| ==> Kids(s)[i].model == KidModels(v)[i]
  }

  /** The states left in `now` are states of `before`, unchanged. */
  ghost predicate IsPart(now: map<string, SLState>, before: map<string, SLState>) {
    forall n :: n in now ==> n in before && now[n] == before[n]
  }

  /** `m` describes at least the states in `states`. */
  ghost predicate Describes(m: Machine, states: map<string, SLState>) {
    forall n :: n in states ==> n in m.states && states[n].info == m.states[n].info
  }

  lemma UnreachedIsNotKept(m: Machine, names: set<string>, n: string)
    requires Kept(m) <= names <= m.states.Keys && !Reaches(m, names, n)
    ensures n !in Kept(m)
  {
    KeptIsGreatest(m);
  }

  ghost predicate DisjointKids(states: map<string, SLState>) {
    forall n, i, n', i' ::
      n in states && n' in states && 0 <= i < |Kids(states[n])| && 0 <= i' < |Kids(states[n'])|
      && (n != n' || i != i')
      ==> Kids(states[n])[i].repr !! Kids(states[n'])[i'].repr
  }

  /** All machines of the trees below. */
  ghost function ReprOf(states: map<string, SLState>): set<StateMachine> {
    set n, i, o | n in states && 0 <= i < |Kids(states[n])| && o in Kids(states[n])[i].repr :: o
  }

  class StateMachine {
    const startAt: string
    var states: map<string, SLState>
    ghost var model: Machine
    /** The machines of this tree, this one included. */
    ghost const repr: set<StateMachine>

    /** A machine put on top of machines that share nothing, as decoding or copying a definition does. */
    constructor (startAt: string, states: map<string, SLState>, ghost model: Machine)
      requires DisjointKids(states) && model.startAt == startAt && model.states.Keys == states.Keys
      requires forall n :: n in states ==> Stands(states[n], model.states[n])
      requires forall n, i :: n in states && 0 <= i < |Kids(states[n])| ==> Kids(states[n])[i].Valid()
      ensures Valid() && this.states == states && this.model == model
      ensures repr == {this} + ReprOf(states)
    {
      this.startAt, this.states, this.model := startAt, states, model;
      repr := {this} + ReprOf(states);
      new;
      forall n, i | n in states && 0 <= i < |Kids(states[n])| ensures Owns(Kids(states[n])[i]) {
        assert Kids(states[n])[i].Valid();
      }
      assert forall n :: n in states ==> Stands(states[n], model.states[n]);
    }

    ghost predicate Valid()
      reads this, repr
      ensures Valid() ==> this in repr && model.startAt == startAt && model.states.Keys == states.Keys
      decreases repr, 1
    {
      && this in repr
      && (forall n, i :: n in states && 0 <= i < |Kids(states[n])| ==> Owns(Kids(states[n])[i]))
      && Disjoint()
      && model.startAt == startAt
      && model.states.Keys == states.Keys
      && forall n :: n in states ==> Stands(states[n], model.states[n])
    }

    ghost predicate Disjoint()
      reads this
    {
      DisjointKids(states)
    }

    /** Nested machines are trees of their own: none leads back here. */
    ghost predicate Owns(kid: StateMachine)
      reads repr
      decreases repr, 0
    {
      kid in repr && kid.repr <= repr && this in repr && this !in kid.repr && kid.Valid()
    }

    /** `reachable`. */
    method Reachable(stateName: string, ghost m: Machine) returns (r: bool)
      requires startAt == m.startAt && Describes(m, states)
      ensures r <==> stateName in states && Reaches(m, states.Keys, stateName)
    {
      if stateName !in states {
        return false;
      }
      if startAt == stateName {
        return true;
      }
      var pending := states.Keys;
      while pending != {}
        invariant pending <= states.Keys
        invariant forall p :: p in states && p !in pending ==> stateName !in Targets(states[p].info)
        decreases pending
      {
        var p :| p in pending;
        pending := pending - {p};
        var state := states[p].info;
        match state.typ
        case Pass | Task | Wait | Parallel | Map =>
          if state.next == stateName || stateName in state.catches {
            return true;
          }
        case Choice =>
          if stateName in state.choices || state.defaultNext == stateName {
            return true;
          }
        case Succeed | Fail =>
      }
      return false;
    }

    /** One pass over the map, in any order; deleted states are not looked at again. */
    method DeletePass(ghost m: Machine) returns (everyStateReachable: bool)
      requires startAt == m.startAt && Describes(m, states) && Kept(m) <= states.Keys
      modifies this`states
      ensures IsPart(states, old(states)) && Kept(m) <= states.Keys
      ensures everyStateReachable ==> states == old(states) && Supported(m, states.Keys)
      ensures !everyStateReachable ==> |states| < |old(states)|
    {
      hide Kept, Reaches, Targets;
      everyStateReachable := true;
      var pending := states.Keys;
      while pending != {}
        invariant IsPart(states, old(states)) && Kept(m) <= states.Keys
        invariant everyStateReachable ==> states == old(states)
        invariant everyStateReachable ==> forall n :: n in states && n !in pending ==> Reaches(m, states.Keys, n)
        invariant if everyStateReachable then |states| == |old(states)| else |states| < |old(states)|
        invariant pending <= states.Keys
        decreases pending
      {
        var stateName :| stateName in pending;
        pending := pending - {stateName};
        var canReach := Reachable(stateName, m);
        if !canReach {
          UnreachedIsNotKept(m, states.Keys, stateName);
          everyStateReachable := false;
          ghost var bigger := states.Keys;
          states := states - {stateName};
          assert states.Keys == bigger - {stateName};
          assert |states.Keys| == |states| && |bigger - {stateName}| == |bigger| - 1;
        }
      }
    }

    /** The delete loop. However the map is visited, what is left is the greatest supported set. */
    method DeleteUnreachable(ghost m: Machine)
      requires startAt == m.startAt && Describes(m, states) && states.Keys == m.states.Keys
      modifies this`states
      ensures states.Keys == Kept(m) && IsPart(states, old(states))
    {
      hide Supported, Kept;
      KeptIsGreatest(m);
      var everyStateReachable := false;
      while !everyStateReachable
        invariant Kept(m) <= states.Keys && IsPart(states, old(states))
        invariant everyStateReachable ==> Supported(m, states.Keys)
        decreases !everyStateReachable, |states|
      {
        everyStateReachable := DeletePass(m);
      }
    }

    /** The first check after the deletions: it finds an invalid state or there is none. */
    method CheckTransitions() returns (bad: Option<string>)
      ensures bad.Some? ==> bad.value in states && !HasValidTransitions(states[bad.value].info, states.Keys)
      ensures bad.None? ==> forall n :: n in states ==> HasValidTransitions(states[n].info, states.Keys)
    {
      hide HasValidTransitions;
      var pending := states.Keys;
      while pending != {}
        invariant pending <= states.Keys
        invariant forall n :: n in states && n !in pending ==> HasValidTransitions(states[n].info, states.Keys)
        decreases pending
      {
        var n :| n in pending;
        pending := pending - {n};
        if !HasValidTransitions(states[n].info, states.Keys) {
          return Some(n);
        }
      }
      return None;
    }

    /** Gives an object tree whose kids are in order the value it stands for now. */
    ghost method SetModel(m: Machine)
      requires this in repr && Disjoint() && m.startAt == startAt && m.states.Keys == states.Keys
      requires forall n, i :: n in states && 0 <= i < |Kids(states[n])| ==> Owns(Kids(states[n])[i])
      requires forall n :: n in states ==> Stands(states[n], m.states[n])
      modifies this`model
      ensures Valid() && model == m
    {
      hide Kids;
      model := m;
      forall n, i | n in states && 0 <= i < |Kids(states[n])| ensures Owns(Kids(states[n])[i]) {
        assert old(Owns(Kids(states[n])[i]));
        assert Kids(states[n])[i].Valid();
      }
      forall n | n in states ensures Stands(states[n], m.states[n]) {
        assert old(Stands(states[n], m.states[n]));
      }
    }

    lemma InfosAgree()
      requires Valid()
      ensures Describes(model, states)
    {
      assert forall n :: n in states ==> Stands(states[n], model.states[n]);
    }

    lemma ShapeOf(n: string)
      requires Valid() && n in states
      ensures var s, v := states[n], model.states[n];
              && v.info == s.info && |v.branches| == |s.branches| && (v.iter.Some? <==> s.iter != null)
              && |KidModels(v)| == |Kids(s)|
    {
      assert Stands(states[n], model.states[n]);
    }

    /** Recurses into one nested machine, wherever it sits among the kids; the others are untouched. */
    method PruneKidObject(n: string, i: nat) returns (r: Result<(), PruneError>)
      requires Valid() && n in states && i < |Kids(states[n])|
      requires KeptNilFree(Kids(states[n])[i].model)
      modifies Kids(states[n])[i].repr
      ensures states == old(states) && model == old(model) && this in repr && Disjoint()
      ensures forall n', i' :: n' in states && 0 <= i' < |Kids(states[n'])| ==>
                Owns(Kids(states[n'])[i'])
                && (n' != n || i' != i ==> Kids(states[n'])[i'].model == old(Kids(states[n'])[i'].model))
      ensures r.Success? <==> Prunable(old(Kids(states[n])[i].model))
      ensures r.Success? ==> Kids(states[n])[i].model == Pruned(old(Kids(states[n])[i].model))
      decreases repr, 0, 0
    {
      hide Prunable, Pruned, KeptNilFree, Stands, Kids;
      var kid := Kids(states[n])[i];
      assert Owns(kid);
      r := kid.RemoveInactiveStates();
      forall n', i' | n' in states && 0 <= i' < |Kids(states[n'])|
        ensures Owns(Kids(states[n'])[i'])
                && (n' != n || i' != i ==> Kids(states[n'])[i'].model == old(Kids(states[n'])[i'].model))
      {
        var k := Kids(states[n'])[i'];
        if n' != n || i' != i {
          assert old(Owns(k)) && old(k.Valid());
          assert k in k.repr && k.repr !! kid.repr;
          assert forall o :: o in k.repr ==> unchanged(o);
        }
      }
    }

    method PruneKid(n: string, i: nat) returns (r: Result<(), PruneError>)
      requires Valid() && n in states && i < |Kids(states[n])|
      requires KeptNilFree(KidModels(model.states[n])[i])
      modifies repr
      ensures Valid() && states == old(states)
      ensures r.Success? <==> Prunable(KidModels(old(model).states[n])[i])
      ensures var v := old(model).states[n];
              model.states == old(model).states[n := WithKid(v, i, KidModels(model.states[n])[i])]
      ensures r.Success? ==> KidModels(model.states[n])[i] == Pruned(KidModels(old(model).states[n])[i])
      decreases repr, 0, 1
    {
      hide Prunable, Pruned, KeptNilFree;
      assert Stands(states[n], model.states[n]);
      assert Owns(Kids(states[n])[i]);
      r := PruneKidObject(n, i);
      hide Owns, Disjoint;
      hide Valid;
      ghost var kid := Kids(states[n])[i];
      ghost var m := model.(states := model.states[n := WithKid(model.states[n], i, kid.model)]);
      forall n' | n' in states ensures Stands(states[n'], m.states[n']) {
        assert old(Stands(states[n'], model.states[n']));
      }
      SetModel(m);
    }

    method PruneBranches(n: string) returns (r: Result<(), PruneError>)
      requires Valid() && n in states
      requires forall i :: 0 <= i < |model.states[n].branches| ==> KeptNilFree(model.states[n].branches[i])
      modifies repr
      ensures Valid() && states == old(states)
      ensures model.states == old(model).states[n := model.states[n]]
      ensures var v, v' := old(model).states[n], model.states[n];
              && (r.Success? <==> forall j :: 0 <= j < |v.branches| ==> Prunable(v.branches[j]))
              && (r.Success? ==> v'.info == v.info && v'.iter == v.iter && |v'.branches| == |v.branches|
                                 && forall j :: 0 <= j < |v.branches| ==> v'.branches[j] == Pruned(v.branches[j]))
      decreases repr, 0, 2
    {
      hide Prunable, Pruned, KeptNilFree, Valid, Owns, Stands, Disjoint;
      ghost var v := model.states[n];
      ShapeOf(n);
      r := Success(());
      var branches := states[n].branches;
      for i := 0 to |branches|
        invariant Valid() && states == old(states)
        invariant model.states == old(model).states[n := model.states[n]]
        invariant model.states[n].info == v.info && model.states[n].iter == v.iter
        invariant |model.states[n].branches| == |v.branches|
        invariant forall j :: 0 <= j < i ==> Prunable(v.branches[j])
        invariant forall j :: 0 <= j < i ==> model.states[n].branches[j] == Pruned(v.branches[j])
        invariant forall j :: i <= j < |branches| ==> model.states[n].branches[j] == v.branches[j]
        invariant r.Success?
      {
        ShapeOf(n);
        assert KidModels(model.states[n])[i] == v.branches[i];
        r := PruneKid(n, i);
        if r.Failure? {
          return;
        }
      }
    }

    method PruneIterator(n: string) returns (r: Result<(), PruneError>)
      requires Valid() && n in states && states[n].iter != null
      requires model.states[n].iter.Some? && KeptNilFree(model.states[n].iter.value)
      modifies repr
      ensures Valid() && states == old(states)
      ensures model.states == old(model).states[n := model.states[n]]
      ensures var v := old(model).states[n];
              && (r.Success? <==> Prunable(v.iter.value))
              && (r.Success? ==> model.states[n] == v.(iter := Some(Pruned(v.iter.value))))
      decreases repr, 0, 2
    {
      hide Prunable, Pruned, KeptNilFree, Valid, Owns, Stands, Disjoint;
      ghost var v := model.states[n];
      ShapeOf(n);
      var i := |states[n].branches|;
      assert KidModels(v)[i] == v.iter.value;
      r := PruneKid(n, i);
      assert KidModels(model.states[n])[i] == model.states[n].iter.value;
    }

    /** The nested machines of one state, branch after branch. */
    method PruneState(n: string) returns (r: Result<(), PruneError>)
      requires Valid() && n in states && KeptNilFreeState(model.states[n])
      modifies repr
      ensures Valid() && states == old(states)
      ensures model.states == old(model).states[n := model.states[n]]
      ensures r.Success? <==> NestedPrunable(old(model).states[n])
      ensures r.Success? ==> model.states[n] == PrunedState(old(model).states[n])
      decreases repr, 0, 3
    {
      hide Prunable, Pruned, KeptNilFree, Valid, Owns, Stands, Disjoint;
      ghost var v := model.states[n];
      ShapeOf(n);
      r := Success(());
      if states[n].info.typ == Parallel {
        assert Nested(v) == v.branches;
        r := PruneBranches(n);
      } else if states[n].info.typ == Map {
        assert Nested(v)[0] == v.iter.value;
        r := PruneIterator(n);
      }
      if r.Success? {
        IsPrunedState(v, model.states[n]);
      }
    }

    /** The delete loop as a step on trees. */
    method Delete()
      requires Valid()
      modifies this
      ensures Valid() && model == Restricted(old(model))
    {
      hide Kept;
      InfosAgree();
      DeleteUnreachable(model);
      forall n, i | n in states && 0 <= i < |Kids(states[n])| ensures Owns(Kids(states[n])[i]) {
        assert old(Owns(Kids(states[n])[i]));
        assert Kids(states[n])[i].Valid();
      }
      forall n | n in states ensures Stands(states[n], model.states[n]) {
        assert old(Stands(states[n], model.states[n]));
      }
      assert Disjoint();
      SetModel(Restricted(model));
    }

    /** Deletes the states without support and checks the transitions of what is left. */
    method DeleteAndCheck() returns (r: Result<(), PruneError>)
      requires Valid()
      modifies this
      ensures Valid()
      ensures r.Success? <==> LocallyPrunable(old(model))
      ensures r.Success? ==> model == Restricted(old(model))
    {
      ghost var m := model;
      hide Kept, HasValidTransitions, Valid;
      if startAt !in states {
        return Failure(StartAtNotFound(startAt));
      }
      Delete();
      InfosAgree();
      hide LocallyPrunable, Describes;
      LocallyPrunableAfterDelete(m, states);
      var bad := CheckTransitions();
      if bad.Some? {
        return Failure(InvalidTransitions(bad.value));
      }
      return Success(());
    }

    /** The last loop: every state that is left, in any order. */
    method PruneNested() returns (r: Result<(), PruneError>)
      requires Valid() && forall n :: n in states ==> KeptNilFreeState(model.states[n])
      modifies repr
      ensures Valid() && model.states.Keys == old(model).states.Keys
      ensures r.Success? <==> forall n :: n in old(model).states ==> NestedPrunable(old(model).states[n])
      ensures r.Success? ==> forall n :: n in model.states ==> model.states[n] == PrunedState(old(model).states[n])
      decreases repr, 0, 4
    {
      hide *;
      ghost var m := model;
      var pending := states.Keys;
      r := Success(());
      while pending != {}
        invariant Valid() && pending <= states.Keys && states.Keys == m.states.Keys
        invariant forall n :: n in pending ==> model.states[n] == m.states[n]
        invariant forall n :: n in states && n !in pending ==> NestedPrunable(m.states[n])
        invariant forall n :: n in states && n !in pending ==> model.states[n] == PrunedState(m.states[n])
        invariant r.Success?
        decreases pending
      {
        var n :| n in pending;
        pending := pending - {n};
        r := PruneState(n);
        if r.Failure? {
          return;
        }
      }
    }

    /** Discards the states that nothing leads to, checks the transitions of the rest and does the same
        in every nested machine. Whatever the visiting orders, it succeeds exactly on a prunable machine
        and leaves exactly its pruned form. */
    method RemoveInactiveStates() returns (r: Result<(), PruneError>)
      requires Valid() && KeptNilFree(model)
      modifies repr
      ensures Valid()
      ensures r.Success? <==> Prunable(old(model))
      ensures r.Success? ==> model == Pruned(old(model))
      decreases repr, 1
    {
      hide Kept, HasValidTransitions, Valid, NestedPrunable, KeptNilFreeState, PrunedState, LocallyPrunable;
      PrunableInSteps(model);
      r := DeleteAndCheck();
      if r.Success? {
        r := PruneNested();
      }
    }
  }

  lemma LocallyPrunableAfterDelete(m: Machine, states: map<string, SLState>)
    requires m.startAt in m.states && states.Keys == Kept(m) && Describes(Restricted(m), states)
    ensures LocallyPrunable(m) <==> forall n :: n in states ==> HasValidTransitions(states[n].info, states.Keys)
  {
    hide Kept, HasValidTransitions;
    assert forall n :: n in states ==> states[n].info == m.states[n].info;
  }

  lemma PrunableInSteps(m: Machine)
    ensures var r := Restricted(m);
            Prunable(m) <==> LocallyPrunable(m) && forall n :: n in r.states ==> NestedPrunable(r.states[n])
  {
    hide Kept;
    assert forall n :: n in Kept(m) ==> Restricted(m).states[n] == m.states[n];
  }

  lemma IsPrunedState(v: State, r: State)
    requires r.info == v.info
    requires v.info.typ.Parallel? ==>
               && r.iter == v.iter && |r.branches| == |v.branches|
               && forall j :: 0 <= j < |v.branches| ==> r.branches[j] == Pruned(v.branches[j])
    requires v.info.typ.Map? ==> v.iter.Some? && r == v.(iter := Some(Pruned(v.iter.value)))
    requires !v.info.typ.Parallel? && !v.info.typ.Map? ==> r == v
    ensures r == PrunedState(v)
  {
    hide Pruned;
    if v.info.typ.Parallel? {
      assert r.branches == PrunedState(v).branches;
    }
  }

  /** A machine after the delete loop alone. */
  ghost function Restricted(m: Machine): Machine {
    Machine(m.startAt, map n | n in Kept(m) :: m.states[n])
  }

  function WithKid(v: State, i: nat, m: Machine): (r: State)
    requires i < |KidModels(v)|
    ensures KidModels(r) == KidModels(v)[i := m] && r.info == v.info
    ensures |r.branches| == |v.branches| && r.iter.Some? == v.iter.Some?
  {
    if i < |v.branches| then v.(branches := v.branches[i := m]) else v.(iter := Some(m))
  }
}
