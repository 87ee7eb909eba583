/** Deep copies of machines: from a stored value to objects of one's own and back
    (`CopyWorkflowDefinition`). */
module MachineCopies {
  import opened Wrappers
  import opened StateMachines
  import opened RemoveInactive
  import opened Definitions

  /** The machines that a state refers to are trees that share nothing. */
  ghost predicate OwnKids(s: SLState)
    reads Kids(s), ReprOfState(s)
  {
    && (forall i :: 0 <= i < |Kids(s)| ==> Kids(s)[i].Valid())
    && forall i, j :: 0 <= i < |Kids(s)| && 0 <= j < |Kids(s)| && i != j ==> Kids(s)[i].repr !! Kids(s)[j].repr
  }

  ghost function ReprOfState(s: SLState): set<StateMachine> {
    set i, o | 0 <= i < |Kids(s)| && o in Kids(s)[i].repr :: o
  }

  lemma KidIsValid(s: SLState, i: nat)
    requires OwnKids(s) && i < |Kids(s)|
    ensures Kids(s)[i].Valid()
  {
  }

  lemma KidsAreOfState(s: SLState)
    ensures forall i :: 0 <= i < |Kids(s)| ==> Kids(s)[i].repr <= ReprOfState(s)
    ensures OwnKids(s) ==> forall k :: k in Kids(s) ==> k in ReprOfState(s)
  {
    forall i | 0 <= i < |Kids(s)| ensures Kids(s)[i].repr <= ReprOfState(s) {
    }
    if OwnKids(s) {
      forall k | k in Kids(s) ensures k in ReprOfState(s) {
        var i :| 0 <= i < |Kids(s)| && Kids(s)[i] == k;
        assert Kids(s)[i].Valid();
      }
    }
  }

  lemma StatesAreOfAll(states: map<string, SLState>)
    ensures forall n :: n in states ==> ReprOfState(states[n]) <= ReprOf(states)
    ensures forall o :: o in ReprOf(states) ==> exists n :: n in states && o in ReprOfState(states[n])
  {
  }

  /** One more state, that shares nothing with the others. */
  lemma AddState(states: map<string, SLState>, n: string, s: SLState)
    requires DisjointKids(states) && n !in states && OwnKids(s)
    requires ReprOfState(s) !! ReprOf(states)
    ensures DisjointKids(states[n := s])
    ensures ReprOf(states[n := s]) == ReprOf(states) + ReprOfState(s)
  {
    assert states[n := s].Keys == states.Keys + {n};
    var more := states[n := s];
    StatesAreOfAll(states);
    StatesAreOfAll(more);
    forall k
      ensures k in more ==> forall i :: 0 <= i < |Kids(more[k])| ==> Kids(more[k])[i].repr <= ReprOfState(more[k]) {
      if k in more { KidsAreOfState(more[k]); }
    }
    hide Kids, ReprOf, ReprOfState;
    forall o | o in ReprOf(states) ensures o in ReprOf(more) {
      var k :| k in states && o in ReprOfState(states[k]);
      assert more[k] == states[k];
    }
  }

  lemma NoStates()
    ensures DisjointKids(map[]) && ReprOf(map[]) == {}
  {
  }

  /** Nothing in the copy is shared with what was there before. */
  method CopyOf(m: Machine, startAt: string) returns (sm: StateMachine)
    ensures sm.Valid() && fresh(sm.repr)
    ensures sm.startAt == startAt && sm.model == m.(startAt := startAt)
    decreases m, 1
  {
    hide Stands, Kids, OwnKids, ReprOfState, DisjointKids;
    NoStates();
    var states: map<string, SLState> := map[];
    ghost var own: set<StateMachine> := {};
    var pending := m.states.Keys;
    while pending != {}
      invariant pending <= m.states.Keys && states.Keys == m.states.Keys - pending
      invariant forall n :: n in states ==> Stands(states[n], m.states[n]) && OwnKids(states[n])
      invariant fresh(own) && ReprOf(states) == own
      invariant DisjointKids(states)
      decreases pending
    {
      var n :| n in pending;
      pending := pending - {n};
      StatesAreOfAll(states);
      forall n', i | n' in states && 0 <= i < |Kids(states[n'])| ensures Kids(states[n'])[i] in own {
        KidsAreOfState(states[n']);
      }
      label before:
      var s := CopyOfState(m.states[n]);
      forall n' | n' in states ensures Stands(states[n'], m.states[n']) && OwnKids(states[n']) {
        assert old@before(Stands(states[n'], m.states[n']) && OwnKids(states[n']));
      }
      AddState(states, n, s);
      states := states[n := s];
      own := own + ReprOfState(s);
    }
    forall n, i | n in states && 0 <= i < |Kids(states[n])| ensures Kids(states[n])[i].Valid() {
      KidIsValid(states[n], i);
    }
    sm := new StateMachine(startAt, states, m.(startAt := startAt));
  }

  method CopyOfState(v: State) returns (s: SLState)
    ensures Stands(s, v) && OwnKids(s)
    ensures fresh(ReprOfState(s))
    decreases v, 0
  {
    var branches: seq<StateMachine> := [];
    for i := 0 to |v.branches|
      invariant |branches| == i
      invariant forall j :: 0 <= j < i ==>
                  branches[j].Valid() && fresh(branches[j].repr) && branches[j].model == v.branches[j]
      invariant forall j, k :: 0 <= j < k < i ==> branches[j].repr !! branches[k].repr
    {
      var branch := CopyOf(v.branches[i], v.branches[i].startAt);
      branches := branches + [branch];
    }
    var iter: StateMachine? := null;
    if v.iter.Some? {
      iter := CopyOf(v.iter.value, v.iter.value.startAt);
    }
    return SLState(v.info, branches, iter);
  }

  /** The value of an object tree, as the store keeps it. */
  method ValueOf(sm: StateMachine) returns (m: Machine)
    requires sm.Valid()
    ensures m == sm.model
    decreases sm.repr, 1
  {
    hide sm.Valid;
    var states: map<string, State> := map[];
    var pending := sm.states.Keys;
    while pending != {}
      invariant pending <= sm.states.Keys && states.Keys == sm.states.Keys - pending
      invariant forall n :: n in states ==> states[n] == sm.model.states[n]
      decreases pending
    {
      var n :| n in pending;
      pending := pending - {n};
      var v := ValueOfState(sm, n);
      states := states[n := v];
    }
    m := Machine(sm.startAt, states);
    assert m.states == sm.model.states;
  }

  method ValueOfState(sm: StateMachine, n: string) returns (v: State)
    requires sm.Valid() && n in sm.states
    ensures v == sm.model.states[n]
    decreases sm.repr, 0
  {
    hide sm.Valid;
    var s := sm.states[n];
    sm.ShapeOf(n);
    var branches: seq<Machine> := [];
    for i := 0 to |s.branches|
      invariant branches == sm.model.states[n].branches[..i]
    {
      KidOf(sm, n, i);
      var branch := ValueOf(s.branches[i]);
      branches := branches + [branch];
    }
    var iter: Option<Machine> := None;
    if s.iter != null {
      KidOf(sm, n, |s.branches|);
      var it := ValueOf(s.iter);
      iter := Some(it);
    }
    return State(s.info, branches, iter);
  }
}
