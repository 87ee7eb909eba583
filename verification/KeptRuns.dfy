/** What pruning does to the runs that SFN can make of a machine: it keeps every one, at every depth, and what
    it keeps is what such runs support. */
module KeptRuns {
  import opened Wrappers
  import opened StateMachines
  import opened PruningMeaning
  import opened CatchRuns

  /** The machine that is run inside a state: a branch of a Parallel state, the iterator of a Map state. */
  function Inner(s: State, child: nat): (r: Option<Machine>)
    ensures r.Some? ==> r.value < s
  {
    if s.info.typ.Parallel? && child < |s.branches| then Some(s.branches[child])
    else if s.info.typ.Map? && child == 0 then s.iter
    else None
  }

  lemma InnerIsNested(s: State, child: nat)
    ensures Inner(s, child) == if child < |Nested(s)| then Some(Nested(s)[child]) else None
  {
  }

  lemma InnerOfPruned(s: State, child: nat)
    ensures Inner(PrunedState(s), child)
         == match Inner(s, child) case None => None case Some(m) => Some(Pruned(m))
  {
    hide Pruned;
  }

  /** A run that stays in the machine's states. */
  ghost predicate IsDefinedRun(m: Machine, run: seq<string>) {
    IsRuntimeRun(m, run) && forall i :: 0 <= i < |run| ==> run[i] in m.states
  }

  lemma RuntimeTargetsAreTargets(s: StateInfo)
    ensures RuntimeTargets(s) <= Targets(s)
  {
  }

  lemma DefinedRunIsPath(m: Machine, run: seq<string>)
    requires IsDefinedRun(m, run)
    ensures IsPath(m, run)
  {
    hide RuntimeTargets, Targets;
    forall i | 0 < i < |run| ensures run[i] in Targets(m.states[run[i - 1]].info) {
      assert RuntimeStep(m, run[i - 1], run[i]);
      RuntimeTargetsAreTargets(m.states[run[i - 1]].info);
    }
  }

  /** One level: every state of a run survives, so the pruned machine has the same runs. */
  lemma RunsSurvive(m: Machine, run: seq<string>)
    ensures IsDefinedRun(m, run) ==> forall i :: 0 <= i < |run| ==> run[i] in Kept(m)
    ensures IsDefinedRun(m, run) <==> IsDefinedRun(Pruned(m), run)
  {
    hide RuntimeTargets, Kept, PrunedState, IsPath;
    if IsDefinedRun(m, run) {
      DefinedRunIsPath(m, run);
      PathStaysKept(m, run);
      forall i | 0 < i < |run| ensures RuntimeStep(Pruned(m), run[i - 1], run[i]) {
        assert RuntimeStep(m, run[i - 1], run[i]);
      }
    }
    if IsDefinedRun(Pruned(m), run) {
      forall i | 0 < i < |run| ensures RuntimeStep(m, run[i - 1], run[i]) {
        assert RuntimeStep(Pruned(m), run[i - 1], run[i]);
      }
    }
  }

  /** A run that may enter, from its last state, a machine inside it and go on there. */
  ghost predicate IsDeepRun(m: Machine, r: Route)
    decreases r
  {
    IsDefinedRun(m, r.path)
    && match r
       case At(_) => true
       case Into(p, child, inner) =>
         var machine := Inner(m.states[p[|p| - 1]], child);
         machine.Some? && IsDeepRun(machine.value, inner)
  }

  /** Whatever SFN can run of a machine it can run of the pruned machine, at every depth, and nothing else. */
  lemma {:induction false} PruningKeepsRuns(m: Machine, r: Route)
    ensures IsDeepRun(m, r) <==> IsDeepRun(Pruned(m), r)
    decreases r
  {
    hide Inner, IsDefinedRun, PrunedState;
    RunsSurvive(m, r.path);
    if IsDefinedRun(m, r.path) && r.Into? {
      LastIsDefined(m, r.path);
      var last := r.path[|r.path| - 1];
      var s := m.states[last];
      assert Pruned(m).states[last] == PrunedState(s);
      InnerOfPruned(s, r.child);
      if Inner(s, r.child).Some? {
        PruningKeepsRuns(Inner(s, r.child).value, r.inner);
      }
    }
  }

  lemma LastIsDefined(m: Machine, run: seq<string>)
    requires IsDefinedRun(m, run)
    ensures run != [] && run[|run| - 1] in Kept(m) && run[|run| - 1] in m.states
  {
    RunsSurvive(m, run);
  }

  // ---------- the converse ----------

  /** Some state of `names` can go on to `n`, as SFN runs it. */
  predicate IsFollowed(m: Machine, names: set<string>, n: string)
    requires names <= m.states.Keys
  {
    exists p :: p in names && n in RuntimeTargets(m.states[p].info)
  }

  /** Each state of `names` is the start, or one that a run can come to from another of them. */
  ghost predicate RunSupported(m: Machine, names: set<string>) {
    names <= m.states.Keys && forall n :: n in names ==> n == m.startAt || IsFollowed(m, names, n)
  }

  lemma TargetsThatRun(s: StateInfo, defined: set<string>, t: string)
    requires HasValidTransitions(s, defined) && t != "" && t in Targets(s)
    ensures t in RuntimeTargets(s)
  {
  }

  /** A state with the empty name is the start, or one that a run can come to. */
  predicate UnnamedIsFollowed(m: Machine, names: set<string>)
    requires names <= m.states.Keys
  {
    "" in names ==> "" == m.startAt || IsFollowed(m, names, "")
  }

  /** What pruning keeps of a machine that it accepts has every set of states that runs support, and is such
      a set itself if and only if a state with the empty name is one that runs come to. */
  lemma KeptIsWhatRunsSupport(m: Machine)
    requires Prunable(m)
    ensures RunSupported(m, Kept(m)) <==> UnnamedIsFollowed(m, Kept(m))
    ensures forall names :: RunSupported(m, names) ==> names <= Kept(m)
  {
    KeptIsGreatest(m);
    hide Kept, Targets, RuntimeTargets, HasValidTransitions, NestedPrunable;
    forall n | n in Kept(m) && n != m.startAt && n != "" ensures IsFollowed(m, Kept(m), n) {
      assert Reaches(m, Kept(m), n);
      var p :| p in Kept(m) && n in Targets(m.states[p].info);
      TargetsThatRun(m.states[p].info, Kept(m), n);
    }
    forall names | RunSupported(m, names) ensures names <= Kept(m) {
      RunSupportedIsSupported(m, names);
    }
  }

  lemma RunSupportedIsSupported(m: Machine, names: set<string>)
    requires RunSupported(m, names)
    ensures Supported(m, names)
  {
    hide Targets, RuntimeTargets;
    forall n | n in names ensures Reaches(m, names, n) {
      if n != m.startAt {
        assert IsFollowed(m, names, n);
        var p :| p in names && n in RuntimeTargets(m.states[p].info);
        RuntimeTargetsAreTargets(m.states[p].info);
      }
    }
  }

  /** The same for a stored definition at every depth: no state is there without a run's support. */
  ghost predicate RunSupportedThroughout(m: Machine)
    decreases m
  {
    && RunSupported(m, m.states.Keys)
    && forall n, child :: n in m.states && Inner(m.states[n], child).Some? ==>
         RunSupportedThroughout(Inner(m.states[n], child).value)
  }

  ghost predicate UnnamedAreFollowed(m: Machine)
    decreases m
  {
    && UnnamedIsFollowed(m, m.states.Keys)
    && forall n, child :: n in m.states && Inner(m.states[n], child).Some? ==>
         UnnamedAreFollowed(Inner(m.states[n], child).value)
  }

  lemma {:induction false} StoredIsRunSupported(m: Machine)
    requires Sound(m)
    ensures RunSupportedThroughout(m) <==> UnnamedAreFollowed(m)
    decreases m
  {
    hide RunSupported, UnnamedIsFollowed, Inner, Prunable, Pruned;
    SoundMachineParts(m);
    forall n, child: nat | n in m.states && Inner(m.states[n], child).Some?
      ensures var inner := Inner(m.states[n], child).value;
              RunSupportedThroughout(inner) <==> UnnamedAreFollowed(inner)
    {
      InnerIsNested(m.states[n], child);
      NestedIsSound(m.states[n], child);
      StoredIsRunSupported(Inner(m.states[n], child).value);
    }
  }

  lemma SoundMachineParts(m: Machine)
    requires Sound(m)
    ensures RunSupported(m, m.states.Keys) <==> UnnamedIsFollowed(m, m.states.Keys)
    ensures forall n :: n in m.states ==> PrunedState(m.states[n]) == m.states[n] && NestedPrunable(m.states[n])
  {
    SoundParts(m);
    KeptIsWhatRunsSupport(m);
    hide RunSupported, UnnamedIsFollowed, Kept, PrunedState, NestedPrunable;
  }

  const UNNAMED := State(
    StateInfo(Pass, "", true, [], [], "", "", None, None, WaitFields(0, "", "", ""), ""), [], None)

  /** A state with the empty name stays although no run comes to it: the absent Next of an End state is
      compared with it. */
  lemma UnnamedStateSurvives()
    ensures var m := Machine("a", map["a" := UNNAMED, "" := UNNAMED]);
            Sound(m) && !RunSupported(m, m.states.Keys)
  {
    var m := Machine("a", map["a" := UNNAMED, "" := UNNAMED]);
    assert m.states["a"].info == UNNAMED.info && m.states[""].info == UNNAMED.info;
    assert "" in Targets(UNNAMED.info);
    assert Reaches(m, {"a", ""}, "a") && Reaches(m, {"a", ""}, "");
    assert Supported(m, {"a", ""});
    KeptIsGreatest(m);
    assert Kept(m) == m.states.Keys;
    assert PrunedState(UNNAMED) == UNNAMED;
    assert Pruned(m).states == m.states;
    assert !IsFollowed(m, m.states.Keys, "");
  }

  // ---------- when pruning accepts ----------

  /** End states have no Next, and other states have one where they need one. */
  predicate NamesItsNext(s: StateInfo) {
    if s.end then s.next == ""
    else s.typ.Choice? || s.typ.Succeed? || s.typ.Fail? || s.next != ""
  }

  /** Every state names its Next, and every target that a state goes to without failing is defined. */
  ghost predicate IsInOrder(m: Machine)
    decreases m
  {
    && m.startAt in m.states
    && (forall n :: n in m.states ==>
          && NamesItsNext(m.states[n].info)
          && (m.states[n].info.end || NormalTargets(m.states[n].info) <= m.states.Keys))
    && forall n, child :: n in m.states && Inner(m.states[n], child).Some? ==>
         IsInOrder(Inner(m.states[n], child).value)
  }

  lemma CheckExactly(s: StateInfo, defined: set<string>)
    ensures HasValidTransitions(s, defined) <==> NamesItsNext(s) && (s.end || NormalTargets(s) <= defined)
  {
  }

  /** Pruning accepts a machine if and only if what is left of it is in order at every depth. */
  lemma {:induction false} AcceptsExactly(m: Machine)
    ensures Prunable(m) <==> IsInOrder(Pruned(m))
    decreases m, 1
  {
    if m.startAt in m.states {
      StartIsKept(m);
    }
    var p := Pruned(m);
    forall n | n in Kept(m)
      ensures HasValidTransitions(m.states[n].info, Kept(m))
         <==> NamesItsNext(p.states[n].info) && (p.states[n].info.end || NormalTargets(p.states[n].info) <= Kept(m))
      ensures NestedPrunable(m.states[n]) <==> InnersInOrder(p.states[n])
    {
      CheckExactly(m.states[n].info, Kept(m));
      AcceptsNestedExactly(m.states[n]);
    }
    hide Kept, NamesItsNext, NormalTargets, HasValidTransitions, NestedPrunable, PrunedState, Inner;
  }

  ghost predicate InnersInOrder(s: State) {
    forall child :: Inner(s, child).Some? ==> IsInOrder(Inner(s, child).value)
  }

  lemma {:induction false} AcceptsNestedExactly(s: State)
    ensures NestedPrunable(s) <==> InnersInOrder(PrunedState(s))
    decreases s, 0
  {
    hide Prunable, IsInOrder, Pruned, PrunedState, Inner;
    forall i: nat
      ensures Inner(PrunedState(s), i) == if i < |Nested(s)| then Some(Pruned(Nested(s)[i])) else None
      ensures i < |Nested(s)| ==> (Prunable(Nested(s)[i]) <==> IsInOrder(Pruned(Nested(s)[i])))
    {
      InnerIsNested(s, i);
      InnerOfPruned(s, i);
      if i < |Nested(s)| {
        AcceptsExactly(Nested(s)[i]);
      }
    }
  }
}
