/** Runs that may take Catch edges and leave End states: exactly when an accepted machine keeps them in
    defined states. `hasValidTransitions` checks neither kind of edge. */
module CatchRuns {
  import opened Wrappers
  import opened StateMachines
  import opened PruningMeaning

  function NonEmpty(name: string): set<string> {
    if name != "" then {name} else {}
  }

  /** Where SFN may go from a state: on, along a Catch edge, or along a choice whether or not the Choice
      state is marked as an End state. */
  function RuntimeTargets(s: StateInfo): set<string> {
    match s.typ
    case Pass | Task | Wait | Parallel | Map => (if s.end then {} else {s.next}) + set c | c in s.catches
    case Choice => (set c | c in s.choices) + NonEmpty(s.defaultNext)
    case Succeed | Fail => {}
  }

  /** Those among them that the acceptance of a definition does not look at. */
  function UncheckedTargets(s: StateInfo): set<string> {
    match s.typ
    case Pass | Task | Wait | Parallel | Map => set c | c in s.catches
    case Choice => if s.end then (set c | c in s.choices) + NonEmpty(s.defaultNext) else {}
    case Succeed | Fail => {}
  }

  predicate RuntimeStep(m: Machine, a: string, b: string) {
    a in m.states && b in RuntimeTargets(m.states[a].info)
  }

  ghost predicate IsRuntimeRun(m: Machine, run: seq<string>) {
    run != [] && run[0] == m.startAt && forall i :: 0 < i < |run| ==> RuntimeStep(m, run[i - 1], run[i])
  }

  /** Some run comes to the state. */
  ghost predicate Visited(m: Machine, n: string) {
    n in m.states && exists run :: IsRuntimeRun(m, run) && run[|run| - 1] == n
  }

  /** No run leaves the defined states, and none of a machine nested in a state that a run comes to. */
  ghost predicate StaysDefined(m: Machine)
    decreases m, 1
  {
    && (forall run, i :: IsRuntimeRun(m, run) && 0 <= i < |run| ==> run[i] in m.states)
    && forall n :: n in m.states && Visited(m, n) ==> NestedStaysDefined(m.states[n])
  }

  ghost predicate NestedStaysDefined(s: State)
    decreases s, 0
  {
    forall i :: 0 <= i < |Nested(s)| ==> StaysDefined(Nested(s)[i])
  }

  /** The check that is missing: every state that a run comes to has its unchecked targets defined, at
      every depth. */
  ghost predicate UncheckedAreDefined(m: Machine)
    decreases m, 1
  {
    forall n :: n in m.states && Visited(m, n) ==>
      UncheckedTargets(m.states[n].info) <= m.states.Keys && NestedUncheckedAreDefined(m.states[n])
  }

  ghost predicate NestedUncheckedAreDefined(s: State)
    decreases s, 0
  {
    forall i :: 0 <= i < |Nested(s)| ==> UncheckedAreDefined(Nested(s)[i])
  }

  lemma ClosedTargets(s: StateInfo, defined: set<string>)
    requires TransitionsClosed(s, defined)
    ensures RuntimeTargets(s) <= defined <==> UncheckedTargets(s) <= defined
  {
  }

  lemma RunExtends(m: Machine, run: seq<string>, t: string)
    requires IsRuntimeRun(m, run) && run[|run| - 1] in m.states && t in RuntimeTargets(m.states[run[|run| - 1]].info)
    ensures IsRuntimeRun(m, run + [t])
  {
    hide RuntimeTargets;
  }

  lemma RunPrefixIsRun(m: Machine, run: seq<string>, k: nat)
    requires IsRuntimeRun(m, run) && 0 < k <= |run|
    ensures IsRuntimeRun(m, run[..k])
  {
    hide RuntimeStep;
  }

  /** One level: the runs of a closed machine stay in its states exactly when the unchecked targets of the
      states they come to are defined. */
  lemma RunsStayExactly(m: Machine)
    requires Closed(m)
    ensures (forall run, i :: IsRuntimeRun(m, run) && 0 <= i < |run| ==> run[i] in m.states)
       <==> (forall n :: n in m.states && Visited(m, n) ==> UncheckedTargets(m.states[n].info) <= m.states.Keys)
  {
    hide RuntimeTargets, UncheckedTargets, RuntimeStep;
    if forall run, i :: IsRuntimeRun(m, run) && 0 <= i < |run| ==> run[i] in m.states {
      forall n | n in m.states && Visited(m, n) ensures UncheckedTargets(m.states[n].info) <= m.states.Keys {
        var run :| IsRuntimeRun(m, run) && run[|run| - 1] == n;
        TargetsOfVisited(m, run);
      }
    }
    if forall n :: n in m.states && Visited(m, n) ==> UncheckedTargets(m.states[n].info) <= m.states.Keys {
      forall run, i | IsRuntimeRun(m, run) && 0 <= i < |run| ensures run[i] in m.states {
        RunStays(m, run, i);
      }
    }
  }

  lemma TargetsOfVisited(m: Machine, run: seq<string>)
    requires Closed(m) && IsRuntimeRun(m, run) && run[|run| - 1] in m.states
    requires forall r, i :: IsRuntimeRun(m, r) && 0 <= i < |r| ==> r[i] in m.states
    ensures UncheckedTargets(m.states[run[|run| - 1]].info) <= m.states.Keys
  {
    var n := run[|run| - 1];
    ClosedTargets(m.states[n].info, m.states.Keys);
    hide RuntimeTargets, UncheckedTargets, IsRuntimeRun;
    forall t | t in RuntimeTargets(m.states[n].info) ensures t in m.states {
      RunExtends(m, run, t);
      assert (run + [t])[|run|] == t;
    }
  }

  lemma {:induction false} RunStays(m: Machine, run: seq<string>, i: nat)
    requires Closed(m) && IsRuntimeRun(m, run) && i < |run|
    requires forall n :: n in m.states && Visited(m, n) ==> UncheckedTargets(m.states[n].info) <= m.states.Keys
    ensures run[i] in m.states
  {
    if i > 0 {
      RunStays(m, run, i - 1);
      var a := run[i - 1];
      RunPrefixIsRun(m, run, i);
      assert run[..i][i - 1] == a;
      assert Visited(m, a);
      ClosedTargets(m.states[a].info, m.states.Keys);
      assert RuntimeStep(m, a, run[i]);
    }
  }

  /** In a machine that pruning accepts, runs that may take Catch edges and leave End states stay in
      defined states, at every depth, if and only if the missing check passes. */
  lemma {:induction false} RunsStayDefinedExactly(m: Machine)
    requires Closed(m)
    ensures StaysDefined(m) <==> UncheckedAreDefined(m)
    decreases m, 1
  {
    RunsStayExactly(m);
    forall n | n in m.states ensures NestedStaysDefined(m.states[n]) <==> NestedUncheckedAreDefined(m.states[n]) {
      assert NestedClosed(m.states[n]);
      NestedStayDefinedExactly(m.states[n]);
    }
    hide NestedStaysDefined, NestedUncheckedAreDefined, Visited, IsRuntimeRun, UncheckedTargets, Closed;
  }

  lemma {:induction false} NestedStayDefinedExactly(s: State)
    requires NestedClosed(s)
    ensures NestedStaysDefined(s) <==> NestedUncheckedAreDefined(s)
    decreases s, 0
  {
    forall i | 0 <= i < |Nested(s)| ensures StaysDefined(Nested(s)[i]) <==> UncheckedAreDefined(Nested(s)[i]) {
      RunsStayDefinedExactly(Nested(s)[i]);
    }
    hide StaysDefined, UncheckedAreDefined;
  }

  /** The same for definitions as they are stored. */
  lemma StoredDefinitionsStayDefinedExactly(m: Machine)
    requires Sound(m)
    ensures StaysDefined(m) <==> UncheckedAreDefined(m)
  {
    hide *;
    SoundIsClosed(m);
    RunsStayDefinedExactly(m);
  }

  lemma SoundIsClosed(m: Machine)
    requires Sound(m)
    ensures Closed(m)
  {
    PrunedIsClosed(m);
    hide Closed, Pruned, Prunable;
  }

  /** A machine that is accepted and fails: its only state catches into nowhere. */
  lemma CaughtIntoNowhere()
    ensures var m := Machine("a", map["a" := CATCHING]);
            && Sound(m) && !StaysDefined(m)
            && IsRuntimeRun(m, ["a", "missing"]) && "missing" !in m.states
  {
    CatchTargetsAreNotChecked();
    var m := Machine("a", map["a" := CATCHING]);
    hide Sound;
    assert RuntimeStep(m, "a", "missing");
    var run := ["a", "missing"];
    assert IsRuntimeRun(m, run) && run[1] == "missing";
  }

  // ---------- the missing check, without runs ----------

  /** The defined states that one of `names` can go to. */
  function Successors(m: Machine, names: set<string>): set<string> {
    set a, b | a in names && a in m.states && b in RuntimeTargets(m.states[a].info) && b in m.states :: b
  }

  /** The least set of defined states that has `names` and all that can be gone to from it. */
  function Walked(m: Machine, names: set<string>): (r: set<string>)
    requires names <= m.states.Keys
    ensures names <= r <= m.states.Keys
    ensures Successors(m, r) <= r
    decreases m.states.Keys - names
  {
    var more := Successors(m, names);
    if more <= names then names else Walked(m, names + more)
  }

  function StartOf(m: Machine): set<string> {
    if m.startAt in m.states then {m.startAt} else {}
  }

  lemma VisitedByStep(m: Machine, a: string, b: string)
    requires Visited(m, a) && b in RuntimeTargets(m.states[a].info) && b in m.states
    ensures Visited(m, b)
  {
    hide RuntimeTargets, RuntimeStep;
    var run :| IsRuntimeRun(m, run) && run[|run| - 1] == a;
    RunExtends(m, run, b);
    assert (run + [b])[|run + [b]| - 1] == b;
  }

  lemma {:induction false} WalkedIsVisited(m: Machine, names: set<string>)
    requires names <= m.states.Keys && forall n :: n in names ==> Visited(m, n)
    ensures forall n :: n in Walked(m, names) ==> Visited(m, n)
    decreases m.states.Keys - names
  {
    hide RuntimeTargets, Visited;
    var more := Successors(m, names);
    if !(more <= names) {
      forall b | b in more ensures Visited(m, b) {
        var a :| a in names && a in m.states && b in RuntimeTargets(m.states[a].info);
        VisitedByStep(m, a, b);
      }
      WalkedIsVisited(m, names + more);
    }
  }

  lemma {:induction false} RunIsWalked(m: Machine, run: seq<string>)
    requires IsRuntimeRun(m, run) && run[|run| - 1] in m.states
    ensures run[|run| - 1] in Walked(m, StartOf(m))
    decreases |run|
  {
    hide RuntimeTargets, Walked;
    var walked := Walked(m, StartOf(m));
    if |run| == 1 {
      assert run[0] in StartOf(m);
    } else {
      var last := |run| - 1;
      assert RuntimeStep(m, run[last - 1], run[last]);
      RunPrefixIsRun(m, run, last);
      assert run[..last][last - 1] == run[last - 1];
      RunIsWalked(m, run[..last]);
      assert run[last] in Successors(m, walked);
    }
  }

  /** The states that runs come to are computed by a walk over the definition. */
  lemma VisitedIsWalked(m: Machine, n: string)
    ensures n in m.states && Visited(m, n) <==> n in Walked(m, StartOf(m))
  {
    hide Walked, RuntimeStep;
    if n in m.states && Visited(m, n) {
      var run :| IsRuntimeRun(m, run) && run[|run| - 1] == n;
      RunIsWalked(m, run);
    }
    if m.startAt in m.states {
      var run := [m.startAt];
      assert IsRuntimeRun(m, run) && run[|run| - 1] == m.startAt;
    }
    hide Visited;
    WalkedIsVisited(m, StartOf(m));
  }

  /** A check that a handler could make before it stores a definition. */
  predicate PassesWalk(m: Machine)
    decreases m, 1
  {
    forall n :: n in Walked(m, StartOf(m)) ==>
      UncheckedTargets(m.states[n].info) <= m.states.Keys && NestedPassesWalk(m.states[n])
  }

  predicate NestedPassesWalk(s: State)
    decreases s, 0
  {
    forall i :: 0 <= i < |Nested(s)| ==> PassesWalk(Nested(s)[i])
  }

  lemma {:induction false} PassesWalkExactly(m: Machine)
    ensures PassesWalk(m) <==> UncheckedAreDefined(m)
    decreases m, 1
  {
    forall n
      ensures n in m.states && Visited(m, n) <==> n in Walked(m, StartOf(m))
      ensures n in m.states ==> (NestedPassesWalk(m.states[n]) <==> NestedUncheckedAreDefined(m.states[n]))
    {
      VisitedIsWalked(m, n);
      if n in m.states {
        NestedPassesWalkExactly(m.states[n]);
      }
    }
    hide Visited, Walked, UncheckedTargets, NestedPassesWalk, NestedUncheckedAreDefined;
  }

  lemma {:induction false} NestedPassesWalkExactly(s: State)
    ensures NestedPassesWalk(s) <==> NestedUncheckedAreDefined(s)
    decreases s, 0
  {
    forall i | 0 <= i < |Nested(s)| ensures PassesWalk(Nested(s)[i]) <==> UncheckedAreDefined(Nested(s)[i]) {
      PassesWalkExactly(Nested(s)[i]);
    }
    hide PassesWalk, UncheckedAreDefined;
  }

  /** The runs of an accepted machine stay in defined states, at every depth, if and only if the definition
      passes the walk. */
  lemma WalkDecides(m: Machine)
    requires Closed(m)
    ensures StaysDefined(m) <==> PassesWalk(m)
  {
    hide *;
    RunsStayDefinedExactly(m);
    PassesWalkExactly(m);
  }

  // ---------- without unreachable cycles: all states ----------

  /** Everything that the definition keeps is reachable, and no state has the empty name, at every depth. */
  ghost predicate AllReachable(m: Machine)
    decreases m, 1
  {
    && "" !in m.states
    && forall n :: n in m.states ==> IsReachable(m, n) && NestedAllReachable(m.states[n])
  }

  ghost predicate NestedAllReachable(s: State)
    decreases s, 0
  {
    forall i :: 0 <= i < |Nested(s)| ==> AllReachable(Nested(s)[i])
  }

  /** All states have their unchecked targets defined, at every depth. */
  predicate AllTargetsDefined(m: Machine)
    decreases m, 1
  {
    forall n :: n in m.states ==>
      UncheckedTargets(m.states[n].info) <= m.states.Keys && NestedAllTargetsDefined(m.states[n])
  }

  predicate NestedAllTargetsDefined(s: State)
    decreases s, 0
  {
    forall i :: 0 <= i < |Nested(s)| ==> AllTargetsDefined(Nested(s)[i])
  }

  lemma TargetsAreRuntime(s: StateInfo, defined: set<string>, t: string)
    requires TransitionsClosed(s, defined) && t != "" && t in Targets(s)
    ensures t in RuntimeTargets(s)
  {
  }

  lemma {:induction false} PathIsRun(m: Machine, p: seq<string>)
    requires Closed(m) && "" !in m.states && IsPath(m, p)
    ensures IsRuntimeRun(m, p)
  {
    hide Targets, RuntimeTargets, TransitionsClosed;
    forall i | 0 < i < |p| ensures RuntimeStep(m, p[i - 1], p[i]) {
      TargetsAreRuntime(m.states[p[i - 1]].info, m.states.Keys, p[i]);
    }
  }

  lemma ReachableIsVisited(m: Machine, n: string)
    requires Closed(m) && "" !in m.states && n in m.states && IsReachable(m, n)
    ensures Visited(m, n)
  {
    var p :| IsPath(m, p) && p[|p| - 1] == n;
    PathIsRun(m, p);
  }

  /** For a machine without unreachable cycles the check is on all states, with no walk. */
  lemma {:induction false} AllStatesDecide(m: Machine)
    requires Closed(m) && AllReachable(m)
    ensures UncheckedAreDefined(m) <==> AllTargetsDefined(m)
    decreases m, 1
  {
    forall n | n in m.states
      ensures Visited(m, n)
      ensures NestedUncheckedAreDefined(m.states[n]) <==> NestedAllTargetsDefined(m.states[n])
    {
      ReachableIsVisited(m, n);
      NestedAllStatesDecide(m.states[n]);
    }
    hide Closed, AllReachable, Visited, UncheckedTargets, NestedUncheckedAreDefined, NestedAllTargetsDefined;
  }

  lemma {:induction false} NestedAllStatesDecide(s: State)
    requires NestedClosed(s) && NestedAllReachable(s)
    ensures NestedUncheckedAreDefined(s) <==> NestedAllTargetsDefined(s)
    decreases s, 0
  {
    forall i | 0 <= i < |Nested(s)| ensures UncheckedAreDefined(Nested(s)[i]) <==> AllTargetsDefined(Nested(s)[i]) {
      AllStatesDecide(Nested(s)[i]);
    }
    hide UncheckedAreDefined, AllTargetsDefined;
  }

  /** No unreachable states form a cycle, and no state has the empty name, at every depth. */
  ghost predicate CycleFree(m: Machine)
    decreases m, 1
  {
    && "" !in m.states && (!exists c :: IsUnreachableCycle(m, c))
    && forall n :: n in m.states ==> NestedCycleFree(m.states[n])
  }

  ghost predicate NestedCycleFree(s: State)
    decreases s, 0
  {
    forall i :: 0 <= i < |Nested(s)| ==> CycleFree(Nested(s)[i])
  }

  lemma SoundParts(m: Machine)
    requires Sound(m)
    ensures m.states.Keys == Kept(m)
    ensures forall n :: n in m.states ==> PrunedState(m.states[n]) == m.states[n] && NestedPrunable(m.states[n])
  {
    assert Pruned(m).states == m.states;
    hide Kept, PrunedState, NestedPrunable, HasValidTransitions;
  }

  lemma NestedIsSound(s: State, i: nat)
    requires PrunedState(s) == s && NestedPrunable(s) && i < |Nested(s)|
    ensures Sound(Nested(s)[i])
  {
    hide Pruned, Prunable;
  }

  lemma {:induction false} CycleFreeIsReachable(m: Machine)
    requires Sound(m) && CycleFree(m)
    ensures AllReachable(m)
    decreases m, 1
  {
    SoundParts(m);
    KeptIsReachableUnlessCycle(m);
    hide Sound, Kept, IsReachable, IsUnreachableCycle, PrunedState, NestedPrunable;
    forall n | n in m.states ensures NestedAllReachable(m.states[n]) {
      NestedCycleFreeIsReachable(m.states[n]);
    }
  }

  lemma {:induction false} NestedCycleFreeIsReachable(s: State)
    requires PrunedState(s) == s && NestedPrunable(s) && NestedCycleFree(s)
    ensures NestedAllReachable(s)
    decreases s, 0
  {
    hide PrunedState, NestedPrunable, Sound;
    forall i | 0 <= i < |Nested(s)| ensures AllReachable(Nested(s)[i]) {
      NestedIsSound(s, i);
      CycleFreeIsReachable(Nested(s)[i]);
    }
  }

  /** For a stored definition without unreachable cycles: its runs stay in defined states, at every depth, if
      and only if every state has its unchecked targets defined. */
  lemma AllStatesDecideStored(m: Machine)
    requires Sound(m) && CycleFree(m)
    ensures StaysDefined(m) <==> AllTargetsDefined(m)
  {
    hide *;
    SoundIsClosed(m);
    CycleFreeIsReachable(m);
    RunsStayDefinedExactly(m);
    AllStatesDecide(m);
  }

  // ---------- which states an execution can enter ----------

  /** A run comes to a state of that name and type, at some depth. */
  ghost predicate ComesTo(m: Machine, name: string, typ: StateType)
    decreases m, 1
  {
    exists n :: n in m.states && Visited(m, n)
      && ((n == name && m.states[n].info.typ == typ) || NestedComesTo(m.states[n], name, typ))
  }

  ghost predicate NestedComesTo(s: State, name: string, typ: StateType)
    decreases s, 0
  {
    exists i :: 0 <= i < |Nested(s)| && ComesTo(Nested(s)[i], name, typ)
  }

  predicate IsJobType(typ: StateType) {
    typ.Task? || typ.Choice? || typ.Succeed?
  }

  /** Some Task, Choice or Succeed state is visited, at some depth: executions can have jobs. */
  ghost predicate MakesJobs(m: Machine) {
    exists name, typ :: IsJobType(typ) && ComesTo(m, name, typ)
  }
}
