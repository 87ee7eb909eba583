/** What pruning a state machine means for its runs. */
module PruningMeaning {
  import opened Wrappers
  import opened StateMachines

  // ---------- paths at every depth ----------

  /** A path along transitions, Catch edges included, from the start state. */
  ghost predicate IsPath(m: Machine, p: seq<string>) {
    && p != [] && p[0] == m.startAt
    && (forall i :: 0 <= i < |p| ==> p[i] in m.states)
    && forall i :: 0 < i < |p| ==> p[i] in Targets(m.states[p[i - 1]].info)
  }

  lemma PathStaysKept(m: Machine, p: seq<string>)
    requires IsPath(m, p)
    ensures forall i :: 0 <= i < |p| ==> p[i] in Kept(m)
  {
    var names := set n | n in p;
    forall n | n in names ensures Reaches(m, names, n) {
      var i :| 0 <= i < |p| && p[i] == n;
      if i > 0 {
        assert p[i - 1] in names;
      }
    }
    assert Supported(m, names);
    KeptIsGreatest(m);
  }

  lemma PathsSurvive(m: Machine, p: seq<string>)
    ensures IsPath(m, p) <==> IsPath(Pruned(m), p)
  {
    if IsPath(m, p) {
      PathStaysKept(m, p);
    }
  }

  /** A path that may enter, from its last state, one of the nested machines and go on there. */
  datatype Route = At(path: seq<string>) | Into(path: seq<string>, child: nat, inner: Route)

  ghost predicate IsRoute(m: Machine, r: Route)
    decreases r
  {
    IsPath(m, r.path)
    && match r
       case At(_) => true
       case Into(p, child, inner) =>
         var nested := Nested(m.states[p[|p| - 1]]);
         child < |nested| && IsRoute(nested[child], inner)
  }

  /** Pruning keeps every route of the machine, at every nesting level, and adds none. */
  lemma {:induction false} PruningKeepsRoutes(m: Machine, r: Route)
    ensures IsRoute(m, r) <==> IsRoute(Pruned(m), r)
    decreases r
  {
    PathsSurvive(m, r.path);
    if IsPath(m, r.path) && r.Into? {
      var s := m.states[r.path[|r.path| - 1]];
      PathStaysKept(m, r.path);
      assert Pruned(m).states[r.path[|r.path| - 1]] == PrunedState(s);
      if r.child < |Nested(s)| {
        PruningKeepsRoutes(Nested(s)[r.child], r.inner);
      }
    }
  }

  // ---------- kept states and reachable states ----------

  ghost predicate IsReachable(m: Machine, n: string) {
    exists p :: IsPath(m, p) && p[|p| - 1] == n
  }

  predicate Precedes(m: Machine, p: string, n: string) {
    p in m.states && n in Targets(m.states[p].info)
  }

  /** States none of which is reachable, each a target of the next one and the last a target of the first. */
  ghost predicate IsUnreachableCycle(m: Machine, c: seq<string>) {
    && c != []
    && (forall i :: 0 <= i < |c| ==> c[i] in m.states && !IsReachable(m, c[i]))
    && (forall i :: 0 < i < |c| ==> Precedes(m, c[i], c[i - 1]))
    && Precedes(m, c[0], c[|c| - 1])
  }

  lemma ReachableIsKept(m: Machine, n: string)
    requires IsReachable(m, n)
    ensures n in Kept(m)
  {
    var p :| IsPath(m, p) && p[|p| - 1] == n;
    PathStaysKept(m, p);
  }

  lemma StepIsReachable(m: Machine, p: string, n: string)
    requires Precedes(m, p, n) && n in m.states && IsReachable(m, p)
    ensures IsReachable(m, n)
  {
    var path :| IsPath(m, path) && path[|path| - 1] == p;
    assert IsPath(m, path + [n]);
    assert (path + [n])[|path + [n]| - 1] == n;
  }

  lemma {:induction false} DistinctFit(s: seq<string>, names: set<string>)
    requires forall i, j :: 0 <= i < j < |s| ==> s[i] != s[j]
    requires forall i :: 0 <= i < |s| ==> s[i] in names
    ensures |s| <= |names|
  {
    if s != [] {
      var last := s[|s| - 1];
      DistinctFit(s[..|s| - 1], names - {last});
    }
  }

  /** A set of unreachable states each of which has a predecessor in the set. */
  ghost predicate SelfSupported(m: Machine, names: set<string>) {
    forall n :: n in names ==> n in m.states && !IsReachable(m, n) && HasPredecessor(m, names, n)
  }

  predicate HasPredecessor(m: Machine, names: set<string>, n: string) {
    exists p :: p in names && Precedes(m, p, n)
  }

  /** Distinct states of the set, each but the first a predecessor of the one before it. */
  ghost predicate IsChain(m: Machine, names: set<string>, chain: seq<string>) {
    && chain != []
    && (forall i :: 0 <= i < |chain| ==> chain[i] in names)
    && (forall i, j :: 0 <= i < j < |chain| ==> chain[i] != chain[j])
    && forall i :: 0 < i < |chain| ==> Precedes(m, chain[i], chain[i - 1])
  }

  lemma CloseCycle(m: Machine, names: set<string>, chain: seq<string>, j: nat)
    requires SelfSupported(m, names) && IsChain(m, names, chain)
    requires j < |chain| && Precedes(m, chain[j], chain[|chain| - 1])
    ensures IsUnreachableCycle(m, chain[j..])
  {
    hide IsReachable;
    hide HasPredecessor;
  }

  lemma ExtendChain(m: Machine, names: set<string>, chain: seq<string>, p: string)
    requires IsChain(m, names, chain) && p in names && p !in chain && Precedes(m, p, chain[|chain| - 1])
    ensures IsChain(m, names, chain + [p]) && |chain + [p]| <= |names|
  {
    hide Precedes;
    DistinctFit(chain + [p], names);
  }

  lemma LinkBack(m: Machine, names: set<string>, chain: seq<string>) returns (p: string)
    requires SelfSupported(m, names) && IsChain(m, names, chain)
    ensures chain != [] && p in names && Precedes(m, p, chain[|chain| - 1])
  {
    hide IsReachable;
    assert HasPredecessor(m, names, chain[|chain| - 1]);
    p :| p in names && Precedes(m, p, chain[|chain| - 1]);
  }

  /** Walking from predecessor to predecessor inside a finite set comes back to a state seen before. */
  lemma {:induction false} WalkBack(m: Machine, names: set<string>, chain: seq<string>) returns (c: seq<string>)
    requires SelfSupported(m, names) && IsChain(m, names, chain)
    ensures IsUnreachableCycle(m, c)
    decreases |names| - |chain|
  {
    hide *;
    var p := LinkBack(m, names, chain);
    if p in chain {
      var j :| 0 <= j < |chain| && chain[j] == p;
      CloseCycle(m, names, chain, j);
      c := chain[j..];
    } else {
      ExtendChain(m, names, chain, p);
      c := WalkBack(m, names, chain + [p]);
    }
  }

  lemma UnreachableCycleIsKept(m: Machine, c: seq<string>)
    requires IsUnreachableCycle(m, c)
    ensures c != [] && c[0] in Kept(m) && !IsReachable(m, c[0])
  {
    hide IsReachable;
    var names := set n | n in c;
    forall n | n in names ensures Reaches(m, names, n) {
      var i :| 0 <= i < |c| && c[i] == n;
      var p := c[if i + 1 < |c| then i + 1 else 0];
      assert p in names && Precedes(m, p, n);
    }
    assert Supported(m, names);
    KeptIsGreatest(m);
  }

  lemma UnreachableKeptIsSelfSupported(m: Machine)
    ensures SelfSupported(m, set n | n in Kept(m) && !IsReachable(m, n))
  {
    KeptIsGreatest(m);
    var names := set n | n in Kept(m) && !IsReachable(m, n);
    forall n | n in names ensures HasPredecessor(m, names, n) {
      assert Reaches(m, Kept(m), n);
      if n == m.startAt {
        StartIsReachable(m);
      } else {
        var p :| p in Kept(m) && Precedes(m, p, n);
        if IsReachable(m, p) {
          StepIsReachable(m, p, n);
        }
        assert p in names;
      }
    }
  }

  lemma StartIsReachable(m: Machine)
    requires m.startAt in m.states
    ensures IsReachable(m, m.startAt)
  {
    var p := [m.startAt];
    assert IsPath(m, p) && p[|p| - 1] == m.startAt;
  }

  lemma LostStateGivesCycle(m: Machine, u: string) returns (c: seq<string>)
    requires u in Kept(m) && !IsReachable(m, u)
    ensures IsUnreachableCycle(m, c)
  {
    var lost := set n | n in Kept(m) && !IsReachable(m, n);
    UnreachableKeptIsSelfSupported(m);
    hide IsReachable;
    hide Kept;
    hide SelfSupported;
    assert IsChain(m, lost, [u]);
    c := WalkBack(m, lost, [u]);
  }

  /** The delete loop leaves exactly the reachable states if and only if no unreachable states form a
      cycle: a state is deleted for lack of a predecessor, not for lack of a path. */
  lemma KeptIsReachableUnlessCycle(m: Machine)
    ensures (forall n :: n in Kept(m) <==> IsReachable(m, n)) <==> !exists c :: IsUnreachableCycle(m, c)
  {
    hide *;
    forall n | IsReachable(m, n) ensures n in Kept(m) {
      ReachableIsKept(m, n);
    }
    if c :| IsUnreachableCycle(m, c) {
      UnreachableCycleIsKept(m, c);
    }
    if u :| u in Kept(m) && !IsReachable(m, u) {
      var c := LostStateGivesCycle(m, u);
    }
  }

  // ---------- pruning again ----------

  lemma ReachesInPruned(m: Machine, names: set<string>, n: string)
    requires names <= Kept(m)
    ensures Reaches(m, names, n) <==> Reaches(Pruned(m), names, n)
  {
    hide Kept, Targets, PrunedState;
    assert forall p :: p in names ==> m.states[p].info == Pruned(m).states[p].info;
  }

  lemma SupportedInPruned(m: Machine, names: set<string>)
    requires names <= Kept(m)
    ensures Supported(m, names) <==> Supported(Pruned(m), names)
  {
    hide Kept, Reaches, Pruned;
    forall n | n in names ensures Reaches(m, names, n) <==> Reaches(Pruned(m), names, n) {
      ReachesInPruned(m, names, n);
    }
  }

  lemma KeptOfPruned(m: Machine)
    ensures Kept(Pruned(m)) == Kept(m)
  {
    hide Kept, Supported, Pruned;
    KeptIsGreatest(m);
    KeptIsGreatest(Pruned(m));
    SupportedInPruned(m, Kept(m));
    SupportedInPruned(m, Kept(Pruned(m)));
  }

  lemma {:induction false} PruningIsIdempotent(m: Machine)
    ensures Pruned(Pruned(m)) == Pruned(m)
    decreases m, 1
  {
    KeptOfPruned(m);
    forall n | n in Kept(m) ensures PrunedState(PrunedState(m.states[n])) == PrunedState(m.states[n]) {
      PruningStateIsIdempotent(m.states[n]);
    }
  }

  lemma {:induction false} PruningStateIsIdempotent(s: State)
    ensures PrunedState(PrunedState(s)) == PrunedState(s)
    decreases s, 0
  {
    forall i | 0 <= i < |Nested(s)| ensures Pruned(Pruned(Nested(s)[i])) == Pruned(Nested(s)[i]) {
      PruningIsIdempotent(Nested(s)[i]);
    }
    StateFromNested(PrunedState(PrunedState(s)), PrunedState(s));
  }

  const LEADING := State(
    StateInfo(Pass, "b", false, [], [], "", "", None, None, WaitFields(0, "", "", ""), ""), [], None)
  const ENDING := State(
    StateInfo(Pass, "", true, [], [], "", "", None, None, WaitFields(0, "", "", ""), ""), [], None)

  lemma SecondOnPath(m: Machine, p: seq<string>)
    ensures IsPath(m, p) && |p| >= 2 ==> p[1] in m.states && p[1] in Targets(m.states[m.startAt].info)
  {
    if IsPath(m, p) && |p| >= 2 {
      assert p[1] in Targets(m.states[p[1 - 1]].info);
    }
  }

  /** Two states that lead to each other and that nothing else leads to survive pruning. */
  lemma UnreachableCyclesSurvive()
    ensures var m := Machine("s", map["s" := ENDING, "a" := LEADING,
                                      "b" := LEADING.(info := LEADING.info.(next := "a"))]);
            && IsUnreachableCycle(m, ["a", "b"])
            && "a" in Kept(m) && !IsReachable(m, "a")
  {
    var m := Machine("s", map["s" := ENDING, "a" := LEADING, "b" := LEADING.(info := LEADING.info.(next := "a"))]);
    forall p | IsPath(m, p) ensures p == ["s"] {
      SecondOnPath(m, p);
    }
    assert Precedes(m, "a", "b") && Precedes(m, "b", "a");
    var c := ["a", "b"];
    assert c[0] == "a" && c[1] == "b";
    assert IsUnreachableCycle(m, c);
    UnreachableCycleIsKept(m, c);
  }

  /** A Parallel or Map state is determined by its own fields and its nested machines. */
  lemma StateFromNested(a: State, b: State)
    requires a.info == b.info
    requires Nested(a) == Nested(b)
    requires a.info.typ.Parallel? ==> a.iter == b.iter
    requires a.info.typ.Map? ==> a.branches == b.branches && (a.iter.Some? <==> b.iter.Some?)
    requires !a.info.typ.Parallel? && !a.info.typ.Map? ==> a.branches == b.branches && a.iter == b.iter
    ensures a == b
  {
    if a.info.typ.Map? && a.iter.Some? {
      assert Nested(a)[0] == a.iter.value;
    }
  }

  lemma StartIsKept(m: Machine)
    requires m.startAt in m.states
    ensures m.startAt in Kept(m)
  {
    assert Reaches(m, {m.startAt}, m.startAt);
    assert Supported(m, {m.startAt});
  }

  lemma {:induction false} PrunedIsPrunable(m: Machine)
    requires Prunable(m)
    ensures Prunable(Pruned(m))
    decreases m, 1
  {
    KeptOfPruned(m);
    StartIsKept(m);
    forall n | n in Kept(m) ensures NestedPrunable(PrunedState(m.states[n])) {
      PrunedStateIsPrunable(m.states[n]);
    }
  }

  lemma {:induction false} PrunedStateIsPrunable(s: State)
    requires NestedPrunable(s)
    ensures NestedPrunable(PrunedState(s))
    decreases s, 0
  {
    forall i | 0 <= i < |Nested(s)| ensures Prunable(Pruned(Nested(s)[i])) {
      PrunedIsPrunable(Nested(s)[i]);
    }
  }

  // ---------- resuming elsewhere ----------

  /** What a stored workflow definition's machine looks like: it passes pruning and loses nothing. */
  ghost predicate Sound(m: Machine) {
    Prunable(m) && Pruned(m) == m
  }

  lemma CheckedNamesAreTargets(s: StateInfo, defined: set<string>, fewer: set<string>)
    requires HasValidTransitions(s, defined)
    requires forall n :: n in Targets(s) && n in defined ==> n in fewer
    ensures HasValidTransitions(s, fewer)
  {
  }

  /** Resuming a workflow at any state of its definition never fails in pruning, and leaves a
      definition that can be resumed again. */
  lemma ResumeNeverFailsToPrune(m: Machine, startAt: string)
    requires Sound(m) && startAt in m.states
    ensures var moved := m.(startAt := startAt); Prunable(moved) && Sound(Pruned(moved))
  {
    var moved := m.(startAt := startAt);
    KeptIsGreatest(moved);
    assert Supported(moved, {startAt});
    forall n | n in Kept(moved) ensures HasValidTransitions(moved.states[n].info, Kept(moved)) {
      forall t | t in Targets(moved.states[n].info) && t in m.states ensures t in Kept(moved) {
        var names := Kept(moved) + {t};
        forall k | k in names ensures Reaches(moved, names, k) {
          if k in Kept(moved) {
            assert Reaches(moved, Kept(moved), k);
          } else {
            assert n in names;
          }
        }
        assert Supported(moved, names);
      }
      CheckedNamesAreTargets(m.states[n].info, Kept(m), Kept(moved));
    }
    PrunedIsPrunable(moved);
    PruningIsIdempotent(moved);
  }

  // ---------- closed transitions ----------

  /** Where a state goes when it neither fails nor ends. */
  function NormalTargets(s: StateInfo): set<string> {
    match s.typ
    case Pass | Task | Wait | Parallel | Map => {s.next}
    case Choice => (set c | c in s.choices) + if s.defaultNext != "" then {s.defaultNext} else {}
    case Succeed | Fail => {}
  }

  predicate TransitionsClosed(s: StateInfo, defined: set<string>) {
    if s.end then s.next == "" else NormalTargets(s) <= defined
  }

  ghost predicate Closed(m: Machine)
    decreases m, 1
  {
    && m.startAt in m.states
    && forall n :: n in m.states ==> TransitionsClosed(m.states[n].info, m.states.Keys) && NestedClosed(m.states[n])
  }

  ghost predicate NestedClosed(s: State)
    decreases s, 0
  {
    forall i :: 0 <= i < |Nested(s)| ==> Closed(Nested(s)[i])
  }

  /** A machine that pruning accepts is closed at every depth. */
  lemma {:induction false} PrunedIsClosed(m: Machine)
    requires Prunable(m)
    ensures Closed(Pruned(m))
    decreases m, 1
  {
    StartIsKept(m);
    forall n | n in Kept(m)
      ensures TransitionsClosed(m.states[n].info, Kept(m)) && NestedClosed(PrunedState(m.states[n]))
    {
      CheckedIsClosed(m.states[n].info, Kept(m));
      PrunedStateIsClosed(m.states[n]);
    }
    hide PrunedState;
    hide TransitionsClosed;
    hide NestedClosed;
  }

  lemma CheckedIsClosed(s: StateInfo, defined: set<string>)
    requires HasValidTransitions(s, defined)
    ensures TransitionsClosed(s, defined)
  {
  }

  lemma {:induction false} PrunedStateIsClosed(s: State)
    requires NestedPrunable(s)
    ensures NestedClosed(PrunedState(s))
    decreases s, 0
  {
    forall i | 0 <= i < |Nested(s)| ensures Closed(Pruned(Nested(s)[i])) {
      PrunedIsClosed(Nested(s)[i]);
    }
  }

  predicate NormalStep(m: Machine, a: string, b: string) {
    a in m.states ==> !m.states[a].info.end && b in NormalTargets(m.states[a].info)
  }

  /** A run that takes no Catch edge and leaves no End state. */
  ghost predicate IsNormalRun(m: Machine, run: seq<string>) {
    && run != [] && run[0] == m.startAt
    && forall i :: 0 < i < |run| ==> NormalStep(m, run[i - 1], run[i])
  }

  /** Such a run never comes to a state that is not defined. */
  lemma {:induction false} NormalRunsAreDefined(m: Machine, run: seq<string>)
    requires Closed(m) && IsNormalRun(m, run)
    ensures forall i :: 0 <= i < |run| ==> run[i] in m.states
  {
    if |run| > 1 {
      var last := |run| - 1;
      NormalRunsAreDefined(m, run[..last]);
      assert NormalStep(m, run[last - 1], run[last]);
      assert run[..last][last - 1] in m.states;
    }
  }

  const CATCHING := State(
    StateInfo(Task, "", true, ["missing"], [], "", "work", None, None, WaitFields(0, "", "", ""), ""), [], None)

  /** Catch targets are followed by the delete loop but not checked: this machine passes with a Catch
      edge to a state that is not defined. */
  lemma CatchTargetsAreNotChecked()
    ensures var m := Machine("a", map["a" := CATCHING]);
            Sound(m) && "missing" in Targets(m.states["a"].info) && "missing" !in m.states
  {
    var m := Machine("a", map["a" := CATCHING]);
    StartIsKept(m);
    assert Kept(m) == {"a"};
    assert PrunedState(CATCHING) == CATCHING;
    assert Pruned(m).states == m.states;
    assert "missing" in CATCHING.info.catches;
  }

  lemma {:induction false} PrunedIsNilFree(m: Machine)
    requires NilFree(m)
    ensures NilFree(Pruned(m))
    decreases m, 1
  {
    forall n | n in Kept(m) ensures NilFreeState(PrunedState(m.states[n])) {
      assert NilFreeState(m.states[n]);
      PrunedStateIsNilFree(m.states[n]);
    }
  }

  lemma {:induction false} PrunedStateIsNilFree(s: State)
    requires NilFreeState(s)
    ensures NilFreeState(PrunedState(s))
    decreases s, 0
  {
    forall i | 0 <= i < |Nested(s)| ensures NilFree(Pruned(Nested(s)[i])) {
      PrunedIsNilFree(Nested(s)[i]);
    }
  }
}
