/** Accepting a new workflow definition (`handler.go`): validation, the count of states before and after
    pruning, and why comparing the two counts finds every deletion. */
module Acceptance {
  import opened Wrappers
  import opened StateMachines
  import opened PruningMeaning
  import opened RemoveInactive

  // ---------- validation ----------

  predicate ValidWait(w: WaitFields) {
    var fields := (if w.seconds > 0 then 1 else 0) + (if w.secondsPath != "" then 1 else 0)
                  + (if w.timestamp != "" then 1 else 0) + (if w.timestampPath != "" then 1 else 0);
    fields == 1
  }

  /** The checks of a state by itself. */
  predicate ValidInfo(s: StateInfo) {
    match s.typ
    case Task => s.resource != ""
    case Choice => s.choices != [] && forall c :: c in s.choices ==> c != ""
    case Wait => ValidWait(s.wait)
    case Fail | Succeed => s.next == ""
    case Pass | Parallel | Map => true
  }

  ghost predicate Validated(m: Machine)
    decreases m, 1
  {
    m.states != map[] && forall n :: n in m.states ==> ValidatedState(m.states[n])
  }

  ghost predicate ValidatedState(s: State)
    decreases s, 0
  {
    && ValidInfo(s.info)
    && (s.info.typ.Parallel? || s.info.typ.Map? ==> Nested(s) != [])
    && forall i :: 0 <= i < |Nested(s)| ==> Validated(Nested(s)[i])
  }

  lemma {:induction false} ValidatedIsNilFree(m: Machine)
    requires Validated(m)
    ensures NilFree(m)
    decreases m, 1
  {
    forall n | n in m.states ensures NilFreeState(m.states[n]) {
      ValidatedStateIsNilFree(m.states[n]);
    }
  }

  lemma {:induction false} ValidatedStateIsNilFree(s: State)
    requires ValidatedState(s)
    ensures NilFreeState(s)
    decreases s, 0
  {
    forall i | 0 <= i < |Nested(s)| ensures NilFree(Nested(s)[i]) {
      ValidatedIsNilFree(Nested(s)[i]);
    }
  }

  // ---------- counting ----------

  /** Parallel and Map states count the states nested in them and not themselves. */
  ghost function Weight(s: State): nat
    decreases s, 1, 0
  {
    if s.info.typ.Parallel? || s.info.typ.Map? then NestedCount(s, |Nested(s)|) else 1
  }

  ghost function NestedCount(s: State, k: nat): nat
    requires k <= |Nested(s)|
    decreases s, 0, k
  {
    if k == 0 then 0 else NestedCount(s, k - 1) + Count(Nested(s)[k - 1])
  }

  ghost function Count(m: Machine): nat
    decreases m, 2, 0
  {
    CountOver(m, m.states.Keys)
  }

  ghost function CountOver(m: Machine, names: set<string>): nat
    requires names <= m.states.Keys
    decreases m, 1, |names|
  {
    if names == {} then 0
    else
      var n :| n in names;
      Weight(m.states[n]) + CountOver(m, names - {n})
  }

  /** The order of the sum does not matter. */
  lemma {:induction false} CountRemove(m: Machine, names: set<string>, n: string)
    requires n in names && names <= m.states.Keys
    ensures CountOver(m, names) == Weight(m.states[n]) + CountOver(m, names - {n})
    decreases |names|
  {
    hide Weight;
    var p :| p in names && CountOver(m, names) == Weight(m.states[p]) + CountOver(m, names - {p});
    if p != n {
      CountRemove(m, names - {p}, n);
      CountRemove(m, names - {n}, p);
      assert names - {p} - {n} == names - {n} - {p};
    }
  }

  lemma {:induction false} CountIsPositive(m: Machine)
    requires Validated(m)
    ensures Count(m) >= 1
    decreases m, 1
  {
    var n :| n in m.states;
    CountRemove(m, m.states.Keys, n);
    WeightIsPositive(m.states[n]);
  }

  lemma {:induction false} WeightIsPositive(s: State)
    requires ValidatedState(s)
    ensures Weight(s) >= 1
    decreases s, 0
  {
    if s.info.typ.Parallel? || s.info.typ.Map? {
      var k := |Nested(s)|;
      CountIsPositive(Nested(s)[k - 1]);
      assert NestedCount(s, k) == NestedCount(s, k - 1) + Count(Nested(s)[k - 1]);
    }
  }

  /** Leaving out validated states lowers the count. */
  lemma {:induction false} CountOfPart(m: Machine, part: set<string>, names: set<string>)
    requires part <= names <= m.states.Keys
    requires forall n :: n in names ==> Weight(m.states[n]) >= 1
    ensures CountOver(m, part) <= CountOver(m, names)
    ensures CountOver(m, part) == CountOver(m, names) ==> part == names
    decreases |names|
  {
    hide Weight;
    if names - part == {} {
      assert part == names;
    } else {
      var n :| n in names - part;
      CountRemove(m, names, n);
      CountOfPart(m, part, names - {n});
    }
  }

  lemma {:induction false} CountOfPrunedStates(m: Machine, names: set<string>)
    requires Validated(m) && names <= Kept(m)
    ensures CountOver(Pruned(m), names) <= CountOver(m, names)
    ensures CountOver(Pruned(m), names) == CountOver(m, names)
        <==> forall n :: n in names ==> PrunedState(m.states[n]) == m.states[n]
    decreases m, 1, |names|
  {
    if names != {} {
      var n :| n in names;
      CountRemove(m, names, n);
      CountRemove(Pruned(m), names, n);
      CountOfPrunedStates(m, names - {n});
      WeightOfPruned(m.states[n]);
      hide *;
    }
  }

  lemma {:induction false} WeightOfPruned(s: State)
    requires ValidatedState(s)
    ensures Weight(PrunedState(s)) <= Weight(s)
    ensures Weight(PrunedState(s)) == Weight(s) <==> PrunedState(s) == s
    decreases s, 0
  {
    NestedCountOfPruned(s, |Nested(s)|);
    if forall i :: 0 <= i < |Nested(s)| ==> Pruned(Nested(s)[i]) == Nested(s)[i] {
      StateFromNested(PrunedState(s), s);
    }
  }

  lemma NestedCountStep(s: State, k: nat)
    requires k <= |Nested(s)|
    ensures NestedCount(s, k) == if k == 0 then 0 else NestedCount(s, k - 1) + Count(Nested(s)[k - 1])
  {
  }

  lemma NestedIsValidated(s: State, i: nat)
    requires ValidatedState(s) && i < |Nested(s)|
    ensures Validated(Nested(s)[i])
  {
  }

  lemma {:induction false} NestedCountOfPruned(s: State, k: nat)
    requires ValidatedState(s) && k <= |Nested(s)|
    ensures NestedCount(PrunedState(s), k) <= NestedCount(s, k)
    ensures NestedCount(PrunedState(s), k) == NestedCount(s, k)
        <==> forall i :: 0 <= i < k ==> Pruned(Nested(s)[i]) == Nested(s)[i]
    decreases s, 0, k
  {
    hide *;
    NestedCountStep(s, k);
    NestedCountStep(PrunedState(s), k);
    if k > 0 {
      assert Nested(s)[k - 1] in Nested(s);
      NestedIsValidated(s, k - 1);
      NestedCountOfPruned(s, k - 1);
      CountDetectsDeletion(Nested(s)[k - 1]);
    }
  }

  /** Although Parallel and Map states do not count themselves, the count of a validated machine is
      unchanged by pruning exactly when pruning deletes nothing at any depth. */
  lemma {:induction false} CountDetectsDeletion(m: Machine)
    requires Validated(m)
    ensures Count(Pruned(m)) <= Count(m)
    ensures Count(Pruned(m)) == Count(m) <==> Pruned(m) == m
    decreases m, 2
  {
    CountOfPrunedStates(m, Kept(m));
    forall n | n in m.states ensures Weight(m.states[n]) >= 1 {
      WeightIsPositive(m.states[n]);
    }
    CountOfPart(m, Kept(m), m.states.Keys);
    hide CountOver, Weight, PrunedState, Kept;
    if Kept(m) == m.states.Keys && (forall n :: n in Kept(m) ==> PrunedState(m.states[n]) == m.states[n]) {
      assert Pruned(m).states == m.states;
    }
  }

  const INNER := State(
    StateInfo(Task, "", true, [], [], "", "work", None, None, WaitFields(0, "", "", ""), ""), [], None)
  const OUTER := State(
    StateInfo(Parallel, "", true, [], [], "", "", None, None, WaitFields(0, "", "", ""), ""),
    [Machine("a", map["a" := INNER])], None)

  lemma CountOfOne(m: Machine, n: string)
    requires m.states.Keys == {n}
    ensures Count(m) == Weight(m.states[n])
  {
    CountRemove(m, m.states.Keys, n);
    assert m.states.Keys - {n} == {};
    hide Weight;
  }

  /** A Parallel state around one Task counts one: the Task. */
  lemma ParallelCountsNothing()
    ensures Count(Machine("p", map["p" := OUTER])) == 1
  {
    var outer, inner := Machine("p", map["p" := OUTER]), Machine("a", map["a" := INNER]);
    CountOfOne(outer, "p");
    CountOfOne(inner, "a");
    assert Nested(OUTER) == [inner];
    NestedCountStep(OUTER, 1);
    NestedCountStep(OUTER, 0);
    hide Count, NestedCount;
  }
}
