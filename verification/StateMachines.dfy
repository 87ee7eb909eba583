/** State machines of workflow definitions (`gen-go/models`, `resources/workflow_definitions.go`) as
    values, and the meaning of pruning them: which states stay, and when the result is accepted. */
module StateMachines {
  import opened Wrappers

  datatype StateType = Pass | Task | Choice | Wait | Succeed | Fail | Parallel | Map

  datatype Retrier = Retrier(errorEquals: seq<string>, intervalSeconds: int, backoffRate: int, maxAttempts: int)

  datatype WaitFields = WaitFields(seconds: int, secondsPath: string, timestamp: string, timestampPath: string)

  /** `catches` and `choices` hold the `Next` of each catcher and choice rule; an absent parameter map or
      retry list is nil in the source. `other` stands for the fields that the modelled code only copies. */
  datatype StateInfo = StateInfo(
    typ: StateType, next: string, end: bool, catches: seq<string>, choices: seq<string>, defaultNext: string,
    resource: string, parameters: Option<map<string, string>>, retry: Option<seq<Retrier>>, wait: WaitFields,
    other: string)

  datatype State = State(info: StateInfo, branches: seq<Machine>, iter: Option<Machine>)

  datatype Machine = Machine(startAt: string, states: map<string, State>)

  /** The machines nested in a state: the branches of a Parallel state, the iterator of a Map state. */
  function Nested(s: State): (r: seq<Machine>)
    ensures forall m :: m in r ==> m < s
  {
    match s.info.typ
    case Parallel => s.branches
    case Map => if s.iter.Some? then [s.iter.value] else []
    case _ => []
  }

  /** Every Map state has an iterator, at every depth. */
  ghost predicate NilFree(m: Machine)
    decreases m, 1
  {
    forall n :: n in m.states ==> NilFreeState(m.states[n])
  }

  ghost predicate NilFreeState(s: State)
    decreases s, 0
  {
    && (s.info.typ.Map? ==> s.iter.Some?)
    && forall i :: 0 <= i < |Nested(s)| ==> NilFree(Nested(s)[i])
  }

  // ---------- transitions ----------

  /** The names that `reachable` compares with: where a state can go, Catch edges included. */
  function Targets(s: StateInfo): set<string> {
    match s.typ
    case Pass | Task | Wait | Parallel | Map => {s.next} + set c | c in s.catches
    case Choice => (set c | c in s.choices) + {s.defaultNext}
    case Succeed | Fail => {}
  }

  predicate Reaches(m: Machine, names: set<string>, target: string)
    requires names <= m.states.Keys
  {
    target == m.startAt || exists p :: p in names && target in Targets(m.states[p].info)
  }

  /** Each state of `names` is the start or has a predecessor in `names`. */
  ghost predicate Supported(m: Machine, names: set<string>) {
    names <= m.states.Keys && forall n :: n in names ==> Reaches(m, names, n)
  }

  /** The greatest supported set of states. */
  ghost function Kept(m: Machine): (r: set<string>)
    ensures r <= m.states.Keys
  {
    set n | n in m.states.Keys && exists names :: Supported(m, names) && n in names
  }

  lemma KeptIsGreatest(m: Machine)
    ensures Supported(m, Kept(m))
    ensures forall names :: Supported(m, names) ==> names <= Kept(m)
  {
    forall n | n in Kept(m) ensures Reaches(m, Kept(m), n) {
      var names :| Supported(m, names) && n in names;
      assert Reaches(m, names, n);
      assert names <= Kept(m);
    }
  }

  // ---------- acceptance and result of pruning ----------

  /** `hasValidTransitions` against the states that are still defined. */
  predicate HasValidTransitions(s: StateInfo, defined: set<string>) {
    if s.end && s.next != "" then false
    else if !s.end && s.next == "" && !s.typ.Fail? && !s.typ.Succeed? && !s.typ.Choice? then false
    else if s.end then true
    else match s.typ
      case Pass | Task | Wait | Parallel | Map => s.next in defined
      case Choice =>
        && (forall c :: c in s.choices ==> c in defined)
        && (s.defaultNext != "" ==> s.defaultNext in defined)
      case Succeed | Fail => true
  }

  /** What the check of one level asks. */
  ghost predicate LocallyPrunable(m: Machine) {
    m.startAt in m.states && forall n :: n in Kept(m) ==> HasValidTransitions(m.states[n].info, Kept(m))
  }

  /** Every Map state whose iterator pruning comes to has one: the state was not deleted, and the level it
      is on passed its check. */
  ghost predicate KeptNilFree(m: Machine)
    decreases m, 1
  {
    LocallyPrunable(m) ==> forall n :: n in Kept(m) ==> KeptNilFreeState(m.states[n])
  }

  ghost predicate KeptNilFreeState(s: State)
    decreases s, 0
  {
    && (s.info.typ.Map? ==> s.iter.Some?)
    && forall i :: 0 <= i < |Nested(s)| ==> KeptNilFree(Nested(s)[i])
  }

  lemma {:induction false} NilFreeIsEnough(m: Machine)
    requires NilFree(m)
    ensures KeptNilFree(m)
    decreases m, 1
  {
    forall n | n in Kept(m) ensures KeptNilFreeState(m.states[n]) {
      assert NilFreeState(m.states[n]);
      NilFreeStateIsEnough(m.states[n]);
    }
  }

  lemma {:induction false} NilFreeStateIsEnough(s: State)
    requires NilFreeState(s)
    ensures KeptNilFreeState(s)
    decreases s, 0
  {
    forall i | 0 <= i < |Nested(s)| ensures KeptNilFree(Nested(s)[i]) {
      NilFreeIsEnough(Nested(s)[i]);
    }
  }

  ghost predicate Prunable(m: Machine)
    decreases m, 1
  {
    && m.startAt in m.states
    && (forall n :: n in Kept(m) ==> HasValidTransitions(m.states[n].info, Kept(m)))
    && (forall n :: n in Kept(m) ==> NestedPrunable(m.states[n]))
  }

  ghost predicate NestedPrunable(s: State)
    decreases s, 0
  {
    forall i :: 0 <= i < |Nested(s)| ==> Prunable(Nested(s)[i])
  }

  ghost function Pruned(m: Machine): (r: Machine)
    ensures r.startAt == m.startAt && r.states.Keys == Kept(m)
    ensures forall n :: n in r.states ==> r.states[n] == PrunedState(m.states[n])
    decreases m, 1
  {
    Machine(m.startAt, map n | n in Kept(m) :: PrunedState(m.states[n]))
  }

  ghost function PrunedState(s: State): (r: State)
    decreases s, 0
    ensures r.info == s.info
    ensures |Nested(r)| == |Nested(s)| && forall i :: 0 <= i < |Nested(s)| ==> Nested(r)[i] == Pruned(Nested(s)[i])
  {
    match s.info.typ
    case Parallel => s.(branches := seq(|s.branches|, i requires 0 <= i < |s.branches| => Pruned(s.branches[i])))
    case Map =>
      (match s.iter
       case None => s
       case Some(it) => s.(iter := Some(Pruned(it))))
    case _ => s
  }
}
