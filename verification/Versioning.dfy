/** Versioning of workflow definitions in two DynamoDB tables (`store/dynamodb/dynamodb_store.go`): a
    conditional put of (name, version), then an unconditional put into the table of latest versions.
    Any number of callers run at once; a caller may stop for ever after any of its steps. */
module Versioning {
  import opened Wrappers

  datatype Definition = Definition(name: string, version: int, body: string)

  /** Where a caller of `SaveWorkflowDefinition` or `UpdateWorkflowDefinition` stands. */
  datatype Caller =
    | Idle
    | Reading(def: Definition)       // an update that has yet to read the latest version
    | Putting(def: Definition)       // about to do the conditional put
    | Publishing(def: Definition)    // between the two puts
    | Done(saved: Definition)
    | Failed(error: StoreError)

  datatype StoreError = Conflict(name: string) | NotFound(name: string) | Unavailable

  type CallerId = nat

  datatype Tables = Tables(definitions: map<(string, int), Definition>, latest: map<string, Definition>)

  datatype System = System(tables: Tables, callers: map<CallerId, Caller>)

  ghost predicate Init(s: System) {
    s.tables == Tables(map[], map[]) && forall c :: c in s.callers ==> s.callers[c] == Idle
  }

  // ---------- the requests to the database ----------

  /** `attribute_not_exists(#N) AND attribute_not_exists(#V)` on the item with the same key. */
  predicate CanPut(t: Tables, def: Definition) {
    (def.name, def.version) !in t.definitions
  }

  function PutDefinition(t: Tables, def: Definition): Tables {
    t.(definitions := t.definitions[(def.name, def.version) := def])
  }

  function PutLatest(t: Tables, def: Definition): Tables {
    t.(latest := t.latest[def.name := def])
  }

  // ---------- steps ----------

  datatype Step =
    | StartNew(c: CallerId, def: Definition)
    | StartUpdate(c: CallerId, def: Definition)
    | Read(c: CallerId)
    | Put(c: CallerId)
    | Publish(c: CallerId)
    | Crash(c: CallerId)

  function SetCaller(s: System, c: CallerId, now: Caller): System {
    s.(callers := s.callers[c := now])
  }

  predicate Enabled(s: System, step: Step) {
    && step.c in s.callers
    && match step
       case StartNew(c, def) => s.callers[c].Idle? && def.version == 0
       case StartUpdate(c, _) => s.callers[c].Idle?
       case Read(c) => s.callers[c].Reading?
       case Put(c) => s.callers[c].Putting?
       case Publish(c) => s.callers[c].Publishing?
       case Crash(c) => true
  }

  /** A new definition has version 0; an update has the version after the latest one it read. A crashed
      caller is idle: whatever it was about to do will not be done. */
  function Next(s: System, step: Step): System
    requires Enabled(s, step)
  {
    match step
    case StartNew(c, def) => SetCaller(s, c, Putting(def))
    case StartUpdate(c, def) => SetCaller(s, c, Reading(def))
    case Read(c) =>
      var def := s.callers[c].def;
      if def.name !in s.tables.latest then SetCaller(s, c, Failed(NotFound(def.name)))
      else SetCaller(s, c, Putting(def.(version := s.tables.latest[def.name].version + 1)))
    case Put(c) =>
      var def := s.callers[c].def;
      if CanPut(s.tables, def) then SetCaller(s, c, Publishing(def)).(tables := PutDefinition(s.tables, def))
      else SetCaller(s, c, Failed(Conflict(def.name)))
    case Publish(c) =>
      var def := s.callers[c].def;
      SetCaller(s, c, Done(def)).(tables := PutLatest(s.tables, def))
    case Crash(c) => SetCaller(s, c, Idle)
  }

  /** A run and the steps that make it. */
  ghost predicate IsRun(run: seq<System>, steps: seq<Step>) {
    && |run| == |steps| + 1 && Init(run[0])
    && forall i :: 0 <= i < |steps| ==> Enabled(run[i], steps[i]) && run[i + 1] == Next(run[i], steps[i])
  }

  // ---------- the invariant ----------

  /** The stored versions of a name start at 0 without a gap; the latest entry is the last of them or
      the last but one, and shows what is stored under its version. */
  ghost predicate Consistent(t: Tables, name: string) {
    if name in t.latest then
      var l := t.latest[name].version;
      && 0 <= l
      && (forall v :: 0 <= v <= l ==> (name, v) in t.definitions)
      && (forall v :: (name, v) in t.definitions ==> 0 <= v <= l + 1)
      && t.definitions[(name, l)] == t.latest[name]
    else forall v :: (name, v) in t.definitions ==> v == 0
  }

  /** The version after the latest one. */
  function Upcoming(t: Tables, name: string): int {
    if name in t.latest then t.latest[name].version + 1 else 0
  }

  predicate Holds(c: Caller) {
    c.Publishing? || c.Done?
  }

  function Held(c: Caller): Definition
    requires Holds(c)
  {
    if c.Publishing? then c.def else c.saved
  }

  ghost predicate CallerInv(t: Tables, c: Caller) {
    match c
    case Putting(def) => 0 <= def.version <= Upcoming(t, def.name)
    case Publishing(def) =>
      && def.version == Upcoming(t, def.name)
      && (def.name, def.version) in t.definitions && t.definitions[(def.name, def.version)] == def
    case Done(def) => (def.name, def.version) in t.definitions && t.definitions[(def.name, def.version)] == def
    case _ => true
  }

  /** No two callers hold the same version of the same name. */
  ghost predicate Exclusive(s: System) {
    forall c, d | c in s.callers && d in s.callers && c != d && Holds(s.callers[c]) && Holds(s.callers[d])
      :: Held(s.callers[c]).name != Held(s.callers[d]).name || Held(s.callers[c]).version != Held(s.callers[d]).version
  }

  ghost predicate Inv(s: System) {
    && (forall name :: Consistent(s.tables, name))
    && (forall name :: name in s.tables.latest ==> s.tables.latest[name].name == name)
    && (forall c :: c in s.callers ==> CallerInv(s.tables, s.callers[c]))
    && Exclusive(s)
  }

  /** What no step undoes: stored definitions stay as they are, and the latest entry of a name only
      moves to the next version. */
  ghost predicate Grows(t: Tables, t': Tables) {
    && (forall k :: k in t.definitions ==> k in t'.definitions && t'.definitions[k] == t.definitions[k])
    && (forall name :: Upcoming(t, name) <= Upcoming(t', name) <= Upcoming(t, name) + 1)
    && (forall name :: name in t.latest ==> name in t'.latest)
  }

  lemma NextKeepsInv(s: System, step: Step)
    requires Inv(s) && Enabled(s, step)
    ensures Inv(Next(s, step)) && Grows(s.tables, Next(s, step).tables)
  {
    hide Inv, Grows;
    match step
    case Put(c) => PutKeepsInv(s, c);
    case Publish(c) => PublishKeepsInv(s, c);
    case Read(c) => ReadKeepsInv(s, c);
    case StartNew(c, def) => StartKeepsInv(s, c, Putting(def));
    case StartUpdate(c, def) => StartKeepsInv(s, c, Reading(def));
    case Crash(c) => StartKeepsInv(s, c, Idle);
  }

  /** Callers that hold no version and whose next put is version 0 change nothing of the rest. */
  lemma StartKeepsInv(s: System, c: CallerId, now: Caller)
    requires Inv(s) && c in s.callers && (now.Putting? ==> now.def.version == 0) && !Holds(now)
    ensures Inv(SetCaller(s, c, now)) && Grows(s.tables, s.tables)
  {
    if now.Putting? {
      assert Consistent(s.tables, now.def.name);
    }
  }

  lemma ReadKeepsInv(s: System, c: CallerId)
    requires Inv(s) && Enabled(s, Read(c))
    ensures Inv(Next(s, Read(c))) && Grows(s.tables, Next(s, Read(c)).tables)
  {
    assert Consistent(s.tables, s.callers[c].def.name);
    hide Consistent;
  }

  lemma PutKeepsInv(s: System, c: CallerId)
    requires Inv(s) && Enabled(s, Put(c))
    ensures Inv(Next(s, Put(c))) && Grows(s.tables, Next(s, Put(c)).tables)
  {
    var def, s' := s.callers[c].def, Next(s, Put(c));
    assert CallerInv(s.tables, s.callers[c]);
    if CanPut(s.tables, def) {
      PutKeepsConsistent(s.tables, def);
      hide Consistent;
      forall d | d in s'.callers ensures CallerInv(s'.tables, s'.callers[d]) {
        assert CallerInv(s.tables, s.callers[d]);
      }
      forall d | d in s.callers && Holds(s.callers[d])
        ensures Held(s.callers[d]).name != def.name || Held(s.callers[d]).version != def.version
      {
        assert CallerInv(s.tables, s.callers[d]);
      }
    }
  }

  lemma PublishKeepsInv(s: System, c: CallerId)
    requires Inv(s) && Enabled(s, Publish(c))
    ensures Inv(Next(s, Publish(c))) && Grows(s.tables, Next(s, Publish(c)).tables)
  {
    var def, s' := s.callers[c].def, Next(s, Publish(c));
    assert CallerInv(s.tables, s.callers[c]);
    PublishKeepsConsistent(s.tables, def);
    hide Consistent;
    forall d | d in s'.callers ensures CallerInv(s'.tables, s'.callers[d]) {
      assert CallerInv(s.tables, s.callers[d]);
      assert d != c && s.callers[d].Publishing? ==> s.callers[d].def.name != def.name;
    }
  }

  lemma PutKeepsConsistent(t: Tables, def: Definition)
    requires forall name :: Consistent(t, name)
    requires CanPut(t, def) && 0 <= def.version <= Upcoming(t, def.name)
    ensures forall name :: Consistent(PutDefinition(t, def), name)
    ensures def.version == Upcoming(t, def.name)
  {
    assert Consistent(t, def.name);
    forall name ensures Consistent(PutDefinition(t, def), name) {
      assert Consistent(t, name);
    }
  }

  lemma PublishKeepsConsistent(t: Tables, def: Definition)
    requires forall name :: Consistent(t, name)
    requires def.version == Upcoming(t, def.name)
    requires (def.name, def.version) in t.definitions && t.definitions[(def.name, def.version)] == def
    ensures forall name :: Consistent(PutLatest(t, def), name)
  {
    assert Consistent(t, def.name);
    forall name ensures Consistent(PutLatest(t, def), name) {
      assert Consistent(t, name);
    }
  }

  // ---------- every run ----------

  lemma {:induction false} RunKeepsInv(run: seq<System>, steps: seq<Step>)
    requires IsRun(run, steps)
    ensures forall i :: 0 <= i < |run| ==> Inv(run[i])
    decreases |run|
  {
    if |steps| == 0 {
      InitIsInv(run[0]);
    } else {
      var last := |steps| - 1;
      RunKeepsInv(run[..last + 1], steps[..last]);
      NextKeepsInv(run[last], steps[last]);
    }
  }

  lemma InitIsInv(s: System)
    requires Init(s)
    ensures Inv(s)
  {
  }

  /** The versions stored under a name are exactly 0, ..., m-1. */
  ghost predicate HasVersions(t: Tables, name: string, m: nat) {
    forall v :: (name, v) in t.definitions <==> 0 <= v < m
  }

  /** In every state of every run: the stored versions of a name are 0, ..., m-1 for some m; the latest
      entry is version m-1 or m-2 with what is stored under it, or is absent with m at most 1; and at
      most one caller of a name is between its two puts. */
  lemma VersionsInEveryRun(run: seq<System>, steps: seq<Step>, i: nat, name: string)
    requires IsRun(run, steps) && i < |run|
    ensures var t := run[i].tables;
            exists m: nat ::
              && HasVersions(t, name, m)
              && (name !in t.latest ==> m <= 1)
              && (name in t.latest ==>
                    && (t.latest[name].version == m - 1 || t.latest[name].version == m - 2)
                    && (name, t.latest[name].version) in t.definitions
                    && t.definitions[(name, t.latest[name].version)] == t.latest[name])
    ensures forall c, d :: c in run[i].callers && d in run[i].callers
              && run[i].callers[c].Publishing? && run[i].callers[d].Publishing?
              && run[i].callers[c].def.name == run[i].callers[d].def.name
              ==> c == d
  {
    RunKeepsInv(run, steps);
    var s := run[i];
    assert Consistent(s.tables, name);
    var next := Upcoming(s.tables, name);
    var m := if (name, next) in s.tables.definitions then next + 1 else next;
    assert HasVersions(s.tables, name, m);
    forall c, d | c in s.callers && d in s.callers && s.callers[c].Publishing? && s.callers[d].Publishing?
                  && s.callers[c].def.name == s.callers[d].def.name ensures c == d
    {
      assert CallerInv(s.tables, s.callers[c]) && CallerInv(s.tables, s.callers[d]);
    }
  }

  lemma RunGrows(run: seq<System>, steps: seq<Step>, j: nat)
    requires IsRun(run, steps) && 0 < j < |run|
    ensures Grows(run[j - 1].tables, run[j].tables)
  {
    RunKeepsInv(run, steps);
    hide Inv, Grows;
    NextKeepsInv(run[j - 1], steps[j - 1]);
    assert run[j] == Next(run[j - 1], steps[j - 1]);
  }

  ghost predicate Extends(t: Tables, t': Tables, name: string) {
    && (forall k :: k in t.definitions ==> k in t'.definitions && t'.definitions[k] == t.definitions[k])
    && (name in t.latest ==> name in t'.latest && t.latest[name].version <= t'.latest[name].version)
  }

  lemma GrownExtends(t: Tables, t': Tables, t'': Tables, name: string)
    requires Extends(t, t', name) && Grows(t', t'')
    ensures Extends(t, t'', name)
  {
    assert Upcoming(t', name) <= Upcoming(t'', name);
  }

  /** Over any stretch of a run, stored definitions are never lost or changed and the latest entry of a
      name never goes back. */
  lemma {:induction false} TablesOnlyGrow(run: seq<System>, steps: seq<Step>, i: nat, j: nat, name: string)
    requires IsRun(run, steps) && i <= j < |run|
    ensures Extends(run[i].tables, run[j].tables, name)
    decreases j
  {
    if i < j {
      TablesOnlyGrow(run, steps, i, j - 1, name);
      RunGrows(run, steps, j);
      hide *;
      GrownExtends(run[i].tables, run[j - 1].tables, run[j].tables, name);
    }
  }

  /** Two callers that both report success have saved different versions or different names. */
  lemma SavedVersionsAreDistinct(run: seq<System>, steps: seq<Step>, i: nat, c: CallerId, d: CallerId)
    requires IsRun(run, steps) && i < |run|
    requires c in run[i].callers && d in run[i].callers && c != d
    requires run[i].callers[c].Done? && run[i].callers[d].Done?
    ensures var a, b := run[i].callers[c].saved, run[i].callers[d].saved; a.name != b.name || a.version != b.version
  {
    RunKeepsInv(run, steps);
    assert Exclusive(run[i]);
    var a, b := run[i].callers[c], run[i].callers[d];
    assert Holds(a) && Holds(b) && Held(a) == a.saved && Held(b) == b.saved;
  }

  // ---------- what is saved ----------

  predicate Starts(step: Step, c: CallerId, def: Definition) {
    step == StartNew(c, def) || step == StartUpdate(c, def)
  }

  /** Caller `c` starts with `def` at step `i`, and not again before state `j`. */
  ghost predicate IsCall(run: seq<System>, steps: seq<Step>, i: nat, j: nat, c: CallerId, def: Definition) {
    && IsRun(run, steps) && i < j < |run| && Starts(steps[i], c, def)
    && forall k :: i < k < j ==> !(steps[k].StartNew? && steps[k].c == c) && !(steps[k].StartUpdate? && steps[k].c == c)
  }

  /** A new definition as it was given; an update, up to state `k`, with the version after one that was the
      latest when it read. */
  ghost predicate IsGiven(run: seq<System>, steps: seq<Step>, i: nat, k: nat, c: CallerId, def: Definition,
                          d: Definition)
    requires IsRun(run, steps) && i < k < |run|
  {
    && d.name == def.name && d.body == def.body
    && if steps[i].StartNew? then d == def
       else exists r :: i < r < k && steps[r] == Read(c) && HasLatest(run[r].tables, def.name, d.version - 1)
  }

  predicate HasLatest(t: Tables, name: string, version: int) {
    name in t.latest && t.latest[name].version == version
  }

  ghost predicate WasPublished(run: seq<System>, steps: seq<Step>, i: nat, k: nat, c: CallerId, d: Definition)
    requires IsRun(run, steps) && i < k < |run|
  {
    exists p :: i < p < k && steps[p] == Publish(c) && d.name in run[p + 1].tables.latest
                && run[p + 1].tables.latest[d.name] == d
  }

  ghost predicate Serves(run: seq<System>, steps: seq<Step>, i: nat, k: nat, c: CallerId, def: Definition)
    requires IsRun(run, steps) && i < k < |run|
  {
    && c in run[k].callers
    && match run[k].callers[c]
       case Reading(d) => d == def && steps[i].StartUpdate?
       case Putting(d) => IsGiven(run, steps, i, k, c, def, d)
       case Publishing(d) => IsGiven(run, steps, i, k, c, def, d)
       case Done(d) => IsGiven(run, steps, i, k, c, def, d) && WasPublished(run, steps, i, k, c, d)
       case _ => true
  }

  lemma StillGiven(run: seq<System>, steps: seq<Step>, i: nat, k: nat, c: CallerId, def: Definition, d: Definition)
    requires IsRun(run, steps) && i < k && k + 1 < |run|
    ensures IsGiven(run, steps, i, k, c, def, d) ==> IsGiven(run, steps, i, k + 1, c, def, d)
    ensures WasPublished(run, steps, i, k, c, d) ==> WasPublished(run, steps, i, k + 1, c, d)
  {
  }

  lemma StartServes(run: seq<System>, steps: seq<Step>, i: nat, c: CallerId, def: Definition)
    requires IsRun(run, steps) && i + 1 < |run| && Starts(steps[i], c, def)
    ensures Serves(run, steps, i, i + 1, c, def)
  {
    assert Enabled(run[i], steps[i]) && run[i + 1] == Next(run[i], steps[i]);
  }

  lemma OthersLeaveAlone(s: System, step: Step, c: CallerId)
    requires Enabled(s, step) && step.c != c && c in s.callers
    ensures c in Next(s, step).callers && Next(s, step).callers[c] == s.callers[c]
  {
  }

  lemma OwnStepServes(run: seq<System>, steps: seq<Step>, i: nat, k: nat, c: CallerId, def: Definition)
    requires IsRun(run, steps) && i < k && k + 1 < |run| && Serves(run, steps, i, k, c, def)
    requires steps[k].c == c && !steps[k].StartNew? && !steps[k].StartUpdate?
    ensures Serves(run, steps, i, k + 1, c, def)
  {
    assert Enabled(run[k], steps[k]) && run[k + 1] == Next(run[k], steps[k]);
    var caller := run[k].callers[c];
    if caller.Putting? || caller.Publishing? {
      StillGiven(run, steps, i, k, c, def, caller.def);
    }
    if steps[k] == Read(c) && run[k + 1].callers[c].Putting? {
      ReadGives(run, steps, i, k, c, def);
    }
    if steps[k] == Publish(c) {
      PublishShows(run, steps, i, k, c);
    }
    hide IsGiven, WasPublished, IsRun;
  }

  lemma {:induction false} CallServes(run: seq<System>, steps: seq<Step>, i: nat, j: nat, c: CallerId, def: Definition)
    requires IsCall(run, steps, i, j, c, def)
    ensures Serves(run, steps, i, j, c, def)
    decreases j
  {
    var k := j - 1;
    if k == i {
      StartServes(run, steps, i, c, def);
    } else {
      CallServes(run, steps, i, k, c, def);
      if steps[k].c == c {
        hide Serves;
        OwnStepServes(run, steps, i, k, c, def);
      } else {
        assert Enabled(run[k], steps[k]) && run[j] == Next(run[k], steps[k]);
        OthersLeaveAlone(run[k], steps[k], c);
        var caller := run[k].callers[c];
        if caller.Putting? || caller.Publishing? {
          StillGiven(run, steps, i, k, c, def, caller.def);
        }
        if caller.Done? {
          StillGiven(run, steps, i, k, c, def, caller.saved);
        }
        hide IsGiven, WasPublished, Next, Enabled;
      }
    }
  }

  lemma ReadGives(run: seq<System>, steps: seq<Step>, i: nat, k: nat, c: CallerId, def: Definition)
    requires IsRun(run, steps) && i < k && k + 1 < |run| && steps[k] == Read(c)
    requires c in run[k].callers && run[k].callers[c] == Reading(def) && steps[i].StartUpdate?
    requires c in run[k + 1].callers && run[k + 1].callers[c].Putting?
    ensures IsGiven(run, steps, i, k + 1, c, def, run[k + 1].callers[c].def)
  {
    assert run[k + 1] == Next(run[k], steps[k]);
    assert HasLatest(run[k].tables, def.name, run[k + 1].callers[c].def.version - 1);
  }

  lemma PublishShows(run: seq<System>, steps: seq<Step>, i: nat, k: nat, c: CallerId)
    requires IsRun(run, steps) && i < k && k + 1 < |run| && steps[k] == Publish(c)
    requires c in run[k].callers && run[k].callers[c].Publishing?
    ensures WasPublished(run, steps, i, k + 1, c, run[k].callers[c].def)
  {
    assert run[k + 1] == Next(run[k], steps[k]);
  }

  /** Whatever else goes on: a caller that reports success has saved what it was given, a new definition
      under version 0 and an update under the version after one that was the latest when it read; that is
      stored under its version, and was made the latest. */
  lemma SavesWhatItWasGiven(run: seq<System>, steps: seq<Step>, i: nat, j: nat, c: CallerId, def: Definition)
    requires IsCall(run, steps, i, j, c, def) && c in run[j].callers && run[j].callers[c].Done?
    ensures var saved := run[j].callers[c].saved;
            && saved.name == def.name && saved.body == def.body
            && (def.name, saved.version) in run[j].tables.definitions
            && run[j].tables.definitions[(def.name, saved.version)] == saved
            && (steps[i].StartNew? ==> saved.version == 0)
            && (steps[i].StartUpdate? ==> exists r :: i < r < j && steps[r] == Read(c)
                                            && HasLatest(run[r].tables, def.name, saved.version - 1))
            && WasPublished(run, steps, i, j, c, saved)
  {
    CallServes(run, steps, i, j, c, def);
    RunKeepsInv(run, steps);
    assert CallerInv(run[j].tables, run[j].callers[c]);
    assert Enabled(run[i], steps[i]);
    hide WasPublished;
  }

  // ---------- a lost publication ----------

  /** The last stored version of the name is not the latest entry and nobody is left to make it so. */
  ghost predicate Wedged(s: System, name: string) {
    && (name, Upcoming(s.tables, name)) in s.tables.definitions
    && forall c :: c in s.callers && s.callers[c].Publishing? ==> s.callers[c].def.name != name
  }

  /** A name gets wedged by one thing only, a caller of it that stops between its two puts. */
  lemma WedgedByCrashOnly(s: System, step: Step, name: string)
    requires Inv(s) && Enabled(s, step) && !Wedged(s, name)
    ensures Wedged(Next(s, step), name)
        <==> step.Crash? && s.callers[step.c].Publishing? && s.callers[step.c].def.name == name
  {
    var s' := Next(s, step);
    assert Consistent(s.tables, name);
    assert CallerInv(s.tables, s.callers[step.c]);
    match step
    case Crash(c) =>
      if s.callers[c].Publishing? && s.callers[c].def.name == name {
        forall d | d in s'.callers && s'.callers[d].Publishing? ensures s'.callers[d].def.name != name {
          assert CallerInv(s.tables, s.callers[d]);
        }
      } else if Wedged(s', name) {
        forall d | d in s.callers && s.callers[d].Publishing? ensures s.callers[d].def.name != name {
          assert d != c ==> s'.callers[d] == s.callers[d];
        }
      }
    case Publish(c) =>
      if s.callers[c].def.name == name {
        assert (name, Upcoming(s'.tables, name)) !in s'.tables.definitions;
      } else if Wedged(s', name) {
        forall d | d in s.callers && s.callers[d].Publishing? ensures s.callers[d].def.name != name {
          assert d != c ==> s'.callers[d] == s.callers[d];
        }
      }
    case Put(c) =>
      assert s'.callers[c].Publishing? ==> s'.callers[c].def == s.callers[c].def;
      if Wedged(s', name) {
        forall d | d in s.callers && s.callers[d].Publishing? ensures s.callers[d].def.name != name {
          assert d != c ==> s'.callers[d] == s.callers[d];
        }
      }
    case _ =>
      if Wedged(s', name) {
        forall d | d in s.callers && s.callers[d].Publishing? ensures s.callers[d].def.name != name {
          assert d != step.c ==> s'.callers[d] == s.callers[d];
        }
      }
  }

  /** A wedged name stays wedged: whatever callers do, its rows never change again. */
  lemma WedgedForEver(s: System, step: Step, name: string)
    requires Inv(s) && Enabled(s, step) && Wedged(s, name)
    ensures var s' := Next(s, step);
            && Wedged(s', name)
            && (name in s.tables.latest <==> name in s'.tables.latest)
            && (name in s.tables.latest ==> s'.tables.latest[name] == s.tables.latest[name])
            && (forall v :: (name, v) in s'.tables.definitions <==> (name, v) in s.tables.definitions)
  {
    assert Consistent(s.tables, name);
    assert CallerInv(s.tables, s.callers[step.c]);
    var s' := Next(s, step);
    forall d | d in s'.callers && s'.callers[d].Publishing? ensures s'.callers[d].def.name != name {
      assert d != step.c ==> s'.callers[d] == s.callers[d];
    }
  }

  /** A run that goes on from `s`. */
  ghost predicate IsWalk(s: System, run: seq<System>, steps: seq<Step>) {
    && |run| == |steps| + 1 && run[0] == s
    && forall i :: 0 <= i < |steps| ==> Enabled(run[i], steps[i]) && run[i + 1] == Next(run[i], steps[i])
  }

  /** Something that callers can still do gives the name a version that it does not have yet. */
  ghost predicate CanStillGrow(s: System, name: string) {
    exists run: seq<System>, steps, v :: IsWalk(s, run, steps)
      && (name, v) in run[|run| - 1].tables.definitions && (name, v) !in s.tables.definitions
  }

  lemma {:induction false} WedgedThroughout(s: System, run: seq<System>, steps: seq<Step>, k: nat, name: string)
    requires Inv(s) && Wedged(s, name) && IsWalk(s, run, steps) && k < |run|
    ensures Inv(run[k]) && Wedged(run[k], name)
    ensures forall v :: (name, v) in run[k].tables.definitions <==> (name, v) in s.tables.definitions
    decreases k
  {
    if k > 0 {
      WedgedThroughout(s, run, steps, k - 1, name);
      hide Inv, Wedged;
      NextKeepsInv(run[k - 1], steps[k - 1]);
      WedgedForEver(run[k - 1], steps[k - 1], name);
    }
  }

  lemma GrowsBy(s: System, run: seq<System>, steps: seq<Step>, name: string, v: int)
    requires IsWalk(s, run, steps)
    requires (name, v) in run[|run| - 1].tables.definitions && (name, v) !in s.tables.definitions
    ensures CanStillGrow(s, name)
  {
  }

  /** With nothing stored beyond its latest entry, an idle caller gives the name its next version. */
  lemma FreeNameGrows(s: System, name: string, c: CallerId) returns (run: seq<System>, steps: seq<Step>)
    requires Inv(s) && c in s.callers && s.callers[c].Idle?
    requires (name, Upcoming(s.tables, name)) !in s.tables.definitions
    ensures IsWalk(s, run, steps) && (name, Upcoming(s.tables, name)) in run[|run| - 1].tables.definitions
  {
    hide Inv;
    var def := Definition(name, 0, "");
    if name in s.tables.latest {
      var s1 := Next(s, StartUpdate(c, def));
      var s2 := Next(s1, Read(c));
      run, steps := [s, s1, s2, Next(s2, Put(c))], [StartUpdate(c, def), Read(c), Put(c)];
    } else {
      var s1 := Next(s, StartNew(c, def));
      run, steps := [s, s1, Next(s1, Put(c))], [StartNew(c, def), Put(c)];
    }
  }

  /** The publication of the version beyond the latest entry leaves nothing stored beyond it. */
  lemma PublishedIsFree(s: System, name: string, d: CallerId)
    requires Inv(s) && d in s.callers && s.callers[d].Publishing? && s.callers[d].def.name == name
    ensures var s' := Next(s, Publish(d));
            (name, Upcoming(s'.tables, name)) !in s'.tables.definitions && s'.tables.definitions == s.tables.definitions
  {
    assert CallerInv(s.tables, s.callers[d]);
    assert Consistent(s.tables, name);
  }

  lemma WalkBefore(s: System, step: Step, run: seq<System>, steps: seq<Step>)
    requires Enabled(s, step) && IsWalk(Next(s, step), run, steps)
    ensures IsWalk(s, [s] + run, [step] + steps)
  {
    hide Enabled, Next;
  }

  /** As long as some caller is idle, a name can get a further version if and only if it is not wedged:
      being wedged is the one way of being stuck. */
  lemma StuckExactlyWhenWedged(s: System, name: string, c: CallerId)
    requires Inv(s) && c in s.callers && s.callers[c].Idle?
    ensures CanStillGrow(s, name) <==> !Wedged(s, name)
  {
    if Wedged(s, name) {
      forall run: seq<System>, steps, v | IsWalk(s, run, steps) && (name, v) in run[|run| - 1].tables.definitions
        ensures (name, v) in s.tables.definitions
      {
        WedgedThroughout(s, run, steps, |run| - 1, name);
      }
    } else if (name, Upcoming(s.tables, name)) !in s.tables.definitions {
      hide IsWalk, CanStillGrow;
      var run, steps := FreeNameGrows(s, name, c);
      GrowsBy(s, run, steps, name, Upcoming(s.tables, name));
    } else {
      var d :| d in s.callers && s.callers[d].Publishing? && s.callers[d].def.name == name;
      hide IsWalk, CanStillGrow, Wedged, Inv;
      PublishedIsFree(s, name, d);
      NextKeepsInv(s, Publish(d));
      var s1 := Next(s, Publish(d));
      var run, steps := FreeNameGrows(s1, name, c);
      WalkBefore(s, Publish(d), run, steps);
      assert ([s] + run)[|run|] == run[|run| - 1];
      GrowsBy(s, [s] + run, [Publish(d)] + steps, name, Upcoming(s1.tables, name));
    }
  }

  // ---------- one caller at a time ----------

  /** A database that one caller uses. */
  function Alone(t: Tables, caller: Caller): System {
    System(t, map[0 := caller])
  }

  /** The two puts; an unanswered second one stops the caller. */
  function PutAlone(s: System, published: bool): System
    requires Enabled(s, Put(0))
  {
    var s1 := Next(s, Put(0));
    if !s1.callers[0].Publishing? then s1 else Next(s1, if published then Publish(0) else Crash(0))
  }

  function SaveAlone(t: Tables, def: Definition, published: bool): System
    requires def.version == 0
  {
    PutAlone(Next(Alone(t, Idle), StartNew(0, def)), published)
  }

  function UpdateAlone(t: Tables, def: Definition, published: bool): System {
    var s := Next(Next(Alone(t, Idle), StartUpdate(0, def)), Read(0));
    if s.callers[0].Putting? then PutAlone(s, published) else s
  }

  /** What the caller reports. */
  function Answer(s: System): Result<Definition, StoreError>
    requires 0 in s.callers
  {
    match s.callers[0]
    case Done(saved) => Success(saved)
    case Failed(error) => Failure(error)
    case _ => Failure(Unavailable)
  }

  ghost predicate AllConsistent(t: Tables) {
    forall name :: Consistent(t, name)
  }

  class DynamoDB {
    var definitions: map<(string, int), Definition>
    var latest: map<string, Definition>

    function Contents(): Tables
      reads this
    {
      Tables(definitions, latest)
    }

    method LatestWorkflowDefinition(name: string) returns (r: Result<Definition, StoreError>)
      ensures r == if name in latest then Success(latest[name]) else Failure(NotFound(name))
    {
      if name !in latest {
        return Failure(NotFound(name));
      }
      return Success(latest[name]);
    }

    method GetWorkflowDefinition(name: string, version: int) returns (r: Result<Definition, StoreError>)
      ensures r == if (name, version) in definitions then Success(definitions[(name, version)])
                   else Failure(NotFound(name))
    {
      if (name, version) !in definitions {
        return Failure(NotFound(name));
      }
      return Success(definitions[(name, version)]);
    }

    /** Both puts, one after the other; a refused first put leaves both tables alone, and an unanswered
        second one leaves the definition stored but not the latest. */
    method SaveWorkflowDefinition(def: Definition, published: bool) returns (r: Result<(), StoreError>)
      modifies this
      ensures r == if !CanPut(old(Contents()), def) then Failure(Conflict(def.name))
                   else if published then Success(()) else Failure(Unavailable)
      ensures Contents() == if !CanPut(old(Contents()), def) then old(Contents())
                            else if published then PutLatest(PutDefinition(old(Contents()), def), def)
                            else PutDefinition(old(Contents()), def)
      ensures (old(AllConsistent(Contents())) && 0 <= def.version <= old(Upcoming(Contents(), def.name)))
              ==> AllConsistent(Contents())
      ensures def.version == 0 ==>
                var alone := SaveAlone(old(Contents()), def, published);
                && Contents() == alone.tables && 0 in alone.callers
                && match Answer(alone)
                   case Success(saved) => saved == def && r == Success(())
                   case Failure(error) => r == Failure(error)
    {
      ghost var before := Contents();
      if (def.name, def.version) in definitions {
        return Failure(Conflict(def.name));
      }
      definitions := definitions[(def.name, def.version) := def];
      if AllConsistent(before) && 0 <= def.version <= Upcoming(before, def.name) {
        SavedIsConsistent(before, def);
      }
      if !published {
        return Failure(Unavailable);
      }
      latest := latest[def.name := def];
      return Success(());
    }

    /** Saves under the version after the latest one and gives back what was stored. When the second put
        is not answered the name is left with a version beyond its latest entry. */
    method UpdateWorkflowDefinition(def: Definition, published: bool) returns (r: Result<Definition, StoreError>)
      modifies this
      ensures def.name !in old(latest) ==> r == Failure(NotFound(def.name)) && Contents() == old(Contents())
      ensures def.name in old(latest) ==>
                var next := def.(version := old(latest)[def.name].version + 1);
                if !CanPut(old(Contents()), next) then r == Failure(Conflict(def.name)) && Contents() == old(Contents())
                else if published then
                  r == Success(next) && Contents() == PutLatest(PutDefinition(old(Contents()), next), next)
                else r == Failure(Unavailable) && Contents() == PutDefinition(old(Contents()), next)
      ensures r == Failure(Unavailable) ==> (def.name, Upcoming(Contents(), def.name)) in definitions
      ensures old(AllConsistent(Contents())) ==> AllConsistent(Contents())
      ensures var alone := UpdateAlone(old(Contents()), def, published);
              Contents() == alone.tables && 0 in alone.callers && r == Answer(alone)
    {
      hide AllConsistent;
      ghost var before := Contents();
      var current := LatestWorkflowDefinition(def.name);
      if current.Failure? {
        return Failure(current.error);
      }
      var newVersion := def.(version := current.value.version + 1);
      LatestIsNatural(before, def.name);
      var saved := SaveWorkflowDefinition(newVersion, published);
      if saved.Failure? {
        return Failure(saved.error);
      }
      r := GetWorkflowDefinition(newVersion.name, newVersion.version);
    }
  }

  lemma LatestIsNatural(t: Tables, name: string)
    ensures AllConsistent(t) && name in t.latest ==> t.latest[name].version >= 0
  {
    assert AllConsistent(t) ==> Consistent(t, name);
  }

  /** The first put keeps the tables consistent, and so does the second. */
  lemma SavedIsConsistent(t: Tables, def: Definition)
    requires AllConsistent(t) && CanPut(t, def) && 0 <= def.version <= Upcoming(t, def.name)
    ensures AllConsistent(PutDefinition(t, def)) && AllConsistent(PutLatest(PutDefinition(t, def), def))
  {
    PutKeepsConsistent(t, def);
    PublishKeepsConsistent(PutDefinition(t, def), def);
  }
}
