/** Replaying only the newest events (`wfupdater/lastjob.go`) against replaying the whole history. */
module SuffixReplay {
  import opened Wrappers
  import opened Replay

  /** `part` is what `full` knows about the jobs from number `k` on. */
  ghost predicate Mirrors(full: State, part: State, k: nat)
  {
    && Valid(full) && Valid(part)
    && |full.jobs| == k + |part.jobs| && full.jobs[k..] == part.jobs
    && full.pageStart == part.pageStart == 0
    && (forall id :: id in part.owner ==> id in full.owner && full.owner[id] == part.owner[id] + k)
    && (forall id :: id in full.owner && full.owner[id] >= k ==> id in part.owner)
  }

  lemma StepMirrors(full: State, part: State, k: nat, evt: HistoryEvent, ctx: Context)
    requires Mirrors(full, part, k)
    requires evt.id !in part.owner
    ensures Mirrors(Step(full, evt, ctx), Step(part, evt, ctx), k)
  {
    hide ApplyEvent;
    var full', part' := Step(full, evt, ctx), Step(part, evt, ctx);
    assert forall n :: 0 <= n < |part.jobs| ==> full.jobs[n + k] == full.jobs[k..][n] == part.jobs[n];
    assert full'.jobs[k..] == part'.jobs;
  }

  lemma {:induction false} RunMirrors(full: State, part: State, k: nat, events: seq<HistoryEvent>, ctx: Context)
    requires Mirrors(full, part, k) && part.owner == map[]
    requires UniqueIds(events)
    ensures Mirrors(Run(full, events, ctx), Run(part, events, ctx), k)
  {
    hide ApplyEvent;
    if events != [] {
      var init, evt := events[..|events| - 1], events[|events| - 1];
      RunMirrors(full, part, k, init, ctx);
      OwnersAreEvents(part, init, ctx);
      StepMirrors(Run(full, init, ctx), Run(part, init, ctx), k, evt, ctx);
    }
  }

  /** The jobs of a replay of the suffix alone are, field by field and in order, the jobs that the
      whole replay creates in the suffix. Only the ids inside the suffix have to differ. */
  lemma SuffixReplayRefinesFullReplay(prefix: seq<HistoryEvent>, suffix: seq<HistoryEvent>, ctx: Context)
    requires UniqueIds(suffix)
    ensures EnteredCount(prefix + suffix) == EnteredCount(prefix) + EnteredCount(suffix)
    ensures Run(FRESH, prefix + suffix, ctx).jobs[EnteredCount(prefix)..] == Run(FRESH, suffix, ctx).jobs
  {
    var k := EnteredCount(prefix);
    RunConcat(FRESH, prefix, suffix, ctx);
    RunMirrors(Run(FRESH, prefix, ctx), FRESH, k, suffix, ctx);
  }

  /** `jobs[len(jobs)-1]`, if there is one. */
  ghost function LastJob(st: State): Option<JobData> {
    if st.jobs == [] then None else Some(st.jobs[|st.jobs| - 1])
  }

  /** The last job computed from the newest events is the last job of the whole history exactly when
      the newest events hold a supported state entry, or no event of the history does. */
  lemma LastJobOfSuffix(prefix: seq<HistoryEvent>, suffix: seq<HistoryEvent>, ctx: Context)
    requires UniqueIds(suffix)
    ensures LastJob(Run(FRESH, suffix, ctx)) == LastJob(Run(FRESH, prefix + suffix, ctx))
        <==> EnteredCount(suffix) > 0 || EnteredCount(prefix) == 0
  {
    SuffixReplayRefinesFullReplay(prefix, suffix, ctx);
    RunConcat(FRESH, prefix, suffix, ctx);
    var full, part := Run(FRESH, prefix + suffix, ctx).jobs, Run(FRESH, suffix, ctx).jobs;
    assert part != [] ==> part[|part| - 1] == full[EnteredCount(prefix)..][|part| - 1] == full[|full| - 1];
  }
}
