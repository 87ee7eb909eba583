/** The two callers of `ProcessEvents`: the full, paged refresh of a workflow's jobs
    (`UpdateWorkflowHistory`) and the cheap refresh of its last job (`UpdateWorkflowLastJob`). */
module HistoryUpdates {
  import opened Wrappers
  import opened Replay
  import opened ProcessEvents
  import opened PagedReplay
  import opened SuffixReplay

  class WorkflowRecord {
    var jobs: seq<Job>
    var lastJob: Job?
  }

  function Reversed(s: seq<HistoryEvent>): (r: seq<HistoryEvent>)
    ensures |r| == |s| && forall i :: 0 <= i < |s| ==> r[i] == s[|s| - 1 - i]
  {
    seq(|s|, i requires 0 <= i < |s| => s[|s| - 1 - i])
  }

  method ReverseHistory(events: array<HistoryEvent>) returns (reversed: array<HistoryEvent>)
    ensures fresh(reversed) && reversed[..] == Reversed(events[..])
    ensures Reversed(reversed[..]) == events[..]
  {
    var numEvents := events.Length;
    reversed := new HistoryEvent[numEvents];
    for i := 0 to numEvents
      invariant forall k :: 0 <= k < i ==> reversed[k] == events[numEvents - 1 - k]
    {
      reversed[i] := events[numEvents - 1 - i];
    }
  }

  /** A replay of the newest events alone, with a map of its own. */
  method ReplayNewest(newest: array<HistoryEvent>, ctx: Context) returns (jobs: seq<Job>)
    requires forall i :: 0 <= i < newest.Length ==> HasDetails(newest[i])
    ensures fresh(jobs) && DataOf(jobs) == Run(FRESH, Reversed(newest[..]), ctx).jobs
  {
    hide Run;
    var index := new EventIndex();
    var chronological := ReverseHistory(newest);
    jobs := ProcessEvents.ProcessEvents(chronological[..], ctx, index);
    assert jobs == index.created;
  }

  lemma LastJobWhateverCameBefore(suffix: seq<HistoryEvent>, ctx: Context)
    requires UniqueIds(suffix) && EnteredCount(suffix) > 0
    ensures forall older :: LastJob(Run(FRESH, older + suffix, ctx)) == LastJob(Run(FRESH, suffix, ctx))
  {
    forall older ensures LastJob(Run(FRESH, older + suffix, ctx)) == LastJob(Run(FRESH, suffix, ctx)) {
      LastJobOfSuffix(older, suffix, ctx);
    }
  }

  /** `newest` comes from SFN newest event first. Whatever events came before them, the last job found
      is the last job of the whole history; without a state entry among them the record is left alone. */
  method UpdateWorkflowLastJob(newest: Result<array<HistoryEvent>, HistoryError>, ctx: Context, wf: WorkflowRecord)
    returns (r: Result<(), HistoryError>)
    requires newest.Success? ==> forall i :: 0 <= i < newest.value.Length ==> HasDetails(newest.value[i])
    modifies wf
    ensures r.Success? <==> newest.Success?
    ensures wf.jobs == old(wf.jobs)
    ensures newest.Failure? || EnteredCount(Reversed(newest.value[..])) == 0 ==> wf.lastJob == old(wf.lastJob)
    ensures newest.Success? && EnteredCount(Reversed(newest.value[..])) > 0 ==>
              && wf.lastJob != null && fresh(wf.lastJob)
              && Some(wf.lastJob.data) == LastJob(Run(FRESH, Reversed(newest.value[..]), ctx))
    ensures newest.Success? && EnteredCount(Reversed(newest.value[..])) > 0 && UniqueIds(newest.value[..]) ==>
              forall older :: LastJob(Run(FRESH, older + Reversed(newest.value[..]), ctx)) == Some(wf.lastJob.data)
  {
    hide Run;
    if newest.Failure? {
      return Failure(newest.error);
    }
    ghost var suffix := Reversed(newest.value[..]);
    var jobs := ReplayNewest(newest.value, ctx);
    if |jobs| > 0 {
      wf.lastJob := jobs[|jobs| - 1];
      if UniqueIds(newest.value[..]) {
        LastJobWhateverCameBefore(suffix, ctx);
      }
    }
    return Success(());
  }

  /** All pages of a history, replayed one after the other with one map. */
  method ReplayPages(pages: seq<seq<HistoryEvent>>, ctx: Context) returns (jobs: seq<Job>)
    requires forall p, i :: 0 <= p < |pages| && 0 <= i < |pages[p]| ==> HasDetails(pages[p][i])
    ensures fresh(jobs) && DataOf(jobs) == RunPages(pages, ctx).jobs
  {
    hide Run;
    jobs := [];
    var index := new EventIndex();
    assert pages[..0] == [];
    for p := 0 to |pages|
      invariant index.Valid() && index.Resourced() && fresh(index) && fresh(index.created)
      invariant jobs == index.created
      invariant SameJobs(index.View(0), RunPages(pages[..p], ctx))
    {
      assert pages[..p + 1][..p] == pages[..p];
      ghost var before := RunPages(pages[..p], ctx);
      assert index.View(|index.created|) == before.(pageStart := |before.jobs|);
      var more := ProcessEvents.ProcessEvents(pages[p], ctx, index);
      jobs := jobs + more;
    }
    assert pages[..|pages|] == pages;
  }

  /** The jobs stored are those of one replay of the concatenated pages, after all later updates in
      place, exactly when the execution's end does not stray into a page of its own. */
  method UpdateWorkflowHistory(history: Result<seq<seq<HistoryEvent>>, HistoryError>, ctx: Context, wf: WorkflowRecord)
    returns (r: Result<(), HistoryError>)
    requires history.Success? ==>
               forall p, i :: 0 <= p < |history.value| && 0 <= i < |history.value[p]|
                 ==> HasDetails(history.value[p][i])
    modifies wf
    ensures r == if history.Failure? && history.error.OtherError? then Failure(OtherError) else Success(())
    ensures wf.lastJob == old(wf.lastJob)
    ensures history.Failure? ==> wf.jobs == old(wf.jobs)
    ensures history.Success? ==> fresh(wf.jobs) && DataOf(wf.jobs) == RunPages(history.value, ctx).jobs
    ensures history.Success? && EndsOnce(Concat(history.value)) ==>
              (DataOf(wf.jobs) == Run(FRESH, Concat(history.value), ctx).jobs
               <==> (EndStrays(history.value) ==> EndChangesNothing(Concat(history.value), ctx)))
  {
    hide Run;
    if history.Failure? {
      if history.error.ExecutionDoesNotExist? {
        return Success(());
      }
      return Failure(history.error);
    }
    var jobs := ReplayPages(history.value, ctx);
    if EndsOnce(Concat(history.value)) {
      PagedReplayExact(history.value, ctx);
    }
    wf.jobs := jobs;
    return Success(());
  }
}
