/** Replaying a history page by page with one shared event map (`UpdateWorkflowHistory`) against
    replaying it in one call. A page sees only its own jobs when an execution-level event asks for
    the last job, so such an event is lost when its page has not entered a state yet. */
module PagedReplay {
  import opened Wrappers
  import opened Replay

  /** No execution-level event comes before the page's first supported state entry. */
  ghost predicate Anchored(page: seq<HistoryEvent>) {
    forall i :: 0 <= i < |page| && Class(page[i].typ).ExecutionLevel? ==> EnteredCount(page[..i]) > 0
  }

  ghost predicate SameJobs(a: State, b: State) {
    a.jobs == b.jobs && a.owner == b.owner
  }

  /** Two runs that differ only in where their page starts agree as long as both would find, or both
      would miss, the last job of each execution-level event. */
  lemma {:induction false} PageStartIsIrrelevant(a: State, b: State, page: seq<HistoryEvent>, ctx: Context)
    requires Valid(a) && Valid(b) && SameJobs(a, b)
    requires b.pageStart == 0
    requires Anchored(page) || (a.jobs == [] && a.pageStart == 0)
    requires a.pageStart == |a.jobs|
    ensures SameJobs(Run(a, page, ctx), Run(b, page, ctx))
  {
    hide ApplyEvent;
    if page != [] {
      var init, evt := page[..|page| - 1], page[|page| - 1];
      if Anchored(page) {
        assert forall i :: 0 <= i < |init| ==> init[..i] == page[..i];
        assert Anchored(init);
      }
      PageStartIsIrrelevant(a, b, init, ctx);
      assert Class(evt.typ).ExecutionLevel? && Anchored(page) ==> EnteredCount(init) > 0;
    }
  }

  ghost predicate EachAnchored(pages: seq<seq<HistoryEvent>>) {
    forall p :: 0 <= p < |pages| ==> Anchored(pages[p]) || EnteredCount(Concat(pages[..p])) == 0
  }

  /** Paged replay gives the jobs of one-shot replay when every page is anchored or comes before any
      state entry. */
  lemma {:induction false} PagedReplayEqualsOneShot(pages: seq<seq<HistoryEvent>>, ctx: Context)
    requires EachAnchored(pages)
    ensures SameJobs(RunPages(pages, ctx), Run(FRESH, Concat(pages), ctx))
  {
    hide ApplyEvent;
    if pages != [] {
      var init, page := pages[..|pages| - 1], pages[|pages| - 1];
      assert forall p :: 0 <= p < |init| ==> init[..p] == pages[..p];
      PagedReplayEqualsOneShot(init, ctx);
      RunConcat(FRESH, Concat(init), page, ctx);
      var paged, whole := RunPages(init, ctx), Run(FRESH, Concat(init), ctx);
      PageStartIsIrrelevant(paged.(pageStart := |paged.jobs|), whole, page, ctx);
    }
  }

  // ---------- histories as SFN writes them ----------

  /** An execution ends with at most one execution-level event, its last event. */
  ghost predicate EndsOnce(events: seq<HistoryEvent>) {
    forall i :: 0 <= i < |events| && Class(events[i].typ).ExecutionLevel? ==> i == |events| - 1
  }

  ghost predicate IsInstantOf(t: Time, events: seq<HistoryEvent>) {
    t == ZERO_TIME || exists i :: 0 <= i < |events| && events[i].timestamp == t
  }

  lemma {:induction false} StoppedAtIsAnInstant(events: seq<HistoryEvent>, ctx: Context)
    ensures forall k :: 0 <= k < EnteredCount(events) ==>
              IsInstantOf(Run(FRESH, events, ctx).jobs[k].stoppedAt, events)
  {
    if events != [] {
      var init, evt := events[..|events| - 1], events[|events| - 1];
      StoppedAtIsAnInstant(init, ctx);
      forall t | IsInstantOf(t, init) ensures IsInstantOf(t, events) {
        if t != ZERO_TIME {
          var i :| 0 <= i < |init| && init[i].timestamp == t;
          assert events[i].timestamp == t;
        }
      }
      assert events[|events| - 1].timestamp == evt.timestamp;
      assert IsInstantOf(evt.timestamp, events);
      var before, after := Run(FRESH, init, ctx).jobs, Run(FRESH, events, ctx).jobs;
      forall k | 0 <= k < |after| ensures IsInstantOf(after[k].stoppedAt, events) {
        assert k < |before| ==> after[k] == before[k] || after[k] == ApplyEvent(before[k], evt, ctx);
        assert k == |before| ==> after[k] == ApplyEvent(EMPTY_JOB, evt, ctx);
      }
    }
  }

  lemma {:induction false} NoEarlyEnd(pages: seq<seq<HistoryEvent>>, p: nat, i: nat)
    requires p < |pages| && i < |pages[p]|
    requires EndsOnce(Concat(pages)) && Class(pages[p][i].typ).ExecutionLevel?
    ensures |Concat(pages[..p])| + i == |Concat(pages)| - 1
    decreases |pages|
  {
    var init, page := pages[..|pages| - 1], pages[|pages| - 1];
    var front := Concat(init);
    if p == |pages| - 1 {
      assert Concat(pages)[|front| + i] == page[i];
    } else {
      ConcatAt(init, p, i);
      assert init[..p] == pages[..p];
      assert Concat(pages)[|Concat(pages[..p])| + i] == front[|Concat(pages[..p])| + i];
    }
  }

  lemma {:induction false} ConcatAt(pages: seq<seq<HistoryEvent>>, p: nat, i: nat)
    requires p < |pages| && i < |pages[p]|
    ensures |Concat(pages[..p])| + i < |Concat(pages)|
    ensures Concat(pages)[|Concat(pages[..p])| + i] == pages[p][i]
    decreases |pages|
  {
    var init := pages[..|pages| - 1];
    if p < |pages| - 1 {
      ConcatAt(init, p, i);
      assert init[..p] == pages[..p];
    }
  }

  /** The end of a history finds its last job already as it would make it. */
  ghost predicate EndChangesNothing(events: seq<HistoryEvent>, ctx: Context) {
    && events != []
    && var jobs := Run(FRESH, events[..|events| - 1], ctx).jobs;
    && jobs != []
    && ApplyEvent(jobs[|jobs| - 1], events[|events| - 1], ctx) == jobs[|jobs| - 1]
  }

  /** The end of the history comes in a page, with no state entry before it there, after some entry. */
  ghost predicate EndStrays(pages: seq<seq<HistoryEvent>>) {
    (exists p :: 0 <= p < |pages| && !Anchored(pages[p])) && EnteredCount(Concat(pages)) > 0
  }

  /** A history that ends once is replayed alike, paged or not, exactly when its end does not stray or
      finds the last job already as it would make it. */
  lemma {:induction false} PagedReplayExact(pages: seq<seq<HistoryEvent>>, ctx: Context)
    requires EndsOnce(Concat(pages))
    ensures RunPages(pages, ctx).jobs == Run(FRESH, Concat(pages), ctx).jobs
        <==> (EndStrays(pages) ==> EndChangesNothing(Concat(pages), ctx))
  {
    if EndStrays(pages) {
      var init, page := pages[..|pages| - 1], pages[|pages| - 1];
      var p :| 0 <= p < |pages| && !Anchored(pages[p]);
      if page == [] {
        assert Concat(pages) == Concat(init);
        assert !Anchored(init[p]);
        PagedReplayExact(init, ctx);
      } else {
        EarlyEndIsLast(pages, p);
        StrayEndIsLost(pages, ctx);
      }
    } else {
      forall p | 0 <= p < |pages| && !Anchored(pages[p]) ensures EnteredCount(Concat(pages[..p])) == 0 {
        EnteredUpTo(pages, p);
      }
      PagedReplayEqualsOneShot(pages, ctx);
    }
  }

  /** When the end is not at the instant of an earlier event, straying always loses it. */
  lemma PagedReplayExactForNewInstant(pages: seq<seq<HistoryEvent>>, ctx: Context)
    requires var all := Concat(pages);
             EndsOnce(all) && (all != [] ==> !IsInstantOf(all[|all| - 1].timestamp, all[..|all| - 1]))
    ensures RunPages(pages, ctx).jobs == Run(FRESH, Concat(pages), ctx).jobs <==> !EndStrays(pages)
  {
    PagedReplayExact(pages, ctx);
    if EndStrays(pages) {
      var all := Concat(pages);
      var front := all[..|all| - 1];
      StoppedAtIsAnInstant(front, ctx);
      StrayEndIsAnEnd(pages);
      var jobs := Run(FRESH, front, ctx).jobs;
      assert ApplyEvent(jobs[|jobs| - 1], all[|all| - 1], ctx).stoppedAt == all[|all| - 1].timestamp;
    }
  }

  lemma {:induction false} EnteredUpTo(pages: seq<seq<HistoryEvent>>, p: nat)
    requires p <= |pages|
    ensures EnteredCount(Concat(pages[..p])) <= EnteredCount(Concat(pages))
    decreases |pages|
  {
    if p == |pages| {
      assert pages[..p] == pages;
    } else {
      var init := pages[..|pages| - 1];
      assert init[..p] == pages[..p];
      EnteredUpTo(init, p);
      RunConcat(FRESH, Concat(init), pages[|pages| - 1], Context(map[], ""));
    }
  }

  /** An unanchored page of a history that ends once holds the end, and only empty pages follow it. */
  lemma EarlyEndIsLast(pages: seq<seq<HistoryEvent>>, p: nat)
    requires p < |pages| && !Anchored(pages[p]) && pages[|pages| - 1] != []
    requires EndsOnce(Concat(pages))
    ensures p == |pages| - 1 && EnteredCount(pages[p]) == 0
    ensures Class(pages[p][|pages[p]| - 1].typ).ExecutionLevel?
  {
    var i :| 0 <= i < |pages[p]| && Class(pages[p][i].typ).ExecutionLevel? && EnteredCount(pages[p][..i]) == 0;
    NoEarlyEnd(pages, p, i);
    if p < |pages| - 1 {
      ConcatLonger(pages, p);
    }
    assert i == |pages[p]| - 1;
  }

  lemma {:induction false} StrayEndIsAnEnd(pages: seq<seq<HistoryEvent>>)
    requires EndsOnce(Concat(pages)) && EndStrays(pages)
    ensures var all := Concat(pages); all != [] && Class(all[|all| - 1].typ).ExecutionLevel?
  {
    var p :| 0 <= p < |pages| && !Anchored(pages[p]);
    var i :| 0 <= i < |pages[p]| && Class(pages[p][i].typ).ExecutionLevel? && EnteredCount(pages[p][..i]) == 0;
    NoEarlyEnd(pages, p, i);
    ConcatAt(pages, p, i);
  }

  lemma {:induction false} ConcatLonger(pages: seq<seq<HistoryEvent>>, p: nat)
    requires p < |pages| - 1
    ensures |Concat(pages)| >= |Concat(pages[..p])| + |pages[p]| + |pages[|pages| - 1]|
  {
    var init := pages[..|pages| - 1];
    assert init[..p] == pages[..p] && init[p] == pages[p];
    if p < |init| - 1 {
      ConcatLonger(init, p);
    } else {
      assert init == pages[..p] + [pages[p]];
      assert init[..|init| - 1] == pages[..p];
    }
  }

  /** All pages before the last, and the last one up to its end, are replayed alike. */
  lemma ReplayUpToEnd(pages: seq<seq<HistoryEvent>>, ctx: Context)
    requires pages != [] && pages[|pages| - 1] != [] && EndsOnce(Concat(pages))
    ensures var init, page := pages[..|pages| - 1], pages[|pages| - 1];
            var front := page[..|page| - 1];
            SameJobs(RunPage(RunPages(init, ctx), front, ctx), Run(FRESH, Concat(init) + front, ctx))
  {
    hide ApplyEvent;
    var init, page := pages[..|pages| - 1], pages[|pages| - 1];
    var front := page[..|page| - 1];
    var all := Concat(pages);
    forall p | 0 <= p < |init| ensures Anchored(init[p]) {
      forall i | 0 <= i < |init[p]| ensures !Class(init[p][i].typ).ExecutionLevel? {
        ConcatAt(init, p, i);
        assert all[|Concat(init[..p])| + i] == init[p][i];
      }
    }
    PagedReplayEqualsOneShot(init, ctx);
    forall i | 0 <= i < |front| ensures !Class(front[i].typ).ExecutionLevel? {
      assert all[|Concat(init)| + i] == front[i];
    }
    var paged := RunPages(init, ctx);
    PageStartIsIrrelevant(paged.(pageStart := |paged.jobs|), Run(FRESH, Concat(init), ctx), front, ctx);
    RunConcat(FRESH, Concat(init), front, ctx);
  }

  lemma LastEventOfLastPage(pages: seq<seq<HistoryEvent>>)
    requires pages != [] && pages[|pages| - 1] != []
    ensures var init, page, all := pages[..|pages| - 1], pages[|pages| - 1], Concat(pages);
            && all != [] && all[|all| - 1] == page[|page| - 1]
            && all[..|all| - 1] == Concat(init) + page[..|page| - 1]
            && page == page[..|page| - 1] + [page[|page| - 1]]
  {
  }

  /** The paged replay has no job at hand for the end ... */
  lemma EndMissesItsPage(st: State, front: seq<HistoryEvent>, evt: HistoryEvent, ctx: Context)
    requires Valid(st) && Class(evt.typ).ExecutionLevel? && EnteredCount(front + [evt]) == 0
    ensures RunPage(st, front + [evt], ctx) == RunPage(st, front, ctx)
  {
    hide ApplyEvent;
    RunSnoc(st.(pageStart := |st.jobs|), front, evt, ctx);
  }

  /** ... while the one-shot replay marks the last one. */
  lemma EndMarksLastJob(events: seq<HistoryEvent>, ctx: Context)
    requires events != [] && Class(events[|events| - 1].typ).ExecutionLevel? && EnteredCount(events) > 0
    ensures EnteredCount(events[..|events| - 1]) > 0
    ensures Run(FRESH, events, ctx).jobs == Run(FRESH, events[..|events| - 1], ctx).jobs
        <==> EndChangesNothing(events, ctx)
  {
    hide ApplyEvent;
    var before, evt := Run(FRESH, events[..|events| - 1], ctx).jobs, events[|events| - 1];
    var last := |before| - 1;
    var after := Run(FRESH, events, ctx).jobs;
    assert after == before[last := ApplyEvent(before[last], evt, ctx)];
    assert after[last] == ApplyEvent(before[last], evt, ctx);
  }

  lemma StrayEndIsLost(pages: seq<seq<HistoryEvent>>, ctx: Context)
    requires pages != [] && EndsOnce(Concat(pages)) && EnteredCount(Concat(pages)) > 0
    requires var page := pages[|pages| - 1];
             page != [] && EnteredCount(page) == 0 && Class(page[|page| - 1].typ).ExecutionLevel?
    ensures EnteredCount(Concat(pages)[..|Concat(pages)| - 1]) > 0
    ensures RunPages(pages, ctx).jobs == Run(FRESH, Concat(pages), ctx).jobs <==> EndChangesNothing(Concat(pages), ctx)
  {
    hide ApplyEvent;
    hide Run;
    var init, page := pages[..|pages| - 1], pages[|pages| - 1];
    LastEventOfLastPage(pages);
    ReplayUpToEnd(pages, ctx);
    EndMissesItsPage(RunPages(init, ctx), page[..|page| - 1], page[|page| - 1], ctx);
    EndMarksLastJob(Concat(pages), ctx);
  }

  const ENTRY := EventOf(1, 0, ChoiceStateEntered)
  const ABORT := EventOf(2, 1, ExecutionAborted)
  const SPLIT_BEFORE_END := [[ENTRY], [ABORT]]

  lemma SplitPages()
    ensures Concat(SPLIT_BEFORE_END) == [ENTRY, ABORT] && EnteredCount([ENTRY, ABORT]) == 1
  {
    var pages := SPLIT_BEFORE_END;
    assert pages[..1] == [[ENTRY]] && [[ENTRY]][..0] == [];
    assert Concat([[ENTRY]]) == [ENTRY];
    assert [ENTRY, ABORT][..1] == [ENTRY] && [ENTRY][..0] == [];
    assert EnteredCount([ENTRY]) == 1;
  }

  lemma AbortIsNotAnchored()
    ensures !Anchored(SPLIT_BEFORE_END[1])
  {
    var page := SPLIT_BEFORE_END[1];
    assert page == [ABORT] && page[..0] == [] && Class(page[0].typ).ExecutionLevel?;
  }

  lemma SplitStrays()
    ensures EndsOnce(Concat(SPLIT_BEFORE_END)) && EndStrays(SPLIT_BEFORE_END)
    ensures Concat(SPLIT_BEFORE_END) != []
    ensures var all := Concat(SPLIT_BEFORE_END); !IsInstantOf(all[|all| - 1].timestamp, all[..|all| - 1])
  {
    SplitPages();
    AbortIsNotAnchored();
    hide Anchored, Concat, EnteredCount;
    var all := Concat(SPLIT_BEFORE_END);
    assert !Class(all[0].typ).ExecutionLevel?;
    assert all[..1] == [ENTRY];
  }

  /** A page boundary right before the end: the paged replay never hears that the execution was aborted. */
  lemma AbortOnPageOfItsOwnIsLost(ctx: Context)
    ensures EndsOnce(Concat(SPLIT_BEFORE_END)) && EndStrays(SPLIT_BEFORE_END)
    ensures RunPages(SPLIT_BEFORE_END, ctx).jobs != Run(FRESH, Concat(SPLIT_BEFORE_END), ctx).jobs
  {
    hide *;
    SplitStrays();
    PagedReplayExactForNewInstant(SPLIT_BEFORE_END, ctx);
  }
}
