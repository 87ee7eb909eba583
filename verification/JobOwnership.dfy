/** Which job an event belongs to, and what a job keeps through its retries, stated from the history
    alone and proved of the replay. */
module JobOwnership {
  import opened Wrappers
  import opened Replay

  function LatestWithId(events: seq<HistoryEvent>, id: int): (r: int)
    ensures -1 <= r < |events|
    ensures r >= 0 ==> events[r].id == id
    ensures r == -1 ==> id !in Ids(events)
  {
    if events == [] then -1
    else if events[|events| - 1].id == id then |events| - 1
    else
      var init := events[..|events| - 1];
      assert forall e :: e in events <==> e in init || e == events[|events| - 1];
      LatestWithId(init, id)
  }

  /** The nearest supported state entry at or above event `i` along the chain of previous event ids. */
  function Nearest(events: seq<HistoryEvent>, i: nat): (r: Option<nat>)
    requires i < |events|
    ensures r.Some? ==> r.value <= i && Class(events[r.value].typ).Entered?
  {
    match Class(events[i].typ)
    case Entered => Some(i)
    case Linked =>
      var p := LatestWithId(events[..i], events[i].previousId);
      if p == -1 then None else Nearest(events, p)
    case _ => None
  }

  /** The number of the job that a state entry creates. */
  function Rank(events: seq<HistoryEvent>, i: nat): nat
    requires i < |events|
  {
    EnteredCount(events[..i])
  }

  lemma {:induction false} NearestInPrefix(events: seq<HistoryEvent>, n: nat, i: nat)
    requires i < n <= |events|
    ensures Nearest(events[..n], i) == Nearest(events, i)
    decreases i
  {
    assert events[..n][..i] == events[..i];
    var p := LatestWithId(events[..i], events[i].previousId);
    if p != -1 {
      NearestInPrefix(events, n, p);
    }
  }

  lemma RankInPrefix(events: seq<HistoryEvent>, n: nat, i: nat)
    requires i < n <= |events|
    ensures Rank(events[..n], i) == Rank(events, i)
  {
    assert events[..n][..i] == events[..i];
  }

  /** The event belongs to the job that its id is mapped to, if it is. */
  ghost predicate OwnedAsNearest(st: State, events: seq<HistoryEvent>, i: nat)
    requires i < |events|
  {
    match Nearest(events, i)
    case None => events[i].id !in st.owner
    case Some(e) => events[i].id in st.owner && st.owner[events[i].id] == Rank(events, e)
  }

  /** The event map of a replay sends each event to the job of its nearest state entry, and to none
      when there is no such entry. */
  lemma {:induction false} OwnerIsNearestEntry(events: seq<HistoryEvent>, ctx: Context)
    requires UniqueIds(events)
    ensures forall i :: 0 <= i < |events| ==> OwnedAsNearest(Run(FRESH, events, ctx), events, i)
  {
    hide ApplyEvent;
    if events != [] {
      var last := |events| - 1;
      var init, evt := events[..last], events[last];
      OwnerIsNearestEntry(init, ctx);
      OwnersAreEvents(FRESH, init, ctx);
      var before, after := Run(FRESH, init, ctx), Run(FRESH, events, ctx);
      forall i | 0 <= i < last ensures OwnedAsNearest(after, events, i) {
        assert OwnedAsNearest(before, init, i);
        SameNearest(events, last, i);
        assert events[i].id != evt.id;
      }
      assert OwnedAsNearest(after, events, last) by {
        var p := LatestWithId(init, evt.previousId);
        if p != -1 {
          assert OwnedAsNearest(before, init, p);
          SameNearest(events, last, p);
        }
        assert evt.id !in Ids(init);
      }
    }
  }

  lemma SameNearest(events: seq<HistoryEvent>, n: nat, i: nat)
    requires i < n <= |events|
    ensures Nearest(events[..n], i) == Nearest(events, i)
    ensures Nearest(events, i).Some? ==>
              Rank(events[..n], Nearest(events, i).value) == Rank(events, Nearest(events, i).value)
  {
    NearestInPrefix(events, n, i);
    if Nearest(events, i).Some? {
      RankInPrefix(events, n, Nearest(events, i).value);
    }
  }

  // ---------- a job as the fold of its own events ----------

  /** The job that event `i` updates. */
  function Target(events: seq<HistoryEvent>, i: nat): Option<nat>
    requires i < |events|
  {
    match Class(events[i].typ)
    case Ignored => None
    case ExecutionLevel =>
      var n := EnteredCount(events[..i]);
      if n == 0 then None else Some(n - 1)
    case _ =>
      match Nearest(events, i)
      case None => None
      case Some(e) => Some(Rank(events, e))
  }

  function OwnedEvents(events: seq<HistoryEvent>, k: nat): seq<HistoryEvent> {
    if events == [] then []
    else
      var last := |events| - 1;
      OwnedEvents(events[..last], k) + if Target(events, last) == Some(k) then [events[last]] else []
  }

  function JobOf(events: seq<HistoryEvent>, ctx: Context): JobData {
    if events == [] then EMPTY_JOB
    else ApplyEvent(JobOf(events[..|events| - 1], ctx), events[|events| - 1], ctx)
  }

  lemma JobOfSnoc(events: seq<HistoryEvent>, evt: HistoryEvent, ctx: Context)
    ensures JobOf(events + [evt], ctx) == ApplyEvent(JobOf(events, ctx), evt, ctx)
  {
    assert (events + [evt])[..|events + [evt]| - 1] == events;
  }

  lemma {:induction false} EnteredCountPrefix(events: seq<HistoryEvent>, n: nat)
    requires n <= |events|
    ensures EnteredCount(events[..n]) <= EnteredCount(events)
    decreases |events|
  {
    if n < |events| {
      var init := events[..|events| - 1];
      EnteredCountPrefix(init, n);
      assert init[..n] == events[..n];
    } else {
      assert events[..n] == events;
    }
  }

  lemma RankBound(events: seq<HistoryEvent>, i: nat)
    requires i < |events| && Class(events[i].typ).Entered?
    ensures Rank(events, i) < EnteredCount(events)
  {
    assert events[..i + 1][..i] == events[..i];
    EnteredCountPrefix(events, i + 1);
  }

  lemma TargetBound(events: seq<HistoryEvent>)
    requires events != []
    ensures var last := |events| - 1;
            Target(events, last).Some? && !Class(events[last].typ).Entered? ==>
              Target(events, last).value < EnteredCount(events[..last])
    ensures var last := |events| - 1;
            Class(events[last].typ).Entered? ==> Target(events, last) == Some(EnteredCount(events[..last]))
  {
    var last := |events| - 1;
    if Class(events[last].typ).Linked? {
      match Nearest(events, last)
      case None =>
      case Some(e) =>
        assert e < last;
        RankBound(events[..last], e);
        RankInPrefix(events, last, e);
    }
  }

  /** The events of job `k` are its state entry followed by no other entry; a job that is not yet
      created has no events. */
  lemma {:induction false} OwnedEventsShape(events: seq<HistoryEvent>, k: nat)
    ensures var own := OwnedEvents(events, k);
            if k < EnteredCount(events) then IsJobTrail(own) else own == []
  {
    if events != [] {
      hide Target;
      hide Class;
      OwnedEventsShape(events[..|events| - 1], k);
      TargetBound(events);
    }
  }

  ghost predicate IsJobTrail(own: seq<HistoryEvent>) {
    && own != [] && Class(own[0].typ).Entered?
    && forall i :: 0 < i < |own| ==> !Class(own[i].typ).Entered?
  }

  lemma TargetIsUpdated(events: seq<HistoryEvent>, ctx: Context)
    requires UniqueIds(events) && events != []
    ensures var last := |events| - 1;
            var before, after := Run(FRESH, events[..last], ctx).jobs, Run(FRESH, events, ctx).jobs;
            match Target(events, last)
            case None => after == before
            case Some(k) =>
              if Class(events[last].typ).Entered? then
                k == |before| && after == before + [ApplyEvent(EMPTY_JOB, events[last], ctx)]
              else
                k < |before| && after == before[k := ApplyEvent(before[k], events[last], ctx)]
  {
    hide ApplyEvent;
    var last := |events| - 1;
    var init, evt := events[..last], events[last];
    TargetBound(events);
    if Class(evt.typ).Linked? {
      var st := Run(FRESH, init, ctx);
      OwnerIsNearestEntry(init, ctx);
      OwnersAreEvents(FRESH, init, ctx);
      var p := LatestWithId(init, evt.previousId);
      if p != -1 {
        assert OwnedAsNearest(st, init, p);
        SameNearest(events, last, p);
      }
    }
  }

  /** Jobs correspond one to one and in order with the supported state entries, and the `k`-th job is
      the fold of its own events: replay mixes parallel branches without mixing their jobs. */
  lemma {:induction false} JobIsFoldOfOwnEvents(events: seq<HistoryEvent>, ctx: Context)
    requires UniqueIds(events)
    ensures var jobs := Run(FRESH, events, ctx).jobs;
            && |jobs| == EnteredCount(events)
            && forall k :: 0 <= k < |jobs| ==> jobs[k] == JobOf(OwnedEvents(events, k), ctx)
  {
    if events != [] {
      var last := |events| - 1;
      var init, evt := events[..last], events[last];
      JobIsFoldOfOwnEvents(init, ctx);
      TargetIsUpdated(events, ctx);
      TargetBound(events);
      var jobs := Run(FRESH, events, ctx).jobs;
      hide ApplyEvent;
      hide Run;
      forall k | 0 <= k < |jobs| ensures jobs[k] == JobOf(OwnedEvents(events, k), ctx) {
        JobOfSnoc(OwnedEvents(init, k), evt, ctx);
        OwnedEventsShape(init, k);
        assert OwnedEvents(init, k) + [] == OwnedEvents(init, k);
      }
    }
  }

  // ---------- retries ----------

  /** One attempt for each scheduling that finds the job failed, in order: the failed run as it was. */
  function RetryTrail(own: seq<HistoryEvent>, ctx: Context): seq<JobAttempt> {
    if own == [] then []
    else
      var init := own[..|own| - 1];
      RetryTrail(init, ctx)
        + if IsScheduled(own[|own| - 1].typ) && JobOf(init, ctx).status.Failed?
          then [AttemptOf(JobOf(init, ctx))] else []
  }

  ghost predicate SameIdentity(a: JobData, b: JobData) {
    && a.state == b.state && a.input == b.input
    && a.resource.Some? == b.resource.Some?
    && (a.resource.Some? ==>
          && a.resource.value.name == b.resource.value.name
          && a.resource.value.typ == b.resource.value.typ
          && a.resource.value.namespace == b.resource.value.namespace)
  }

  lemma {:induction false} TrailKeepsIdentity(own: seq<HistoryEvent>, ctx: Context)
    requires IsJobTrail(own)
    ensures JobOf(own, ctx).attempts == RetryTrail(own, ctx)
    ensures SameIdentity(JobOf(own, ctx), EnterState(EMPTY_JOB, own[0], ctx))
  {
    var init, evt := own[..|own| - 1], own[|own| - 1];
    if |own| == 1 {
      assert init == [];
    } else {
      assert IsJobTrail(init);
      TrailKeepsIdentity(init, ctx);
      EventKeepsIdentity(JobOf(init, ctx), evt, ctx);
      assert RetryTrail(init, ctx) + [] == RetryTrail(init, ctx);
    }
  }

  lemma EventKeepsIdentity(job: JobData, evt: HistoryEvent, ctx: Context)
    requires !Class(evt.typ).Entered?
    ensures SameIdentity(ApplyEvent(job, evt, ctx), job)
    ensures ApplyEvent(job, evt, ctx).attempts
         == job.attempts + if IsScheduled(evt.typ) && job.status.Failed? then [AttemptOf(job)] else []
  {
    assert job.attempts + [] == job.attempts;
  }

  /** After any history, each job has exactly one attempt per scheduling of its own that found it
      failed, with the failed run's times and reason, and it still is the job of the state entry that
      created it: same state, input and resource. */
  lemma AttemptsAreConserved(events: seq<HistoryEvent>, k: nat, ctx: Context)
    requires UniqueIds(events) && k < EnteredCount(events)
    ensures var own := OwnedEvents(events, k);
            var job := Run(FRESH, events, ctx).jobs[k];
            && IsJobTrail(own)
            && job.attempts == RetryTrail(own, ctx)
            && SameIdentity(job, EnterState(EMPTY_JOB, own[0], ctx))
  {
    JobIsFoldOfOwnEvents(events, ctx);
    OwnedEventsShape(events, k);
    TrailKeepsIdentity(OwnedEvents(events, k), ctx);
  }
}
