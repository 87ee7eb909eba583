/** Two ways in which a record learns that its execution has ended: the event that the consumer is
    delivered, and a summary refresh. Where the two agree, and where they do not. */
module Observers {
  import opened Wrappers
  import opened Strings
  import opened Names
  import opened Replay
  import opened StateMachines
  import opened WorkflowStore
  import opened EventConsumer
  import opened Lifecycle

  /** The time at which the event says the execution stopped. */
  function StoppedBy(end: CwEvent): Time
    requires IsTerminalEvent(end.typ) && Atoi(end.timestamp).Some?
  {
    UnixMilli(Atoi(end.timestamp).value)
  }

  /** The output in the record after the event: a success brings one, other ends leave the old one. */
  function OutputAfter(wf: Workflow, end: CwEvent): string {
    if end.typ.CwExecutionSucceeded? && end.output.Some? then end.output.value else wf.output
  }

  /** Event and summary always agree on everything but three fields. Of these, the summary overwrites the
      output even of a failure, takes the time of stopping from SFN if it gives one, and stamps the
      record. */
  lemma ObserversOfOneRecord(wf: Workflow, end: CwEvent, job: Option<JobData>,
                             stopDate: Option<Time>, sfnOutput: string)
    requires IsEnd(end)
    ensures var lookedUp := if job.Some? then job else wf.lastJob;
            var byEvent := Applied(wf, TerminalUpdate(end, StoppedBy(end), lookedUp));
            var bySummary := UpToDate(wf, EndOf(end.typ), stopDate, sfnOutput, Success(job));
            && bySummary == byEvent.(stoppedAt := OrElse(stopDate, wf.stoppedAt), output := sfnOutput)
            && (bySummary == byEvent
                <==> OrElse(stopDate, wf.stoppedAt) == StoppedBy(end) && sfnOutput == OutputAfter(wf, end))
  {
    hide Atoi, UnixMilli;
  }

  /** The step of the consumer and the step of a summary, from the same state, for an execution that has
      ended, of a workflow that is not done: each changes only that workflow, and the two records are
      equal but for stop time, output and stamp, and equal in the first two exactly when SFN tells the
      summary what it told the event, a failure leaving the output it found. */
  lemma EventAndSummary(s: System, end: CwEvent, job: Option<JobData>, stopDate: Option<Time>, sfnOutput: string)
    requires IsEnd(end) && ExecOf(end) in s.workflows && s.workflows[ExecOf(end)].id == ExecOf(end)
    requires Exec(s, ExecOf(end)) == EndOf(end.typ) && !WorkflowIsDone(s.workflows[ExecOf(end)])
    ensures var id := ExecOf(end);
            var byEvent := Delivered(s, Delivery(end, Success(job))).workflows;
            var bySummary := Refreshed(s, RefreshSummary(id, true, stopDate, sfnOutput, Success(job))).workflows;
            && id in byEvent && id in bySummary && byEvent[id := bySummary[id]] == bySummary
            && bySummary[id]
               == byEvent[id].(stoppedAt := bySummary[id].stoppedAt, output := bySummary[id].output,
                               lastUpdated := s.clock)
            && (bySummary[id] == byEvent[id].(lastUpdated := s.clock)
                <==> OrElse(stopDate, s.workflows[id].stoppedAt) == StoppedBy(end)
                     && sfnOutput == OutputAfter(s.workflows[id], end))
  {
    var wf := s.workflows[ExecOf(end)];
    ObserversOfOneRecord(wf, end, job, stopDate, sfnOutput);
    EventRecord(s, end, job);
    SummaryRecord(s, end, job, stopDate, sfnOutput);
    hide Atoi, UnixMilli, ExecOf, Exec, Delivered, Refreshed, UpToDate, TerminalUpdate, Applied,
         WorkflowIsDone, IsEnd, OutputAfter;
  }

  lemma EventRecord(s: System, end: CwEvent, job: Option<JobData>)
    requires IsEnd(end) && ExecOf(end) in s.workflows
    ensures var wf := s.workflows[ExecOf(end)];
            var update := TerminalUpdate(end, StoppedBy(end), if job.Some? then job else wf.lastJob);
            Delivered(s, Delivery(end, Success(job))).workflows == s.workflows[ExecOf(end) := Applied(wf, update)]
  {
    hide Atoi, UnixMilli, ExecIDFromExecutionARN;
  }

  lemma SummaryRecord(s: System, end: CwEvent, job: Option<JobData>, stopDate: Option<Time>, sfnOutput: string)
    requires IsTerminalEvent(end.typ) && ExecOf(end) in s.workflows && s.workflows[ExecOf(end)].id == ExecOf(end)
    requires Exec(s, ExecOf(end)) == EndOf(end.typ) && !WorkflowIsDone(s.workflows[ExecOf(end)])
    ensures var id := ExecOf(end);
            var record := UpToDate(s.workflows[id], EndOf(end.typ), stopDate, sfnOutput, Success(job));
            Refreshed(s, RefreshSummary(id, true, stopDate, sfnOutput, Success(job))).workflows
            == s.workflows[id := record.(lastUpdated := s.clock)]
  {
    hide ExecOf, WorkflowIsDone;
  }

  /** For an execution that failed, whatever the record's output was, a summary without output erases it and
      the event keeps it. */
  lemma FailureOutputs(s: System, end: CwEvent, job: Option<JobData>)
    requires IsEnd(end) && IsFailureEvent(end.typ)
             && ExecOf(end) in s.workflows && s.workflows[ExecOf(end)].id == ExecOf(end)
    requires Exec(s, ExecOf(end)) == EndOf(end.typ) && !WorkflowIsDone(s.workflows[ExecOf(end)])
    ensures var id := ExecOf(end);
            && Delivered(s, Delivery(end, Success(job))).workflows[id].output == s.workflows[id].output
            && Refreshed(s, RefreshSummary(id, true, None, "", Success(job))).workflows[id].output == ""
  {
    EventRecord(s, end, job);
    SummaryRecord(s, end, job, None, "");
    hide Atoi, UnixMilli, ExecOf, Exec, Delivered, Refreshed, WorkflowIsDone, IsEnd;
  }

  // ---------- any mixture of the two ----------

  datatype Observation =
    | Event(d: Delivery)
    | Summary(stopDate: Option<Time>, sfnOutput: string, found: Result<Option<JobData>, ()>)

  /** One observation of the execution `id`, or a delivery of another one. */
  function Observed(s: System, id: Id, o: Observation): System {
    match o
    case Event(d) => Delivered(s, d)
    case Summary(stopDate, sfnOutput, found) =>
      Refreshed(s, RefreshSummary(id, true, stopDate, sfnOutput, found))
  }

  function AllObserved(s: System, id: Id, os: seq<Observation>): System {
    if os == [] then s else Observed(AllObserved(s, id, os[..|os| - 1]), id, os[|os| - 1])
  }

  /** Events are of another execution, not terminal, or this very end; lookups of the last job that succeed
      find the same job. */
  ghost predicate ObservesSame(o: Observation, end: CwEvent, job: Option<JobData>) {
    match o
    case Event(d) => Agrees(d, end, job)
    case Summary(_, _, found) => found.Success? ==> found.value == job
  }

  /** Equal but for stop time, output and stamp. */
  predicate SameBut(a: Workflow, b: Workflow) {
    a == b.(stoppedAt := a.stoppedAt, output := a.output, lastUpdated := a.lastUpdated)
  }

  /** What observations can have made of a record: at most running before the end, settled after it. */
  ghost predicate Progressed(was: Workflow, now: Workflow, end: CwEvent, job: Option<JobData>, ended: bool)
    requires IsEnd(end)
  {
    || SameBut(now, Settled(was, end, job))
    || (!ended && (SameBut(now, was) || (SameBut(now, was.(status := WorkflowRunning)) && !TerminalState(was.status))))
  }

  predicate BringsEnd(o: Observation, end: CwEvent) {
    o.Event? && Settles(o.d, end)
  }

  lemma SettledAgain(was: Workflow, now: Workflow, end: CwEvent, job: Option<JobData>, ended: bool)
    requires IsEnd(end) && Progressed(was, now, end, job, ended)
    ensures SameBut(Settled(now, end, job), Settled(was, end, job))
  {
    hide Atoi, UnixMilli;
  }

  lemma SameButThrough(a: Workflow, b: Workflow, c: Workflow)
    requires SameBut(a, b) && SameBut(b, c)
    ensures SameBut(a, c)
  {
  }

  lemma SummaryIsSame(wf: Workflow, end: CwEvent, job: Option<JobData>, stopDate: Option<Time>,
                      sfnOutput: string, now: Time)
    requires IsEnd(end)
    ensures SameBut(UpToDate(wf, EndOf(end.typ), stopDate, sfnOutput, Success(job)).(lastUpdated := now),
                    Settled(wf, end, job))
  {
    ObserversOfOneRecord(wf, end, job, stopDate, sfnOutput);
    hide Atoi, UnixMilli, UpToDate, TerminalUpdate, Applied;
  }

  /** The execution has ended and its workflow is stored. */
  ghost predicate HasEndedAs(s: System, end: CwEvent) {
    && IsEnd(end) && ExecOf(end) in s.workflows && s.workflows[ExecOf(end)].id == ExecOf(end)
    && Exec(s, ExecOf(end)) == EndOf(end.typ)
  }

  lemma EventProgresses(s: System, d: Delivery, was: Workflow, end: CwEvent, job: Option<JobData>, ended: bool)
    requires HasEndedAs(s, end) && Agrees(d, end, job)
    requires Progressed(was, s.workflows[ExecOf(end)], end, job, ended)
    ensures var t := Delivered(s, d);
            && HasEndedAs(t, end)
            && Progressed(was, t.workflows[ExecOf(end)], end, job, ended || Settles(d, end))
  {
    var now := s.workflows[ExecOf(end)];
    SettledAgain(was, now, end, job, ended);
    DeliveryMakesProgress(s.workflows, d, now, end, job, false);
    var later := Handled(s.workflows, d).0[ExecOf(end)];
    EventCases(was, now, later, end, job, ended, Settles(d, end));
    LaterKeepsId(now, later, end, job, Settles(d, end));
    hide Handled, Settled, ExecOf, IsEnd, Progressed, Progress, Settles, EndOf, Agrees;
  }

  lemma LaterKeepsId(now: Workflow, later: Workflow, end: CwEvent, job: Option<JobData>, settles: bool)
    requires IsEnd(end) && Progress(now, later, end, job, settles)
    ensures later.id == now.id
  {
    hide Atoi, UnixMilli;
  }

  lemma SettledIsTerminal(wf: Workflow, end: CwEvent, job: Option<JobData>)
    requires IsEnd(end)
    ensures TerminalState(Settled(wf, end, job).status)
  {
    hide Atoi, UnixMilli;
  }

  lemma EventCases(was: Workflow, now: Workflow, later: Workflow, end: CwEvent, job: Option<JobData>, ended: bool,
                   settles: bool)
    requires IsEnd(end) && Progressed(was, now, end, job, ended) && Progress(now, later, end, job, settles)
    requires SameBut(Settled(now, end, job), Settled(was, end, job))
    ensures Progressed(was, later, end, job, ended || settles)
  {
    SettledIsTerminal(was, end, job);
    hide Settled, IsEnd;
  }

  lemma SummaryProgresses(s: System, o: Observation, was: Workflow, end: CwEvent, job: Option<JobData>, ended: bool)
    requires HasEndedAs(s, end) && o.Summary? && ObservesSame(o, end, job)
    requires Progressed(was, s.workflows[ExecOf(end)], end, job, ended)
    ensures var t := Observed(s, ExecOf(end), o);
            HasEndedAs(t, end) && Progressed(was, t.workflows[ExecOf(end)], end, job, ended)
  {
    var id := ExecOf(end);
    var now := s.workflows[id];
    SettledAgain(was, now, end, job, ended);
    var t := Observed(s, id, o);
    if WorkflowIsDone(now) || (IsFailureEvent(end.typ) && o.found.Failure?) {
      hide ExecOf, WorkflowIsDone, Settled, Progressed, IsEnd;
      assert t == s;
    } else {
      var found := if o.found.Success? then o.found else Success(job);
      SummaryIsSame(now, end, job, o.stopDate, o.sfnOutput, s.clock);
      SummaryMakes(s, o, end, job);
      SameButThrough(t.workflows[id], Settled(now, end, job), Settled(was, end, job));
      SummaryKeepsId(now, end, job, o);
      hide ExecOf, WorkflowIsDone, Settled, IsEnd, UpToDate, SameBut, Observed;
    }
  }

  lemma SummaryKeepsId(wf: Workflow, end: CwEvent, job: Option<JobData>, o: Observation)
    requires IsTerminalEvent(end.typ) && o.Summary?
    ensures UpToDate(wf, EndOf(end.typ), o.stopDate, o.sfnOutput, Success(job)).id == wf.id
  {
  }

  /** A summary that goes through, whether or not it had to look the last job up. */
  lemma SummaryMakes(s: System, o: Observation, end: CwEvent, job: Option<JobData>)
    requires HasEndedAs(s, end) && o.Summary? && ObservesSame(o, end, job)
    requires !WorkflowIsDone(s.workflows[ExecOf(end)]) && (IsFailureEvent(end.typ) ==> o.found.Success?)
    ensures var id := ExecOf(end);
            var record := UpToDate(s.workflows[id], EndOf(end.typ), o.stopDate, o.sfnOutput, Success(job));
            Observed(s, id, o) == s.(workflows := s.workflows[id := record.(lastUpdated := s.clock)])
  {
    assert IsTerminalEvent(end.typ);
    hide ExecOf, WorkflowIsDone, IsEnd;
  }

  lemma EndedIsStored(s: System, end: CwEvent)
    requires HasEndedAs(s, end)
    ensures IsEnd(end) && ExecOf(end) in s.workflows
  {
    hide IsEnd, ExecOf;
  }

  lemma {:induction false} ObservationsProgress(s: System, os: seq<Observation>, end: CwEvent, job: Option<JobData>)
    requires HasEndedAs(s, end) && forall i :: 0 <= i < |os| ==> ObservesSame(os[i], end, job)
    ensures var t := AllObserved(s, ExecOf(end), os);
            && HasEndedAs(t, end)
            && Progressed(s.workflows[ExecOf(end)], t.workflows[ExecOf(end)], end, job,
                          exists i :: 0 <= i < |os| && BringsEnd(os[i], end))
  {
    hide HasEndedAs, Progressed, ObservesSame, BringsEnd, Observed, ExecOf, IsEnd;
    EndedIsStored(s, end);
    if os == [] {
      NothingObserved(s, end, job);
    } else {
      var init, o := os[..|os| - 1], os[|os| - 1];
      ObservationsProgress(s, init, end, job);
      var was := s.workflows[ExecOf(end)];
      var ended := exists i :: 0 <= i < |init| && BringsEnd(init[i], end);
      ObservationProgresses(AllObserved(s, ExecOf(end), init), o, was, end, job, ended);
      assert (exists i :: 0 <= i < |os| && BringsEnd(os[i], end)) <==> ended || BringsEnd(o, end) by {
        if ended {
          var i :| 0 <= i < |init| && BringsEnd(init[i], end);
          assert BringsEnd(os[i], end);
        }
        if BringsEnd(o, end) {
          assert BringsEnd(os[|os| - 1], end);
        }
      }
    }
  }

  lemma NothingObserved(s: System, end: CwEvent, job: Option<JobData>)
    requires HasEndedAs(s, end)
    ensures Progressed(s.workflows[ExecOf(end)], s.workflows[ExecOf(end)], end, job, false)
  {
    hide Settled, ExecOf, IsEnd;
  }

  lemma ObservationProgresses(s: System, o: Observation, was: Workflow, end: CwEvent, job: Option<JobData>, ended: bool)
    requires HasEndedAs(s, end) && ObservesSame(o, end, job)
    requires Progressed(was, s.workflows[ExecOf(end)], end, job, ended)
    ensures var t := Observed(s, ExecOf(end), o);
            && HasEndedAs(t, end)
            && Progressed(was, t.workflows[ExecOf(end)], end, job, ended || BringsEnd(o, end))
  {
    hide HasEndedAs, Progressed, ExecOf, Delivered, Refreshed, Agrees, Settles;
    match o
    case Event(d) => EventProgresses(s, d, was, end, job, ended);
    case Summary(_, _, _) => SummaryProgresses(s, o, was, end, job, ended);
  }

  /** However the deliveries of all executions and the summaries of one that has ended are mixed, repeated or
      refused: once its end has come through, the record is what the end alone would have made of it, but
      for stop time, output and stamp. */
  lemma ObserversConverge(s: System, os: seq<Observation>, end: CwEvent, job: Option<JobData>)
    requires HasEndedAs(s, end) && forall i :: 0 <= i < |os| ==> ObservesSame(os[i], end, job)
    requires exists i :: 0 <= i < |os| && BringsEnd(os[i], end)
    ensures var t := AllObserved(s, ExecOf(end), os);
            && ExecOf(end) in t.workflows
            && SameBut(t.workflows[ExecOf(end)], Settled(s.workflows[ExecOf(end)], end, job))
  {
    ObservationsProgress(s, os, end, job);
    hide AllObserved, SameBut, Settled, ExecOf, IsEnd, BringsEnd, ObservesSame;
  }
}
