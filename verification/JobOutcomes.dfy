/** What a job's record says, stated from the history alone: which events are the job's, how they fall into
    runs, and what the record takes from the last run and from those before it. */
module JobOutcomes {
  import opened Wrappers
  import opened Strings
  import opened Replay
  import opened JobOwnership
  import opened Lifecycle

  // ---------- the events of a job ----------

  predicate BeginsJob(t: EventType) {
    t.TaskStateEntered? || t.ChoiceStateEntered? || t.SucceedStateEntered?
  }

  predicate StopsExecution(t: EventType) {
    t.ExecutionAborted? || t.ExecutionFailed? || t.ExecutionTimedOut?
  }

  /** Events that are about no job: the start of the execution, and states of other types. */
  predicate IsAside(t: EventType) {
    || t.ExecutionStarted? || t.PassStateEntered? || t.PassStateExited? || t.ParallelStateEntered?
    || t.ParallelStateExited? || t.WaitStateEntered? || t.WaitStateExited? || t.FailStateEntered?
  }

  /** Event `i` is the state entry `e`, or follows, by its previous id, an event that comes from it. */
  ghost predicate ComesFrom(events: seq<HistoryEvent>, e: nat, i: nat)
    requires i < |events|
    decreases i
  {
    if BeginsJob(events[i].typ) then e == i
    else
      && !StopsExecution(events[i].typ) && !IsAside(events[i].typ)
      && exists p :: 0 <= p < i && events[p].id == events[i].previousId && ComesFrom(events, e, p)
  }

  /** How many jobs have begun. */
  function Begun(events: seq<HistoryEvent>): nat {
    if events == [] then 0
    else Begun(events[..|events| - 1]) + if BeginsJob(events[|events| - 1].typ) then 1 else 0
  }

  /** Event `i` is one of the `k`-th job: it comes from the entry that begins it, or stops the execution when
      it is the job begun last. */
  ghost predicate IsOfJob(events: seq<HistoryEvent>, i: nat, k: nat)
    requires i < |events|
  {
    if StopsExecution(events[i].typ) then Begun(events[..i]) == k + 1
    else exists e :: 0 <= e <= i && ComesFrom(events, e, i) && Begun(events[..e]) == k
  }

  ghost function EventsOf(events: seq<HistoryEvent>, k: nat): seq<HistoryEvent> {
    if events == [] then []
    else
      var last := |events| - 1;
      EventsOf(events[..last], k) + if IsOfJob(events, last, k) then [events[last]] else []
  }

  lemma {:induction false} BegunIsEntered(events: seq<HistoryEvent>)
    ensures Begun(events) == EnteredCount(events)
  {
    if events != [] {
      BegunIsEntered(events[..|events| - 1]);
    }
  }

  lemma LatestIsIt(events: seq<HistoryEvent>, i: nat, p: nat)
    requires UniqueIds(events) && p < i < |events| && events[p].id == events[i].previousId
    ensures LatestWithId(events[..i], events[i].previousId) == p
  {
    var q := LatestWithId(events[..i], events[i].previousId);
    assert events[..i][p] == events[p];
    assert events[p].id in Ids(events[..i]);
    assert events[..i][q] == events[q];
  }

  /** The chain of previous ids leads back to the nearest entry and to no other. */
  lemma {:induction false} NearestIsWhereItComesFrom(events: seq<HistoryEvent>, e: nat, i: nat)
    requires UniqueIds(events) && i < |events|
    ensures ComesFrom(events, e, i) <==> Nearest(events, i) == Some(e)
    decreases i
  {
    if Class(events[i].typ).Linked? {
      var p := LatestWithId(events[..i], events[i].previousId);
      if p != -1 {
        NearestIsWhereItComesFrom(events, e, p);
      }
      forall q | 0 <= q < i && events[q].id == events[i].previousId ensures q == p {
        LatestIsIt(events, i, q);
      }
    }
  }

  lemma IsOfTarget(events: seq<HistoryEvent>, i: nat, k: nat)
    requires UniqueIds(events) && i < |events|
    ensures IsOfJob(events, i, k) <==> Target(events, i) == Some(k)
  {
    forall j | 0 <= j < |events| ensures Begun(events[..j]) == EnteredCount(events[..j]) {
      BegunIsEntered(events[..j]);
    }
    forall e | 0 <= e <= i ensures ComesFrom(events, e, i) <==> Nearest(events, i) == Some(e) {
      NearestIsWhereItComesFrom(events, e, i);
    }
    hide Nearest, ComesFrom, EnteredCount, Begun;
  }

  lemma {:induction false} EventsOfAreOwned(events: seq<HistoryEvent>, k: nat)
    requires UniqueIds(events)
    ensures EventsOf(events, k) == OwnedEvents(events, k)
  {
    if events != [] {
      EventsOfAreOwned(events[..|events| - 1], k);
      IsOfTarget(events, |events| - 1, k);
      hide IsOfJob, Target;
    }
  }

  // ---------- what an event says ----------

  predicate IsRunStart(t: EventType) {
    t.TaskStarted? || t.ActivityStarted? || t.LambdaFunctionStarted?
  }

  predicate IsFailure(t: EventType) {
    t.ActivityFailed? || t.LambdaFunctionFailed? || t.LambdaFunctionScheduleFailed? || t.LambdaFunctionStartFailed?
    || t.TaskSubmitFailed?
  }

  predicate IsTimeout(t: EventType) {
    t.ActivityTimedOut? || t.LambdaFunctionTimedOut? || t.TaskTimedOut?
  }

  predicate IsExit(t: EventType) {
    t.TaskStateExited? || t.ChoiceStateExited? || t.SucceedStateExited?
  }

  function StatusSaid(evt: HistoryEvent): Option<JobStatus> {
    var t := evt.typ;
    if BeginsJob(t) then Some(Created)
    else if t.TaskScheduled? || t.ActivityScheduled? || t.LambdaFunctionScheduled? then Some(Queued)
    else if IsRunStart(t) then Some(Running)
    else if IsFailure(t) || IsTimeout(t) || t.ExecutionFailed? || t.ExecutionTimedOut? then Some(Failed)
    else if t.ExecutionAborted? then Some(AbortedByUser)
    else if t.TaskSucceeded? || t.ActivitySucceeded? || t.LambdaFunctionSucceeded? || t.ExecutionSucceeded?
            || t.ChoiceStateExited? || t.SucceedStateExited? then Some(Succeeded)
    else None
  }

  /** A state that waits for no resource starts as it is entered. */
  function StartSaid(evt: HistoryEvent): Option<Time> {
    if IsRunStart(evt.typ) || evt.typ.ChoiceStateEntered? || evt.typ.SucceedStateEntered? then Some(evt.timestamp)
    else None
  }

  function StopSaid(evt: HistoryEvent): Option<Time> {
    if IsFailure(evt.typ) || IsTimeout(evt.typ) || StopsExecution(evt.typ) || IsExit(evt.typ) then
      Some(evt.timestamp)
    else None
  }

  function OutputSaid(evt: HistoryEvent): Option<string> {
    if IsExit(evt.typ) then evt.exitOutput else None
  }

  function ContainerSaid(evt: HistoryEvent): Option<string> {
    if IsRunStart(evt.typ) then evt.workerName else None
  }

  /** A failure gives the last lines of its cause and then the error; time running out is said first; an
      execution that fails on a timeout leaves the reason that its activity gave. */
  function ReasonSaid(evt: HistoryEvent): Option<string> {
    var t := evt.typ;
    var d := if evt.failure.Some? then evt.failure.value else FailureDetails("", "");
    var failed := TrimSpace(GetLastFewLines(d.cause) + "\n" + d.error);
    if IsFailure(t) then Some(failed)
    else if IsTimeout(t) then Some(TrimSpace("Job timed out" + "\n" + d.error + "\n" + GetLastFewLines(d.cause)))
    else if t.ExecutionTimedOut? then
      Some(if evt.failure.None? then "Workflow timed out"
           else TrimSpace("Workflow timed out" + "\n" + d.error + "\n" + GetLastFewLines(d.cause)))
    else if evt.failure.None? then None
    else if t.ExecutionAborted? then Some(d.cause)
    else if t.ExecutionFailed? then
      if d.error == "States.Runtime" && Contains(d.cause, "Internal Error") then Some("State resource does not exist")
      else if d.error == "States.Timeout" then None
      else Some(failed)
    else None
  }

  /** What the last event that says anything says. */
  function LastSaid<T>(run: seq<HistoryEvent>, says: HistoryEvent -> Option<T>, otherwise: T): T {
    if run == [] then otherwise
    else
      match says(run[|run| - 1])
      case Some(t) => t
      case None => LastSaid(run[..|run| - 1], says, otherwise)
  }

  // ---------- the last lines of a cause ----------

  function Newlines(s: string): nat {
    if s == [] then 0 else (if s[0] == '\n' then 1 else 0) + Newlines(s[1..])
  }

  predicate IsTailFrom(tail: string, s: string, from: nat) {
    from <= |s| && s[from..] == tail
  }

  lemma {:induction false} NewlinesAdd(a: string, b: string)
    ensures Newlines(a + b) == Newlines(a) + Newlines(b)
  {
    if a != [] {
      NewlinesAdd(a[1..], b);
      assert (a + b)[1..] == a[1..] + b;
    } else {
      assert a + b == b;
    }
  }

  lemma NewlineContained(s: string, i: nat)
    requires i < |s| && s[i] == '\n'
    ensures Contains(s, "\n")
  {
    ContainsAt(s, "\n", i);
  }

  lemma {:induction false} NoNewlines(s: string)
    requires forall i :: 0 <= i < |s| ==> s[i] != '\n'
    ensures Newlines(s) == 0
  {
    if s != [] {
      NoNewlines(s[1..]);
    }
  }

  lemma CleanHasNoNewlines(s: string)
    requires !Contains(s, "\n")
    ensures Newlines(s) == 0
  {
    forall i | 0 <= i < |s| ensures s[i] != '\n' {
      if s[i] == '\n' {
        NewlineContained(s, i);
      }
    }
    NoNewlines(s);
  }

  /** The first line, and the text after it. */
  lemma FirstLine(s: string)
    requires Contains(s, "\n")
    ensures var cut := Index(s, "\n");
            && 0 <= cut < |s| && s[cut] == '\n'
            && Split(s, "\n") == [s[..cut]] + Split(s[cut + 1..], "\n")
            && Newlines(s) == 1 + Newlines(s[cut + 1..])
  {
    var cut := Index(s, "\n");
    CleanBeforeIndex(s, "\n");
    CleanHasNoNewlines(s[..cut]);
    Recompose(s, "\n", cut);
    NewlinesAdd(s[..cut], "\n");
    NewlinesAdd(s[..cut] + "\n", s[cut + 1..]);
    assert Newlines("\n") == 1;
  }

  lemma {:induction false} LineCount(s: string)
    ensures |Split(s, "\n")| == Newlines(s) + 1
    decreases |s|
  {
    if Contains(s, "\n") {
      FirstLine(s);
      LineCount(s[Index(s, "\n") + 1..]);
    } else {
      CleanHasNoNewlines(s);
    }
  }

  lemma OneLine(s: string)
    requires |Split(s, "\n")| > 1
    ensures Contains(s, "\n")
  {
  }

  /** The lines from the `i`-th on are the end of the text, from right after a newline. */
  lemma {:induction false} LinesAreTails(s: string, i: nat) returns (from: nat)
    requires i < |Split(s, "\n")|
    ensures var tail := Join(Split(s, "\n")[i..], "\n");
            && IsTailFrom(tail, s, from) && Newlines(tail) == Newlines(s) - i
            && (if i == 0 then from == 0 else from > 0 && s[from - 1] == '\n')
    decreases |s|
  {
    hide *;
    var lines := Split(s, "\n");
    if i == 0 {
      from := 0;
      JoinOfSplit(s, "\n");
      assert lines[0..] == lines;
      AllIsTail(s);
    } else {
      OneLine(s);
      FirstLine(s);
      var cut := Index(s, "\n");
      var next := LinesAreTails(s[cut + 1..], i - 1);
      assert lines[i..] == Split(s[cut + 1..], "\n")[i - 1..];
      from := cut + 1 + next;
      TailInside(s, cut, Join(lines[i..], "\n"), next);
    }
  }

  lemma AllIsTail(s: string)
    ensures IsTailFrom(s, s, 0)
  {
  }

  lemma TailInside(s: string, cut: nat, tail: string, next: nat)
    requires cut < |s| && s[cut] == '\n' && IsTailFrom(tail, s[cut + 1..], next)
    requires next == 0 || s[cut + 1..][next - 1] == '\n'
    ensures IsTailFrom(tail, s, cut + 1 + next) && s[cut + next] == '\n'
  {
    assert s[cut + 1 + next..] == s[cut + 1..][next..];
  }

  /** A reason keeps the last three lines of the cause: all of a text of at most three, and otherwise what
      comes after its last newline but two. */
  lemma ReasonIsLastLines(rawLines: string)
    ensures var text, few := TrimSpace(rawLines), GetLastFewLines(rawLines);
            if Newlines(text) <= 2 then few == text
            else Newlines(few) == 2 && |few| < |text| && IsTailFrom(few, text, |text| - |few|)
                 && text[|text| - |few| - 1] == '\n'
  {
    var text := TrimSpace(rawLines);
    var lines := Split(text, "\n");
    var from := LinesAreTails(text, if |lines| > 3 then |lines| - 3 else 0);
    JoinOfSplit(text, "\n");
    LineCount(text);
    hide TrimSpace, Split, Join, Newlines;
  }

  // ---------- runs ----------

  /** A scheduling that finds the run before it failed begins a new run. */
  function Runs(own: seq<HistoryEvent>): seq<seq<HistoryEvent>> {
    if own == [] then []
    else
      var before, evt := Runs(own[..|own| - 1]), own[|own| - 1];
      if before == [] then [[evt]]
      else
        var last := |before| - 1;
        if StatusSaid(evt) == Some(Queued) && LastSaid(before[last], StatusSaid, Unset) == Failed then before + [[evt]]
        else before[..last] + [before[last] + [evt]]
  }

  predicate AttemptSays(attempt: JobAttempt, run: seq<HistoryEvent>) {
    && run != []
    && attempt.createdAt == run[0].timestamp
    && attempt.startedAt == LastSaid(run, StartSaid, ZERO_TIME)
    && attempt.stoppedAt == LastSaid(run, StopSaid, ZERO_TIME)
    && attempt.taskARN == LastSaid(run, ContainerSaid, "")
    && attempt.reason == LastSaid(run, ReasonSaid, "")
  }

  predicate JobSays(job: JobData, run: seq<HistoryEvent>) {
    && run != []
    && job.id == Itoa(run[0].id)
    && job.createdAt == run[0].timestamp
    && job.status == LastSaid(run, StatusSaid, Unset)
    && job.startedAt == LastSaid(run, StartSaid, ZERO_TIME)
    && job.stoppedAt == LastSaid(run, StopSaid, ZERO_TIME)
    && job.container == LastSaid(run, ContainerSaid, "")
    && job.statusReason == LastSaid(run, ReasonSaid, "")
    && job.output == LastSaid(run, OutputSaid, "")
  }

  /** The job is about the state that was entered, with its input and what its resource stands for. */
  predicate IsAbout(job: JobData, entry: HistoryEvent, ctx: Context, since: Time) {
    match entry.entered
    case None => job.state == "" && job.input == "" && job.resource == None
    case Some(details) =>
      && job.state == details.name && job.input == details.input && job.resource.Some?
      && var r := job.resource.value;
      && r.namespace == ctx.namespace && r.lastUpdated == since
      && if details.name !in ctx.resources then r.name == "" && r.typ == UnknownResource
         else
           var resource := ctx.resources[details.name];
           if |resource| >= 7 && resource[..7] == "lambda:" then r.name == resource[7..] && r.typ == LambdaFunctionARN
           else if |resource| >= 5 && resource[..5] == "glue:" then r.name == resource[5..] && r.typ == TaskARN
           else r.name == resource && r.typ == ActivityARN
  }

  /** The record of a job is its last run, and its attempts are the runs before, each as it was. */
  ghost predicate TellsRuns(job: JobData, own: seq<HistoryEvent>, ctx: Context) {
    var runs := Runs(own);
    && runs != [] && |job.attempts| == |runs| - 1
    && (forall a :: 0 <= a < |job.attempts| ==> AttemptSays(job.attempts[a], runs[a]))
    && JobSays(job, runs[|runs| - 1])
    && IsAbout(job, own[0], ctx, job.createdAt)
  }

  lemma SaidAfter<T>(run: seq<HistoryEvent>, evt: HistoryEvent, says: HistoryEvent -> Option<T>, otherwise: T)
    ensures LastSaid(run + [evt], says, otherwise)
         == if says(evt).Some? then says(evt).value else LastSaid(run, says, otherwise)
  {
    assert (run + [evt])[..|run + [evt]| - 1] == run;
  }

  lemma AllSaidAfter(run: seq<HistoryEvent>, evt: HistoryEvent)
    ensures var now := run + [evt];
            && LastSaid(now, StatusSaid, Unset) == OrElse(StatusSaid(evt), LastSaid(run, StatusSaid, Unset))
            && LastSaid(now, StartSaid, ZERO_TIME) == OrElse(StartSaid(evt), LastSaid(run, StartSaid, ZERO_TIME))
            && LastSaid(now, StopSaid, ZERO_TIME) == OrElse(StopSaid(evt), LastSaid(run, StopSaid, ZERO_TIME))
            && LastSaid(now, ContainerSaid, "") == OrElse(ContainerSaid(evt), LastSaid(run, ContainerSaid, ""))
            && LastSaid(now, ReasonSaid, "") == OrElse(ReasonSaid(evt), LastSaid(run, ReasonSaid, ""))
            && LastSaid(now, OutputSaid, "") == OrElse(OutputSaid(evt), LastSaid(run, OutputSaid, ""))
  {
    hide *;
    OrElseMeans(StatusSaid(evt), LastSaid(run, StatusSaid, Unset));
    OrElseMeans(StartSaid(evt), LastSaid(run, StartSaid, ZERO_TIME));
    OrElseMeans(StopSaid(evt), LastSaid(run, StopSaid, ZERO_TIME));
    OrElseMeans(ContainerSaid(evt), LastSaid(run, ContainerSaid, ""));
    OrElseMeans(ReasonSaid(evt), LastSaid(run, ReasonSaid, ""));
    OrElseMeans(OutputSaid(evt), LastSaid(run, OutputSaid, ""));
    SaidAfter(run, evt, StatusSaid, Unset);
    SaidAfter(run, evt, StartSaid, ZERO_TIME);
    SaidAfter(run, evt, StopSaid, ZERO_TIME);
    SaidAfter(run, evt, ContainerSaid, "");
    SaidAfter(run, evt, ReasonSaid, "");
    SaidAfter(run, evt, OutputSaid, "");
  }

  function OrElse<T>(o: Option<T>, otherwise: T): T {
    if o.Some? then o.value else otherwise
  }

  lemma OrElseMeans<T>(o: Option<T>, otherwise: T)
    ensures OrElse(o, otherwise) == if o.Some? then o.value else otherwise
  {
  }

  lemma ResourceIsAbout(evt: HistoryEvent, ctx: Context)
    ensures IsAbout(EnterState(EMPTY_JOB, evt, ctx), evt, ctx, evt.timestamp)
  {
    hide Itoa;
  }

  /** The first event of a job. */
  lemma EntryTellsRun(evt: HistoryEvent, ctx: Context)
    requires BeginsJob(evt.typ)
    ensures TellsRuns(ApplyEvent(EMPTY_JOB, evt, ctx), [evt], ctx)
  {
    ResourceIsAbout(evt, ctx);
    EntrySays(evt, ctx);
    assert [evt][..0] == [];
    assert Runs([evt]) == [[evt]];
    hide Itoa, IsAbout, ResourceOf, Runs, JobSays;
  }

  lemma EntrySays(evt: HistoryEvent, ctx: Context)
    requires BeginsJob(evt.typ)
    ensures JobSays(ApplyEvent(EMPTY_JOB, evt, ctx), [evt])
  {
    AllSaidAfter([], evt);
    NothingSaid();
    assert [] + [evt] == [evt];
    hide LastSaid, Itoa, ResourceOf, TrimSpace, GetLastFewLines, Contains;
  }

  /** An event that does not begin a job goes into the last run, or begins the next one. */
  lemma EventGoesOn(job: JobData, run: seq<HistoryEvent>, evt: HistoryEvent, ctx: Context)
    requires JobSays(job, run) && !BeginsJob(evt.typ)
    requires !(StatusSaid(evt) == Some(Queued) && job.status == Failed)
    ensures JobSays(ApplyEvent(job, evt, ctx), run + [evt])
    ensures ApplyEvent(job, evt, ctx).attempts == job.attempts
    ensures var now := ApplyEvent(job, evt, ctx);
            && now.state == job.state && now.input == job.input && now.resource == job.resource
            && now.createdAt == job.createdAt
  {
    AllSaidAfter(run, evt);
    hide LastSaid, Itoa, TrimSpace, GetLastFewLines, Contains, Join, Split;
    assert TimeoutReason(JOB_TIMED_OUT, FailureOf(evt)) == ReasonAsSaid(JOB_TIMED_OUT, FailureOf(evt));
    assert TimeoutReason(WORKFLOW_TIMED_OUT, FailureOf(evt)) == ReasonAsSaid(WORKFLOW_TIMED_OUT, FailureOf(evt));
  }

  function ReasonAsSaid(prefix: string, d: FailureDetails): string {
    TrimSpace(prefix + "\n" + d.error + "\n" + GetLastFewLines(d.cause))
  }

  lemma RetryBeginsRun(job: JobData, run: seq<HistoryEvent>, evt: HistoryEvent, ctx: Context)
    requires JobSays(job, run) && StatusSaid(evt) == Some(Queued) && job.status == Failed
    ensures var now := ApplyEvent(job, evt, ctx);
            && JobSays(now, [evt])
            && |now.attempts| == |job.attempts| + 1 && now.attempts[..|job.attempts|] == job.attempts
            && AttemptSays(now.attempts[|job.attempts|], run)
            && now.state == job.state && now.input == job.input
            && now.resource == (match job.resource
                                case None => None
                                case Some(r) => Some(r.(lastUpdated := evt.timestamp)))
            && now.createdAt == evt.timestamp
  {
    AllSaidAfter([], evt);
    assert [] + [evt] == [evt];
    hide LastSaid, Itoa;
    NothingSaid();
  }

  lemma NothingSaid()
    ensures LastSaid([], StatusSaid, Unset) == Unset && LastSaid([], StartSaid, ZERO_TIME) == ZERO_TIME
    ensures LastSaid([], StopSaid, ZERO_TIME) == ZERO_TIME && LastSaid([], ContainerSaid, "") == ""
    ensures LastSaid([], ReasonSaid, "") == "" && LastSaid([], OutputSaid, "") == ""
  {
  }

  lemma {:induction false} FoldTellsRuns(own: seq<HistoryEvent>, ctx: Context)
    requires IsJobTrail(own)
    ensures TellsRuns(JobOf(own, ctx), own, ctx)
  {
    hide TellsRuns, ApplyEvent;
    var init, evt := own[..|own| - 1], own[|own| - 1];
    if init == [] {
      assert own == [evt];
      EntryTellsRun(evt, ctx);
    } else {
      assert IsJobTrail(init);
      FoldTellsRuns(init, ctx);
      NextTellsRuns(JobOf(init, ctx), init, evt, ctx);
      assert init + [evt] == own;
    }
  }

  lemma RunsAfter(init: seq<HistoryEvent>, evt: HistoryEvent)
    requires Runs(init) != []
    ensures var before := Runs(init);
            var last := |before| - 1;
            Runs(init + [evt])
            == if StatusSaid(evt) == Some(Queued) && LastSaid(before[last], StatusSaid, Unset) == Failed then
                 before + [[evt]]
               else before[..last] + [before[last] + [evt]]
  {
    assert (init + [evt])[..|init + [evt]| - 1] == init;
  }

  lemma AboutStill(job: JobData, now: JobData, entry: HistoryEvent, ctx: Context, before: Time, since: Time)
    requires IsAbout(job, entry, ctx, before) && now.state == job.state && now.input == job.input
    requires now.resource == (match job.resource
                              case None => None
                              case Some(r) => Some(r.(lastUpdated := since)))
    ensures IsAbout(now, entry, ctx, since)
  {
  }

  lemma AboutSince(job: JobData, entry: HistoryEvent, ctx: Context, since: Time)
    requires IsAbout(job, entry, ctx, since) && job.resource.Some?
    ensures job.resource.value.(lastUpdated := since) == job.resource.value
  {
  }

  lemma NextTellsRuns(job: JobData, init: seq<HistoryEvent>, evt: HistoryEvent, ctx: Context)
    requires init != [] && TellsRuns(job, init, ctx) && !BeginsJob(evt.typ)
    ensures TellsRuns(ApplyEvent(job, evt, ctx), init + [evt], ctx)
  {
    hide ApplyEvent, JobSays, AttemptSays, StatusSaid, LastSaid, Runs, IsAbout;
    var runs := Runs(init);
    var last := runs[|runs| - 1];
    RunsAfter(init, evt);
    StatusIsSaid(job, last);
    if StatusSaid(evt) == Some(Queued) && job.status == Failed {
      RetryBeginsRun(job, last, evt, ctx);
    } else {
      EventGoesOn(job, last, evt, ctx);
      if job.resource.Some? {
        AboutSince(job, init[0], ctx, job.createdAt);
      }
    }
    var now := ApplyEvent(job, evt, ctx);
    AboutStill(job, now, init[0], ctx, job.createdAt, now.createdAt);
  }

  lemma StatusIsSaid(job: JobData, run: seq<HistoryEvent>)
    requires JobSays(job, run)
    ensures job.status == LastSaid(run, StatusSaid, Unset)
  {
    hide LastSaid;
  }

  /** After any history, and from the events alone: there is one job for each entry of a Task, Choice or
      Succeed state, in order; its record says what the last run of its own events says, its attempts are
      its failed runs before, each as it was, and it is about the state that was entered. */
  lemma JobsTellTheirRuns(events: seq<HistoryEvent>, ctx: Context)
    requires UniqueIds(events)
    ensures var jobs := Run(FRESH, events, ctx).jobs;
            && |jobs| == Begun(events)
            && forall k :: 0 <= k < |jobs| ==> EventsOf(events, k) != [] && TellsRuns(jobs[k], EventsOf(events, k), ctx)
  {
    JobIsFoldOfOwnEvents(events, ctx);
    BegunIsEntered(events);
    hide Run, TellsRuns, Begun, EnteredCount;
    forall k: nat | k < Begun(events)
      ensures EventsOf(events, k) != []
      ensures TellsRuns(JobOf(OwnedEvents(events, k), ctx), EventsOf(events, k), ctx)
    {
      EventsOfAreOwned(events, k);
      OwnedEventsShape(events, k);
      FoldTellsRuns(OwnedEvents(events, k), ctx);
    }
  }

  // ---------- jobs that have started, and jobs that are done ----------

  /** The last of the job's events that says a status. */
  ghost predicate SpeaksLast(own: seq<HistoryEvent>, i: nat) {
    && i < |own| && StatusSaid(own[i]).Some?
    && forall j :: i < j < |own| ==> StatusSaid(own[j]).None?
  }

  lemma {:induction false} LastStatusIsSaid(own: seq<HistoryEvent>, ctx: Context, i: nat)
    requires IsJobTrail(own) && SpeaksLast(own, i)
    ensures StatusSaid(own[i]) == Some(JobOf(own, ctx).status)
    decreases |own|
  {
    var init, evt := own[..|own| - 1], own[|own| - 1];
    EventSaysStatus(JobOf(init, ctx), evt, ctx);
    if i < |own| - 1 {
      hide ApplyEvent, StatusSaid;
      LastStatusIsSaid(init, ctx, i);
    }
  }

  lemma EventSaysStatus(job: JobData, evt: HistoryEvent, ctx: Context)
    ensures ApplyEvent(job, evt, ctx).status == if StatusSaid(evt).Some? then StatusSaid(evt).value else job.status
  {
  }

  /** Seen from its events, a job has started if the last of them that says a status is no entry and no
      scheduling, and is done if it is no start of a run either. */
  lemma StartedAndDone(events: seq<HistoryEvent>, ctx: Context, k: nat, i: nat)
    requires UniqueIds(events) && k < Begun(events) && SpeaksLast(EventsOf(events, k), i)
    ensures var jobs := Run(FRESH, events, ctx).jobs;
            var t := EventsOf(events, k)[i].typ;
            var waits := BeginsJob(t) || t.TaskScheduled? || t.ActivityScheduled? || t.LambdaFunctionScheduled?;
            && k < |jobs|
            && (HasJobStarted(jobs[k].status) <==> !waits)
            && (JobIsDone(jobs[k].status) <==> !waits && !IsRunStart(t))
  {
    JobIsFoldOfOwnEvents(events, ctx);
    BegunIsEntered(events);
    EventsOfAreOwned(events, k);
    OwnedEventsShape(events, k);
    hide EventsOf, OwnedEvents, Run, Begun, EnteredCount, JobOf;
    LastStatusIsSaid(OwnedEvents(events, k), ctx, i);
  }

  // ---------- the shape of the runs ----------

  function Together(runs: seq<seq<HistoryEvent>>): seq<HistoryEvent> {
    if runs == [] then [] else Together(runs[..|runs| - 1]) + runs[|runs| - 1]
  }

  /** Run `r` begins with a scheduling, and the run before it failed. */
  predicate IsRetry(runs: seq<seq<HistoryEvent>>, r: nat)
    requires 0 < r < |runs|
  {
    runs[r] != [] && StatusSaid(runs[r][0]) == Some(Queued) && LastSaid(runs[r - 1], StatusSaid, Unset) == Failed
  }

  lemma GrownRuns(before: seq<seq<HistoryEvent>>, evt: HistoryEvent)
    requires before != [] && (forall r :: 0 <= r < |before| ==> before[r] != [])
    requires forall r :: 0 < r < |before| ==> IsRetry(before, r)
    ensures var last := |before| - 1;
            var now := before[..last] + [before[last] + [evt]];
            && Together(now) == Together(before) + [evt]
            && (forall r :: 0 <= r < |now| ==> now[r] != [])
            && forall r :: 0 < r < |now| ==> IsRetry(now, r)
  {
    hide StatusSaid, LastSaid;
    var last := |before| - 1;
    var now := before[..last] + [before[last] + [evt]];
    assert now[..|now| - 1] == before[..last];
    forall r | 0 < r < |now| ensures IsRetry(now, r) {
      assert IsRetry(before, r);
    }
  }

  lemma MoreRuns(before: seq<seq<HistoryEvent>>, evt: HistoryEvent)
    requires before != [] && (forall r :: 0 <= r < |before| ==> before[r] != [])
    requires forall r :: 0 < r < |before| ==> IsRetry(before, r)
    requires StatusSaid(evt) == Some(Queued) && LastSaid(before[|before| - 1], StatusSaid, Unset) == Failed
    ensures var now := before + [[evt]];
            && Together(now) == Together(before) + [evt]
            && (forall r :: 0 <= r < |now| ==> now[r] != [])
            && forall r :: 0 < r < |now| ==> IsRetry(now, r)
  {
    hide StatusSaid, LastSaid;
    var now := before + [[evt]];
    assert now[..|now| - 1] == before;
    forall r | 0 < r < |now| ensures IsRetry(now, r) {
      assert r < |before| ==> IsRetry(before, r);
    }
  }

  /** The runs are the job's events, cut where a scheduling comes after a failure. */
  lemma {:induction false} RunsAreCutAtFailures(own: seq<HistoryEvent>)
    ensures var runs := Runs(own);
            && Together(runs) == own
            && (forall r :: 0 <= r < |runs| ==> runs[r] != [])
            && forall r :: 0 < r < |runs| ==> IsRetry(runs, r)
  {
    if own != [] {
      var init, evt := own[..|own| - 1], own[|own| - 1];
      RunsAreCutAtFailures(init);
      var before := Runs(init);
      hide StatusSaid, LastSaid, IsRetry;
      if before == [] {
        assert [[evt]][..0] == [];
        assert Together([[evt]]) == Together([]) + [evt];
      } else {
        var last := |before| - 1;
        if StatusSaid(evt) == Some(Queued) && LastSaid(before[last], StatusSaid, Unset) == Failed {
          MoreRuns(before, evt);
        } else {
          GrownRuns(before, evt);
        }
      }
    }
  }
}
