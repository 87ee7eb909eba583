/** The replay as the source writes it: job objects that several event ids share and that a retry
    rewrites in place, a map that lives across the pages of one history, and a list of jobs that each
    call starts anew (`wfupdater`, and the paging of `UpdateWorkflowHistory`). */
module ProcessEvents {
  import opened Wrappers
  import opened Strings
  import opened Replay
  import PagedReplay
  import SuffixReplay

  /** A `*models.Job`: several event ids and the list of jobs can refer to one object. */
  class Job {
    var data: JobData

    constructor ()
      ensures data == EMPTY_JOB
    {
      data := EMPTY_JOB;
    }

    method Enter(evt: HistoryEvent, ctx: Context)
      modifies this
      ensures data == EnterState(old(data), evt, ctx)
    {
      data := data.(id := Itoa(evt.id));
      data := data.(attempts := []);
      data := data.(createdAt := evt.timestamp);
      if !evt.typ.TaskStateEntered? {
        data := data.(startedAt := data.createdAt);
      }
      data := data.(status := Created);
      if evt.entered.Some? {
        var details := evt.entered.value;
        data := data.(input := details.input, state := details.name);
        data := data.(resource := Some(ResourceOf(details.name, ctx, evt.timestamp)));
      }
    }

    /** Copies the failed run into the attempts and re-initialises the job in place. */
    method Retry(evt: HistoryEvent)
      requires data.resource.Some?
      modifies this
      ensures data == Retried(old(data), evt)
    {
      var oldJob := data;
      data := EMPTY_JOB;
      data := data.(id := Itoa(evt.id));
      data := data.(attempts := oldJob.attempts
        + [JobAttempt(oldJob.statusReason, oldJob.createdAt, oldJob.startedAt, oldJob.stoppedAt, oldJob.container)]);
      data := data.(createdAt := evt.timestamp);
      data := data.(input := oldJob.input);
      data := data.(state := oldJob.state);
      var r := oldJob.resource.value;
      data := data.(resource := Some(StateResource(r.name, r.typ, r.namespace, evt.timestamp)));
    }

    /** The `switch` of `ProcessEvents`. */
    method Update(evt: HistoryEvent, ctx: Context)
      requires HasDetails(evt)
      requires IsScheduled(evt.typ) && data.status.Failed? ==> data.resource.Some?
      modifies this
      ensures data == ApplyEvent(old(data), evt, ctx)
    {
      hide EnterState, Retried, FailureReason, TimeoutReason, ExecutionFailedReason;
      match evt.typ
      case TaskStateEntered | ChoiceStateEntered | SucceedStateEntered =>
        Enter(evt, ctx);
      case TaskScheduled | ActivityScheduled | LambdaFunctionScheduled =>
        if data.status == Failed {
          Retry(evt);
        }
        data := data.(status := Queued);
      case TaskStarted | ActivityStarted | LambdaFunctionStarted =>
        data := data.(status := Running);
        data := data.(startedAt := evt.timestamp);
        if evt.workerName.Some? {
          data := data.(container := evt.workerName.value);
        }
      case ActivityFailed | LambdaFunctionFailed | LambdaFunctionScheduleFailed | LambdaFunctionStartFailed
         | TaskSubmitFailed =>
        data := data.(status := Failed);
        data := data.(stoppedAt := evt.timestamp);
        data := data.(statusReason := FailureReason(evt.failure.value));
      case ActivityTimedOut | LambdaFunctionTimedOut | TaskTimedOut =>
        data := data.(status := Failed);
        data := data.(stoppedAt := evt.timestamp);
        data := data.(statusReason := TimeoutReason(JOB_TIMED_OUT, evt.failure.value));
      case TaskSucceeded | ActivitySucceeded | ExecutionSucceeded | LambdaFunctionSucceeded =>
        data := data.(status := Succeeded);
      case ExecutionAborted =>
        data := data.(status := AbortedByUser);
        data := data.(stoppedAt := evt.timestamp);
        if evt.failure.Some? {
          data := data.(statusReason := evt.failure.value.cause);
        }
      case ExecutionFailed =>
        data := data.(status := Failed);
        data := data.(stoppedAt := evt.timestamp);
        if evt.failure.Some? {
          data := data.(statusReason := ExecutionFailedReason(data.statusReason, evt.failure.value));
        }
      case ExecutionTimedOut =>
        data := data.(status := Failed);
        data := data.(stoppedAt := evt.timestamp);
        if evt.failure.Some? {
          data := data.(statusReason := TimeoutReason(WORKFLOW_TIMED_OUT, evt.failure.value));
        } else {
          data := data.(statusReason := WORKFLOW_TIMED_OUT);
        }
      case TaskStateExited =>
        data := data.(stoppedAt := evt.timestamp);
        if evt.exitOutput.Some? {
          data := data.(output := evt.exitOutput.value);
        }
      case ChoiceStateExited | SucceedStateExited =>
        data := data.(status := Succeeded);
        data := data.(stoppedAt := evt.timestamp);
        if evt.exitOutput.Some? {
          data := data.(output := evt.exitOutput.value);
        }
      case _ =>
    }
  }

  ghost function DataOf(jobs: seq<Job>): (data: seq<JobData>)
    reads jobs
    ensures |data| == |jobs| && forall i :: 0 <= i < |jobs| ==> data[i] == jobs[i].data
  {
    seq(|jobs|, i requires 0 <= i < |jobs| reads jobs => jobs[i].data)
  }

  /** The map from event ids to jobs that the calls for one history share. */
  class EventIndex {
    var jobOf: map<int, Job>
    ghost var created: seq<Job>
    ghost var owner: map<int, nat>

    ghost predicate Valid()
      reads this
    {
      && (forall i, j :: 0 <= i < j < |created| ==> created[i] != created[j])
      && owner.Keys == jobOf.Keys
      && forall id :: id in owner ==> owner[id] < |created| && jobOf[id] == created[owner[id]]
    }

    /** What the replay knows, seen from a page whose first job has number `pageStart`. */
    ghost function View(pageStart: nat): State
      reads this, created
    {
      State(DataOf(created), owner, pageStart)
    }

    constructor ()
      ensures Valid() && View(0) == FRESH && created == []
    {
      jobOf, created, owner := map[], [], map[];
    }

    /** Every job can be retried: it knows its resource. */
    ghost predicate Resourced()
      reads this, created
    {
      forall i :: 0 <= i < |created| ==> created[i].data.resource.Some?
    }
  }

  /** The number of the job that `eventToJob` returns, if any. */
  ghost function FoundJob(st: State, evt: HistoryEvent): Option<nat>
    requires Replay.Valid(st)
  {
    match Class(evt.typ)
    case Ignored => None
    case Entered => Some(|st.jobs|)
    case ExecutionLevel => if |st.jobs| > st.pageStart then Some(|st.jobs| - 1) else None
    case Linked => if evt.previousId in st.owner then Some(st.owner[evt.previousId]) else None
  }

  /** What `eventToJob` leaves behind: a new empty job, or one more id for an old job. */
  ghost function Linked(st: State, evt: HistoryEvent): State
    requires Replay.Valid(st)
  {
    match Class(evt.typ)
    case Entered => st.(jobs := st.jobs + [EMPTY_JOB], owner := st.owner[evt.id := |st.jobs|])
    case Linked => if evt.previousId in st.owner then st.(owner := st.owner[evt.id := st.owner[evt.previousId]]) else st
    case _ => st
  }

  lemma StepIsLinkThenUpdate(st: State, evt: HistoryEvent, ctx: Context)
    requires Replay.Valid(st)
    ensures var linked := Linked(st, evt);
            match FoundJob(st, evt)
            case None => Step(st, evt, ctx) == linked
            case Some(k) =>
              && k < |linked.jobs|
              && Step(st, evt, ctx) == linked.(jobs := linked.jobs[k := ApplyEvent(linked.jobs[k], evt, ctx)])
  {
    hide ApplyEvent;
  }

  /** Finds or creates the job that an event is about; `jobs` are those of the current page, the first
      of which has number `n`. */
  method EventToJob(evt: HistoryEvent, jobs: seq<Job>, index: EventIndex, ghost n: nat) returns (job: Job?)
    requires index.Valid() && n <= |index.created| && jobs == index.created[n..]
    modifies index
    ensures index.Valid() && old(index.created) <= index.created
    ensures Replay.Valid(old(index.View(n))) && index.View(n) == Linked(old(index.View(n)), evt)
    ensures match FoundJob(old(index.View(n)), evt)
            case None => job == null
            case Some(k) => k < |index.created| && job == index.created[k]
    ensures Class(evt.typ).Entered? ==> job != null && fresh(job) && index.created == old(index.created) + [job]
    ensures !Class(evt.typ).Entered? ==> index.created == old(index.created)
  {
    match Class(evt.typ)
    case Ignored =>
      job := null;
    case Entered =>
      job := new Job();
      index.jobOf := index.jobOf[evt.id := job];
      index.owner := index.owner[evt.id := |index.created|];
      index.created := index.created + [job];
    case ExecutionLevel =>
      if |jobs| > 0 {
        job := jobs[|jobs| - 1];
      } else {
        job := null;
      }
    case Linked =>
      if evt.previousId !in index.jobOf {
        job := null;
      } else {
        job := index.jobOf[evt.previousId];
        index.jobOf := index.jobOf[evt.id := job];
        index.owner := index.owner[evt.id := index.owner[evt.previousId]];
      }
  }

  predicate IsSupportedStateEnteredEvent(evt: HistoryEvent) {
    match evt.typ
    case TaskStateEntered | ChoiceStateEntered | SucceedStateEntered => true
    case _ => false
  }

  /** Updates one of the created jobs in place; the others keep their data. */
  method UpdateCreated(index: EventIndex, ghost k: nat, job: Job, evt: HistoryEvent, ctx: Context)
    requires index.Valid() && k < |index.created| && job == index.created[k]
    requires HasDetails(evt)
    requires IsScheduled(evt.typ) && job.data.status.Failed? ==> job.data.resource.Some?
    modifies job
    ensures DataOf(index.created) == old(DataOf(index.created))[k := ApplyEvent(old(job.data), evt, ctx)]
  {
    job.Update(evt, ctx);
  }

  lemma KeepsResource(job: JobData, evt: HistoryEvent, ctx: Context)
    requires HasDetails(evt)
    requires job.resource.Some? || Class(evt.typ).Entered?
    ensures ApplyEvent(job, evt, ctx).resource.Some?
  {
  }

  /** The body of the loop of `ProcessEvents`; `n` is the number of the page's first job. */
  method ProcessEvent(evt: HistoryEvent, jobs: seq<Job>, ctx: Context, index: EventIndex, ghost n: nat)
    returns (jobs': seq<Job>)
    requires index.Valid() && index.Resourced() && HasDetails(evt)
    requires n <= |index.created| && jobs == index.created[n..]
    modifies index, index.created
    ensures index.Valid() && index.Resourced()
    ensures old(index.created) <= index.created && fresh(index.created[|old(index.created)|..])
    ensures jobs' == index.created[n..]
    ensures Replay.Valid(old(index.View(n))) && index.View(n) == Step(old(index.View(n)), evt, ctx)
  {
    hide ApplyEvent;
    ghost var before := index.View(n);
    StepIsLinkThenUpdate(before, evt, ctx);
    hide Step;
    var job := EventToJob(evt, jobs, index, n);
    jobs' := if IsSupportedStateEnteredEvent(evt) then jobs + [job] else jobs;
    if job != null {
      ghost var k := FoundJob(before, evt).value;
      KeepsResource(job.data, evt, ctx);
      UpdateCreated(index, k, job, evt, ctx);
    }
  }

  /** The call replays its page: the shared state afterwards is the fold of the page over the state
      before, and the jobs returned are the objects created in this call, in order. */
  method ProcessEvents(events: seq<HistoryEvent>, ctx: Context, index: EventIndex) returns (jobs: seq<Job>)
    requires index.Valid() && index.Resourced()
    requires forall i :: 0 <= i < |events| ==> HasDetails(events[i])
    modifies index, index.created
    ensures index.Valid() && index.Resourced()
    ensures old(index.created) <= index.created && fresh(index.created[|old(index.created)|..])
    ensures jobs == index.created[|old(index.created)|..]
    ensures Replay.Valid(old(index.View(|index.created|)))
    ensures index.View(|old(index.created)|) == Run(old(index.View(|index.created|)), events, ctx)
  {
    hide ApplyEvent;
    hide Step;
    jobs := [];
    ghost var n := |index.created|;
    ghost var start := index.View(n);
    assert events[..0] == [];
    for i := 0 to |events|
      invariant index.Valid() && index.Resourced()
      invariant old(index.created) <= index.created && fresh(index.created[n..])
      invariant jobs == index.created[n..]
      invariant index.View(n) == Run(start, events[..i], ctx)
    {
      assert events[..i + 1][..i] == events[..i];
      ghost var before := index.created;
      jobs := ProcessEvent(events[i], jobs, ctx, index, n);
      assert index.created[n..] == before[n..] + index.created[|before|..];
    }
    assert events[..|events|] == events;
  }
}
