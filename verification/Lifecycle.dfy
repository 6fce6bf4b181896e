/** What every run of job-store calls keeps. */
module Lifecycle {
  import opened Results
  import opened JsonValues
  import opened EventLog
  import opened Jobs

  datatype Call =
    | Submit(job: Job, eventId: string)
    | Transition(id: string, to: JobStatus, expected: set<JobStatus>, reason: Option<string>, now: int)
    | Fail(id: string, expected: set<JobStatus>, code: string, message: string, now: int)
    | SetError(id: string, detail: Option<string>)
    | Launch(batch: seq<Rank>)
    | StoreEvent(event: Event)
    | SetRankStatus(id: string, rankTo: RankStatus, rankExpected: set<RankStatus>, reason: Option<string>, now: int)

  /**
   One committed or rolled-back call.  The events table is shared: the event log
   and the plan store write to it too, which is a StoreEvent here.
   */
  function Next(store: Store, call: Call): Store {
    match call
    case Submit(job, eventId) => (match SubmitJob(store, job, eventId) case Ok(s) => s case Err(_) => store)
    case Transition(id, to, expected, reason, now) => TransitionJob(store, id, to, expected, reason, now)
    case Fail(id, expected, code, message, now) => FailJob(store, id, expected, code, message, now)
    case SetError(id, detail) => SetJobError(store, id, detail)
    case Launch(batch) =>
      (match LaunchRanks(store.jobs, store.ranks, batch) case Ok(ranks) => store.(ranks := ranks) case Err(_) => store)
    case StoreEvent(event) =>
      if event.eventId in store.events then store else store.(events := store.events[event.eventId := event])
    case SetRankStatus(id, to, expected, reason, now) => SetRank(store, id, to, expected, reason, now)
  }

  function Run(store: Store, calls: seq<Call>): Store
    decreases |calls|
  {
    if calls == [] then store else Run(Next(store, calls[0]), calls[1..])
  }

  /** What a call does to the tables, column by column; where nothing is said of a table, it stays. */
  lemma {:induction false} CallsMean(store: Store, call: Call)
    ensures
      var after := Next(store, call);
      match call
      case Submit(job, eventId) =>
        if job.jobId in store.jobs || eventId in store.events then after == store
        else
          && after.jobs == store.jobs[job.jobId := job] && after.ranks == store.ranks
          && eventId in after.events && after.events == store.events[eventId := after.events[eventId]]
          && AnnouncesJob(after.events[eventId], eventId, job)
      case Transition(id, to, expected, reason, now) =>
        if id !in store.jobs || store.jobs[id].status !in expected then after == store
        else
          var job := store.jobs[id];
          after == store.(jobs := store.jobs[id :=
            job.(status := to,
                 errorMessage := if to == Running then None else job.errorMessage,
                 finishedAt := if to == Finished then Some(now) else job.finishedAt,
                 finishReason := if to == Finished then reason else job.finishReason)])
      case Fail(id, expected, code, message, now) =>
        if id !in store.jobs || store.jobs[id].status !in expected then after == store
        else
          after == store.(jobs := store.jobs[id :=
            store.jobs[id].(status := Finished, finishReason := Some(code), errorMessage := Some(message),
                            finishedAt := Some(now))])
      case SetError(id, detail) =>
        if id !in store.jobs then after == store
        else after == store.(jobs := store.jobs[id := store.jobs[id].(errorMessage := detail)])
      case Launch(batch) => after == store.(ranks := after.ranks)
      case StoreEvent(event) =>
        if event.eventId in store.events then after == store
        else after == store.(events := store.events[event.eventId := event])
      case SetRankStatus(id, to, expected, reason, now) =>
        if id !in store.ranks || store.ranks[id].status !in expected then after == store
        else
          after == store.(ranks := store.ranks[id :=
            store.ranks[id].(status := to, reasonCode := reason, updatedAt := now)])
  {
    if call.Submit? { SubmittedAnnounces(call.eventId, call.job); }
  }

  /** A run is its calls, one after the other. */
  lemma {:induction false} RunSnoc(store: Store, calls: seq<Call>, call: Call)
    ensures Run(store, []) == store
    ensures Run(store, calls + [call]) == Next(Run(store, calls), call)
    decreases |calls|
  {
    var all := calls + [call];
    if calls == [] {
      assert all[1..] == [];
    } else {
      assert all[0] == calls[0] && all[1..] == calls[1..] + [call];
      RunSnoc(Next(store, calls[0]), calls[1..], call);
    }
  }

  /** Jobs are submitted as the lifecycle starts them, and no caller expects FINISHED. */
  predicate Disciplined(call: Call) {
    match call
    case Submit(job, _) => job.status == Waiting && job.finishReason == None && job.finishedAt == None
    case Transition(_, _, expected, _, _) => Finished !in expected
    case Fail(_, expected, _, _, _) => Finished !in expected
    case _ => true
  }

  predicate LifecycleOk(job: Job) {
    && (job.finishedAt.Some? <==> job.status == Finished)
    && (job.finishReason.Some? ==> job.status == Finished)
  }

  ghost predicate AllLifecyclesOk(store: Store) {
    forall id | id in store.jobs :: LifecycleOk(store.jobs[id])
  }

  lemma StepStaysOk(store: Store, call: Call)
    requires AllLifecyclesOk(store) && Disciplined(call)
    ensures AllLifecyclesOk(Next(store, call))
  {
  }

  /** finished_at is set exactly in FINISHED and finish_reason only there, at every point of a disciplined run. */
  lemma {:induction false} LifecyclesStayOk(store: Store, calls: seq<Call>)
    requires AllLifecyclesOk(store)
    requires forall i | 0 <= i < |calls| :: Disciplined(calls[i])
    ensures AllLifecyclesOk(Run(store, calls))
    ensures forall id | id in Run(store, calls).jobs ::
      var job := Run(store, calls).jobs[id];
      (job.finishedAt.Some? <==> job.status == Finished) && (job.finishReason.Some? ==> job.status == Finished)
    decreases |calls|
  {
    if calls != [] {
      StepStaysOk(store, calls[0]);
      LifecyclesStayOk(Next(store, calls[0]), calls[1..]);
    }
  }

  /** The fields that say how and when a job ended. */
  function Ending(job: Job): (JobStatus, Option<string>, Option<int>) {
    (job.status, job.finishReason, job.finishedAt)
  }

  /** FINISHED is absorbing: a finished job keeps its status, reason and time through every disciplined run. */
  lemma {:induction false} FinishedIsAbsorbing(store: Store, calls: seq<Call>, id: string)
    requires id in store.jobs && store.jobs[id].status == Finished
    requires forall i | 0 <= i < |calls| :: Disciplined(calls[i])
    ensures id in Run(store, calls).jobs && Ending(Run(store, calls).jobs[id]) == Ending(store.jobs[id])
    decreases |calls|
  {
    if calls != [] {
      assert Disciplined(calls[0]);
      FinishedIsAbsorbing(Next(store, calls[0]), calls[1..], id);
    }
  }

  /** What no call of the store ever changes in a job that exists. */
  function Identity(job: Job): (string, string, JobKind, Json, Json, Json, int) {
    (job.jobId, job.userId, job.kind, job.spec, job.inputSource, job.outputTarget, job.createdAt)
  }

  lemma StepKeepsIdentity(store: Store, call: Call, id: string)
    requires id in store.jobs
    ensures id in Next(store, call).jobs && Identity(Next(store, call).jobs[id]) == Identity(store.jobs[id])
  {
    match call
    case Transition(i, to, expected, reason, now) =>
    case Fail(_, _, _, _, _) =>
    case _ =>
  }

  lemma {:induction false} IdentityIsFixed(store: Store, calls: seq<Call>, id: string)
    requires id in store.jobs
    ensures id in Run(store, calls).jobs && Identity(Run(store, calls).jobs[id]) == Identity(store.jobs[id])
    decreases |calls|
  {
    if calls != [] {
      StepKeepsIdentity(store, calls[0], id);
      IdentityIsFixed(Next(store, calls[0]), calls[1..], id);
    }
  }

  ghost predicate Recorded(store: Store, id: string)
    requires id in store.jobs
  {
    exists e :: e in store.events && store.events[e] == SubmittedEvent(e, store.jobs[id])
  }

  predicate IsSubmission(store: Store, e: string) {
    e in store.events && store.events[e].kind == SUBMITTED
  }

  predicate RecordsAJob(store: Store, e: string)
    requires e in store.events
  {
    var event := store.events[e];
    event.jobId.Some? && event.jobId.value in store.jobs && event == SubmittedEvent(e, store.jobs[event.jobId.value])
  }

  /**
   Jobs and the job.submitted events correspond one to one, whatever else the
   shared table holds: each job has its event, each such event is that of a job,
   and no job has two.
   */
  ghost predicate Audited(store: Store) {
    && (forall id | id in store.jobs :: Recorded(store, id))
    && (forall e | IsSubmission(store, e) :: RecordsAJob(store, e))
    && NoneTwice(store)
  }

  ghost predicate NoneTwice(store: Store) {
    forall e, f | IsSubmission(store, e) && IsSubmission(store, f) &&
      store.events[e].jobId == store.events[f].jobId :: e == f
  }

  // The correspondence, said of the columns.

  lemma {:induction false} JobIsAnnounced(store: Store, id: string)
    requires Audited(store) && id in store.jobs
    ensures exists e :: e in store.events && AnnouncesJob(store.events[e], e, store.jobs[id])
  {
    assert Recorded(store, id);
    var e :| e in store.events && store.events[e] == SubmittedEvent(e, store.jobs[id]);
    SubmittedAnnounces(e, store.jobs[id]);
  }

  lemma {:induction false} SubmissionAnnounces(store: Store, e: string)
    requires Audited(store) && e in store.events && store.events[e].kind == "job.submitted"
    ensures store.events[e].jobId.Some? && store.events[e].jobId.value in store.jobs
    ensures AnnouncesJob(store.events[e], e, store.jobs[store.events[e].jobId.value])
  {
    assert IsSubmission(store, e) && RecordsAJob(store, e);
    SubmittedAnnounces(e, store.jobs[store.events[e].jobId.value]);
  }

  lemma {:induction false} AnnouncedOnce(store: Store, e: string, f: string)
    requires Audited(store) && e in store.events && f in store.events
    requires store.events[e].kind == store.events[f].kind == "job.submitted"
    requires store.events[e].jobId == store.events[f].jobId
    ensures e == f
  {
    assert IsSubmission(store, e) && IsSubmission(store, f);
  }

  /** Jobs keep their identities and events stay. */
  ghost predicate Grows(store: Store, after: Store) {
    && (forall id | id in store.jobs :: id in after.jobs && Identity(after.jobs[id]) == Identity(store.jobs[id]))
    && (forall e | e in store.events :: e in after.events && after.events[e] == store.events[e])
  }

  lemma SameSubmission(e: string, a: Job, b: Job)
    requires Identity(a) == Identity(b)
    ensures SubmittedEvent(e, a) == SubmittedEvent(e, b)
  {
  }

  lemma GrowthKeepsRecord(store: Store, after: Store, id: string)
    requires Grows(store, after) && id in store.jobs && Recorded(store, id)
    ensures Recorded(after, id)
  {
    var e :| e in store.events && store.events[e] == SubmittedEvent(e, store.jobs[id]);
    SameSubmission(e, store.jobs[id], after.jobs[id]);
    assert e in after.events;
  }

  lemma GrowthKeepsEvent(store: Store, after: Store, e: string)
    requires Grows(store, after) && e in store.events && RecordsAJob(store, e)
    ensures RecordsAJob(after, e)
  {
    var id := store.events[e].jobId.value;
    SameSubmission(e, store.jobs[id], after.jobs[id]);
  }

  lemma SubmitRecordsItself(store: Store, job: Job, eventId: string)
    requires SubmitJob(store, job, eventId).Ok?
    ensures Recorded(SubmitJob(store, job, eventId).value, job.jobId)
    ensures RecordsAJob(SubmitJob(store, job, eventId).value, eventId)
  {
    var after := SubmitJob(store, job, eventId).value;
    assert after.events[eventId] == SubmittedEvent(eventId, after.jobs[job.jobId]);
  }

  lemma SubmitStaysAudited(store: Store, job: Job, eventId: string, after: Store)
    requires Audited(store) && SubmitJob(store, job, eventId) == Ok(after)
    ensures Audited(after)
  {
    assert Grows(store, after);
    SubmitRecordsItself(store, job, eventId);
    forall id | id in after.jobs ensures Recorded(after, id) {
      if id != job.jobId { GrowthKeepsRecord(store, after, id); }
    }
    forall e | IsSubmission(after, e) ensures RecordsAJob(after, e) {
      if e != eventId { OldSubmission(store, after, e); }
    }
    SubmitAddsOne(store, job, eventId, after);
  }

  lemma OldSubmission(store: Store, after: Store, e: string)
    requires Audited(store) && Grows(store, after) && e in store.events && IsSubmission(after, e)
    ensures IsSubmission(store, e) && RecordsAJob(store, e) && RecordsAJob(after, e)
  {
    GrowthKeepsEvent(store, after, e);
  }

  lemma SubmitAddsOne(store: Store, job: Job, eventId: string, after: Store)
    requires Audited(store) && SubmitJob(store, job, eventId) == Ok(after)
    ensures NoneTwice(after)
  {
    assert after.events[eventId].jobId == Some(job.jobId);
    forall e | IsSubmission(after, e) && e != eventId
      ensures IsSubmission(store, e) && after.events[e].jobId == store.events[e].jobId != Some(job.jobId)
    {
      OtherSubmission(store, job, eventId, e);
    }
  }

  lemma OtherSubmission(store: Store, job: Job, eventId: string, e: string)
    requires Audited(store) && SubmitJob(store, job, eventId).Ok? && e != eventId
    requires IsSubmission(SubmitJob(store, job, eventId).value, e)
    ensures IsSubmission(store, e) && SubmitJob(store, job, eventId).value.events[e] == store.events[e]
    ensures store.events[e].jobId != Some(job.jobId)
  {
    assert IsSubmission(store, e) && RecordsAJob(store, e);
  }

  /** Without new jobs and new submissions the audit stays. */
  lemma NothingNewStaysAudited(store: Store, after: Store)
    requires Audited(store) && Grows(store, after) && after.jobs.Keys == store.jobs.Keys
    requires forall e | IsSubmission(after, e) :: e in store.events
    ensures Audited(after)
  {
    forall id | id in after.jobs ensures Recorded(after, id) { GrowthKeepsRecord(store, after, id); }
    forall e | IsSubmission(after, e) ensures RecordsAJob(after, e) { OldSubmission(store, after, e); }
    NoNewSubmissions(store, after);
  }

  lemma NoNewSubmissions(store: Store, after: Store)
    requires NoneTwice(store) && Grows(store, after)
    requires forall e | IsSubmission(after, e) :: e in store.events
    ensures NoneTwice(after)
  {
    forall e | IsSubmission(after, e) ensures IsSubmission(store, e) && after.events[e] == store.events[e] {
      assert e in store.events;
    }
  }

  /** Changing jobs without touching their identities leaves the audit intact. */
  lemma SameIdentitiesStayAudited(store: Store, after: Store)
    requires Audited(store) && after.events == store.events && after.jobs.Keys == store.jobs.Keys
    requires forall id | id in store.jobs :: Identity(after.jobs[id]) == Identity(store.jobs[id])
    ensures Audited(after)
  {
    assert Grows(store, after);
    NothingNewStaysAudited(store, after);
  }

  lemma OtherStepsKeepKeys(store: Store, call: Call)
    requires !call.Submit? && !call.StoreEvent?
    ensures Next(store, call).events == store.events && Next(store, call).jobs.Keys == store.jobs.Keys
  {
  }

  lemma OtherStepsStayAudited(store: Store, call: Call, after: Store)
    requires Audited(store) && !call.Submit? && !call.StoreEvent? && after == Next(store, call)
    ensures Audited(after)
  {
    OtherStepsKeepKeys(store, call);
    forall id | id in store.jobs ensures Identity(after.jobs[id]) == Identity(store.jobs[id]) {
      StepKeepsIdentity(store, call, id);
    }
    SameIdentitiesStayAudited(store, after);
  }

  /** A foreign event of another kind is no submission. */
  lemma ForeignEventStaysAudited(store: Store, event: Event, after: Store)
    requires Audited(store) && event.eventId !in store.events && event.kind != SUBMITTED
    requires after == store.(events := store.events[event.eventId := event])
    ensures Audited(after)
  {
    assert Grows(store, after);
    NothingNewStaysAudited(store, after);
  }

  lemma SubmissionOf(store: Store, id: string) returns (e: string)
    requires Audited(store) && id in store.jobs
    ensures IsSubmission(store, e) && store.events[e].jobId == Some(id)
  {
    assert Recorded(store, id);
    e :| e in store.events && store.events[e] == SubmittedEvent(e, store.jobs[id]);
  }

  lemma SecondSubmission(store: Store, e: string, f: string)
    requires IsSubmission(store, e) && IsSubmission(store, f) && e != f &&
      store.events[e].jobId == store.events[f].jobId
    ensures !Audited(store)
  {
    assert !NoneTwice(store);
  }

  /** A job.submitted event from elsewhere belongs to no job, or to one that has its event already. */
  lemma ForgedSubmissionShows(store: Store, event: Event, after: Store)
    requires Audited(store) && event.eventId !in store.events && event.kind == SUBMITTED
    requires after == store.(events := store.events[event.eventId := event])
    ensures !Audited(after)
  {
    assert IsSubmission(after, event.eventId);
    if event.jobId.Some? && event.jobId.value in store.jobs {
      var e := SubmissionOf(store, event.jobId.value);
      SecondSubmission(after, e, event.eventId);
    } else {
      assert !RecordsAJob(after, event.eventId);
    }
  }

  /** Exactly which writes of other stores keep the correspondence: events of any kind but job.submitted. */
  lemma {:induction false} ForeignEventKeepsAuditIff(store: Store, event: Event)
    requires Audited(store) && event.eventId !in store.events
    ensures Audited(Next(store, StoreEvent(event))) <==> event.kind != SUBMITTED
  {
    if event.kind == SUBMITTED {
      ForgedSubmissionShows(store, event, Next(store, StoreEvent(event)));
    } else {
      ForeignEventStaysAudited(store, event, Next(store, StoreEvent(event)));
    }
  }

  lemma StepStaysAudited(store: Store, call: Call)
    requires Audited(store) && (call.StoreEvent? ==> call.event.kind != "job.submitted")
    ensures Audited(Next(store, call))
  {
    if call.StoreEvent? {
      if call.event.eventId !in store.events { ForeignEventKeepsAuditIff(store, call.event); }
    } else if !call.Submit? {
      OtherStepsStayAudited(store, call, Next(store, call));
    } else if SubmitJob(store, call.job, call.eventId).Ok? {
      SubmitStaysAudited(store, call.job, call.eventId, Next(store, call));
    }
  }

  /** Row and event are one transaction: in every run jobs and job.submitted events correspond one to one. */
  lemma {:induction false} RunStaysAudited(store: Store, calls: seq<Call>)
    requires Audited(store)
    requires forall i | 0 <= i < |calls| && calls[i].StoreEvent? :: calls[i].event.kind != "job.submitted"
    ensures Audited(Run(store, calls))
    decreases |calls|
  {
    if calls != [] {
      StepStaysAudited(store, calls[0]);
      RunStaysAudited(Next(store, calls[0]), calls[1..]);
    }
  }

  // Exactly when the compare-and-set gives the guarantees its documentation names.

  function DoneJob(at: int): Job {
    Job("j", "u", Batch, JNull, JNull, JNull, Finished, None, None, 0, Some(at))
  }

  /**
   A transition leaves the ending of every finished job alone, whatever the
   table, if and only if its caller does not expect FINISHED.
   */
  lemma {:induction false} TransitionKeepsEndingsIff(to: JobStatus, expected: set<JobStatus>)
    ensures Finished !in expected <==>
      forall store: Store, id, reason, now | id in store.jobs && store.jobs[id].status == Finished ::
        Ending(TransitionJob(store, id, to, expected, reason, now).jobs[id]) == Ending(store.jobs[id])
  {
    if Finished in expected {
      var store := Store(map["j" := DoneJob(1)], map[], map[]);
      assert Ending(TransitionJob(store, "j", to, expected, None, 2).jobs["j"]) != Ending(store.jobs["j"]);
    }
  }

  lemma {:induction false} FailKeepsEndingsIff(expected: set<JobStatus>)
    ensures Finished !in expected <==>
      forall store: Store, id, reason, message, now | id in store.jobs && store.jobs[id].status == Finished ::
        Ending(FailJob(store, id, expected, reason, message, now).jobs[id]) == Ending(store.jobs[id])
  {
    if Finished in expected {
      var store := Store(map["j" := DoneJob(1)], map[], map[]);
      assert Ending(FailJob(store, "j", expected, "FAILED", "late", 2).jobs["j"]) != Ending(store.jobs["j"]);
    }
  }

  /** How many of n racing writers making the same transition are told True. */
  function Wins(store: Store, id: string, to: JobStatus, expected: set<JobStatus>, now: int, n: nat): nat
    decreases n
  {
    if n == 0 then 0
    else (if CanUpdate(store, id, expected) then 1 else 0)
         + Wins(TransitionJob(store, id, to, expected, None, now), id, to, expected, now, n - 1)
  }

  lemma {:induction false} NoWins(store: Store, id: string, to: JobStatus, expected: set<JobStatus>, now: int, n: nat)
    requires !CanUpdate(store, id, expected)
    ensures Wins(store, id, to, expected, now, n) == 0
    decreases n
  {
    if n > 0 { NoWins(store, id, to, expected, now, n - 1); }
  }

  lemma {:induction false} EveryoneWins(store: Store, id: string, to: JobStatus, expected: set<JobStatus>, now: int,
      n: nat)
    requires CanUpdate(store, id, expected) && to in expected
    ensures Wins(store, id, to, expected, now, n) == n
    decreases n
  {
    if n > 0 { EveryoneWins(TransitionJob(store, id, to, expected, None, now), id, to, expected, now, n - 1); }
  }

  /**
   A transition that can happen is won by exactly one of any number of racing
   writers if and only if the target is not itself expected, or there is just one writer.
   */
  lemma {:induction false} TransitionFiresOnceIff(store: Store, id: string, to: JobStatus, expected: set<JobStatus>,
      now: int, n: nat)
    requires CanUpdate(store, id, expected) && n >= 1
    ensures Wins(store, id, to, expected, now, n) == 1 <==> to !in expected || n == 1
  {
    if to in expected {
      EveryoneWins(store, id, to, expected, now, n);
    } else {
      NoWins(TransitionJob(store, id, to, expected, None, now), id, to, expected, now, n - 1);
    }
  }
}
