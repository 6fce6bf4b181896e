/** The `jobs` and `ranks` tables and the writes of the job store over them. */
module Jobs {
  import opened Results
  import opened Dicts
  import opened JsonValues
  import opened EventLog

  datatype JobKind = Batch | Online

  datatype JobStatus = Waiting | Running | Paused | Finished

  datatype Job = Job(
    jobId: string,
    userId: string,
    kind: JobKind,
    spec: Json,
    inputSource: Json,
    outputTarget: Json,
    status: JobStatus,
    finishReason: Option<string>,
    errorMessage: Option<string>,
    createdAt: int,
    finishedAt: Option<int>)

  datatype RankRole = Prefill | Decode | Aggregate

  datatype RankStatus = Launching | RankRunning | Stopped | Failed

  datatype Rank = Rank(
    rankId: string,
    jobId: string,
    planId: Option<string>,
    role: RankRole,
    shape: Json,
    nReplicas: int,
    status: RankStatus,
    reasonCode: Option<string>,
    createdAt: int,
    updatedAt: int)

  type JobTable = m: map<string, Job> | forall id | id in m :: m[id].jobId == id witness map[]
  type RankTable = m: map<string, Rank> | forall id | id in m :: m[id].rankId == id witness map[]

  datatype Store = Store(jobs: JobTable, ranks: RankTable, events: Events)

  datatype StoreError =
    | DuplicateKey
    | ReplicasNotPositive(rankId: string)
    | OwnedByAnotherJob(rankId: string)
    | NoSuchJob(rankId: string)

  const SUBMITTED := "job.submitted"

  function SubmittedEvent(eventId: string, job: Job): Event {
    Event(eventId, Some(job.userId), Some(job.jobId), None, SUBMITTED,
          [("job_id", JStr(job.jobId)), ("user_id", JStr(job.userId))], job.createdAt)
  }

  /** A job.submitted event about the job and its user, at the job's creation time, naming both in its payload. */
  predicate AnnouncesJob(e: Event, eventId: string, job: Job) {
    && e.eventId == eventId && e.kind == "job.submitted" && e.createdAt == job.createdAt
    && e.userId == Some(job.userId) && e.jobId == Some(job.jobId) && e.rankId == None
    && |e.payload| == 2
    && Get(e.payload, "job_id") == Some(JStr(job.jobId)) && Get(e.payload, "user_id") == Some(JStr(job.userId))
  }

  lemma SubmittedAnnounces(eventId: string, job: Job)
    ensures AnnouncesJob(SubmittedEvent(eventId, job), eventId, job)
  {
    var payload := SubmittedEvent(eventId, job).payload;
    assert payload[0].0 == "job_id" && payload[1].0 == "user_id" && |"job_id"| == 6 && |"user_id"| == 7;
    GetOfUnique(payload, 0);
    GetOfUnique(payload, 1);
  }

  /** The job row and its event are written together or not at all. */
  function SubmitJob(store: Store, job: Job, eventId: string): Result<Store, StoreError> {
    if job.jobId in store.jobs || eventId in store.events then Err(DuplicateKey)
    else Ok(store.(jobs := store.jobs[job.jobId := job],
                   events := store.events[eventId := SubmittedEvent(eventId, job)]))
  }

  /** UPDATE ... WHERE job_id = id AND status IN expected, with the row count as the answer. */
  predicate CanUpdate(store: Store, id: string, expected: set<JobStatus>) {
    id in store.jobs && store.jobs[id].status in expected
  }

  function Moved(job: Job, to: JobStatus, reason: Option<string>, now: int): Job {
    match to
    case Running => job.(status := to, errorMessage := None)
    case Finished => job.(status := to, finishedAt := Some(now), finishReason := reason)
    case _ => job.(status := to)
  }

  function TransitionJob(store: Store, id: string, to: JobStatus, expected: set<JobStatus>, reason: Option<string>,
      now: int): Store {
    if CanUpdate(store, id, expected) then store.(jobs := store.jobs[id := Moved(store.jobs[id], to, reason, now)])
    else store
  }

  function FailJob(store: Store, id: string, expected: set<JobStatus>, reason: string, message: string,
      now: int): Store {
    if CanUpdate(store, id, expected) then
      store.(jobs := store.jobs[id := store.jobs[id].(status := Finished, finishReason := Some(reason),
                                                      errorMessage := Some(message), finishedAt := Some(now))])
    else store
  }

  function SetJobError(store: Store, id: string, message: Option<string>): Store {
    if id in store.jobs then store.(jobs := store.jobs[id := store.jobs[id].(errorMessage := message)]) else store
  }

  /**
   INSERT ... ON CONFLICT (rank_id) DO UPDATE ... WHERE the owner is the same:
   the replica check comes first, a conflicting row keeps its created_at, and a
   fresh row needs its job.
   */
  function Upsert(jobs: JobTable, ranks: RankTable, r: Rank): Result<RankTable, StoreError> {
    if r.nReplicas <= 0 then Err(ReplicasNotPositive(r.rankId))
    else if r.rankId in ranks then
      if ranks[r.rankId].jobId == r.jobId then Ok(ranks[r.rankId := r.(createdAt := ranks[r.rankId].createdAt)])
      else Err(OwnedByAnotherJob(r.rankId))
    else if r.jobId !in jobs then Err(NoSuchJob(r.rankId))
    else Ok(ranks[r.rankId := r])
  }

  function LaunchRanks(jobs: JobTable, ranks: RankTable, batch: seq<Rank>): Result<RankTable, StoreError> {
    if batch == [] then Ok(ranks)
    else
      match LaunchRanks(jobs, ranks, batch[..|batch| - 1])
      case Err(e) => Err(e)
      case Ok(soFar) => Upsert(jobs, soFar, batch[|batch| - 1])
  }

  lemma {:induction false} FirstErrorDecides(jobs: JobTable, ranks: RankTable, batch: seq<Rank>, n: nat)
    requires n <= |batch| && LaunchRanks(jobs, ranks, batch[..n]).Err?
    ensures LaunchRanks(jobs, ranks, batch) == LaunchRanks(jobs, ranks, batch[..n])
    decreases |batch|
  {
    if n == |batch| {
      assert batch[..n] == batch;
    } else {
      var shorter := batch[..|batch| - 1];
      assert shorter[..n] == batch[..n];
      FirstErrorDecides(jobs, ranks, shorter, n);
    }
  }

  function SetRank(store: Store, id: string, to: RankStatus, expected: set<RankStatus>, reason: Option<string>,
      now: int): Store {
    if id in store.ranks && store.ranks[id].status in expected then
      store.(ranks := store.ranks[id := store.ranks[id].(status := to, reasonCode := reason, updatedAt := now)])
    else store
  }

  class JobStore {
    var jobs: JobTable
    var ranks: RankTable
    var events: Events

    function State(): Store
      reads this
    {
      Store(jobs, ranks, events)
    }

    constructor ()
      ensures State() == Store(map[], map[], map[])
    {
      jobs, ranks, events := map[], map[], map[];
    }

    method Submit(job: Job, eventId: string) returns (r: Result<Job, StoreError>)
      modifies this
      ensures r == if job.jobId in old(jobs) || eventId in old(events) then Err(DuplicateKey) else Ok(job)
      ensures jobs == if r.Ok? then old(jobs)[job.jobId := job] else old(jobs)
      ensures ranks == old(ranks)
      ensures r.Ok? ==>
        && eventId in events && events == old(events)[eventId := events[eventId]]
        && AnnouncesJob(events[eventId], eventId, job)
      ensures r.Err? ==> events == old(events)
      ensures r.Ok? <==> SubmitJob(old(State()), job, eventId).Ok?
      ensures r.Ok? ==> r.value == job && State() == SubmitJob(old(State()), job, eventId).value
      ensures r.Err? ==> State() == old(State())
    {
      if job.jobId in jobs || eventId in events { return Err(DuplicateKey); }
      jobs := jobs[job.jobId := job];
      events := events[eventId := SubmittedEvent(eventId, job)];
      SubmittedAnnounces(eventId, job);
      return Ok(job);
    }

    method Transition(id: string, to: JobStatus, expected: set<JobStatus>, reason: Option<string>, now: int)
      returns (ok: bool)
      modifies this`jobs
      ensures ok <==> id in old(jobs) && old(jobs)[id].status in expected
      ensures !ok ==> jobs == old(jobs)
      ensures ok ==>
        var row := old(jobs)[id];
        jobs == old(jobs)[id := row.(
          status := to,
          errorMessage := if to == Running then None else row.errorMessage,
          finishedAt := if to == Finished then Some(now) else row.finishedAt,
          finishReason := if to == Finished then reason else row.finishReason)]
      ensures ok == CanUpdate(old(State()), id, expected)
      ensures State() == TransitionJob(old(State()), id, to, expected, reason, now)
    {
      if id !in jobs || jobs[id].status !in expected { return false; }
      var row := jobs[id].(status := to);
      if to == Running {
        row := row.(errorMessage := None);
      }
      if to == Finished {
        row := row.(finishedAt := Some(now), finishReason := reason);
      }
      jobs := jobs[id := row];
      return true;
    }

    method Fail(id: string, expected: set<JobStatus>, reason: string, message: string, now: int) returns (ok: bool)
      modifies this`jobs
      ensures ok <==> id in old(jobs) && old(jobs)[id].status in expected
      ensures !ok ==> jobs == old(jobs)
      ensures ok ==> jobs == old(jobs)[id := old(jobs)[id].(
        status := Finished, finishedAt := Some(now), finishReason := Some(reason), errorMessage := Some(message))]
      ensures ok == CanUpdate(old(State()), id, expected)
      ensures State() == FailJob(old(State()), id, expected, reason, message, now)
    {
      if id !in jobs || jobs[id].status !in expected { return false; }
      jobs := jobs[id := jobs[id].(status := Finished, finishReason := Some(reason),
                                   errorMessage := Some(message), finishedAt := Some(now))];
      return true;
    }

    method SetError(id: string, message: Option<string>) returns (ok: bool)
      modifies this`jobs
      ensures ok == (id in old(jobs))
      ensures jobs == if ok then old(jobs)[id := old(jobs)[id].(errorMessage := message)] else old(jobs)
      ensures State() == SetJobError(old(State()), id, message)
    {
      ok := id in jobs;
      if ok { jobs := jobs[id := jobs[id].(errorMessage := message)]; }
    }

    /** One statement of the batch: insert, or update when the stored owner is the same. */
    method UpsertRank(rank: Rank) returns (error: Option<StoreError>)
      modifies this`ranks
      ensures error == if rank.nReplicas <= 0 then Some(ReplicasNotPositive(rank.rankId))
                       else if rank.rankId !in old(ranks) && rank.jobId !in old(jobs) then Some(NoSuchJob(rank.rankId))
                       else if rank.rankId in old(ranks) && old(ranks)[rank.rankId].jobId != rank.jobId
                       then Some(OwnedByAnotherJob(rank.rankId)) else None
      ensures error.None? ==> ranks == old(ranks)[rank.rankId := rank.(createdAt :=
        if rank.rankId in old(ranks) then old(ranks)[rank.rankId].createdAt else rank.createdAt)]
      ensures error.None? ==> Upsert(old(jobs), old(ranks), rank) == Ok(ranks)
      ensures error.Some? ==> Upsert(old(jobs), old(ranks), rank) == Err(error.value) && ranks == old(ranks)
    {
      if rank.nReplicas <= 0 { return Some(ReplicasNotPositive(rank.rankId)); }
      if rank.rankId !in ranks {
        if rank.jobId !in jobs { return Some(NoSuchJob(rank.rankId)); }
        ranks := ranks[rank.rankId := rank];
      } else {
        var stored := ranks[rank.rankId];
        if stored.jobId != rank.jobId { return Some(OwnedByAnotherJob(rank.rankId)); }
        ranks := ranks[rank.rankId := rank.(createdAt := stored.createdAt)];
      }
      return None;
    }

    /** All ranks of the batch are stored, or the transaction rolls back. */
    method Launch(batch: seq<Rank>) returns (r: Result<seq<Rank>, StoreError>)
      modifies this`ranks
      ensures r.Ok? <==> LaunchRanks(old(jobs), old(ranks), batch).Ok?
      ensures r.Ok? ==> r.value == batch && ranks == LaunchRanks(old(jobs), old(ranks), batch).value
      ensures r.Err? ==> ranks == old(ranks) && r.error == LaunchRanks(old(jobs), old(ranks), batch).error
    {
      var before := ranks;
      for i := 0 to |batch|
        invariant LaunchRanks(old(jobs), before, batch[..i]) == Ok(ranks)
      {
        assert batch[..i + 1][..i] == batch[..i];
        var error := UpsertRank(batch[i]);
        if error.Some? {
          ranks := before;
          FirstErrorDecides(jobs, before, batch, i + 1);
          return Err(error.value);
        }
      }
      assert batch[..|batch|] == batch;
      return Ok(batch);
    }

    method SetRankStatus(id: string, to: RankStatus, expected: set<RankStatus>, reason: Option<string>,
        now: int) returns (ok: bool)
      modifies this`ranks
      ensures ok == (id in old(ranks) && old(ranks)[id].status in expected)
      ensures ranks == if ok
                       then old(ranks)[id := old(ranks)[id].(status := to, reasonCode := reason, updatedAt := now)]
                       else old(ranks)
      ensures State() == SetRank(old(State()), id, to, expected, reason, now)
    {
      if id !in ranks || ranks[id].status !in expected { return false; }
      ranks := ranks[id := ranks[id].(status := to, reasonCode := reason, updatedAt := now)];
      return true;
    }
  }
}
