/** The stores that write into the event log: a job or a plan brings its own timestamp along. */
module Producers {
  import opened Results
  import opened JsonValues
  import opened EventLog
  import opened Delivery
  import J = Jobs
  import P = Plans

  /** The world after another store has written the events table. */
  function WithEvents(w: World, events: Events): World {
    w.(log := w.log.(events := events))
  }

  lemma SubmitIsAnAppend(log: Log, store: J.Store, job: J.Job, eventId: string, after: J.Store)
    requires store.events == log.events && J.SubmitJob(store, job, eventId) == Ok(after)
    ensures AppendEvent(log, J.SubmittedEvent(eventId, job)) == Ok(log.(events := after.events))
  {
    assert "rank."[0] == 'r' && J.SUBMITTED[0] == 'j';
  }

  /**
   Submitting a job is itself an append, stamped with the time the job was
   created: it is safe for a consumer if and only if the consumer does not want
   it or (created_at, event id) is above the consumer's cursor and batch.
   */
  lemma {:induction false} SubmitIsSafeIff(c: Consumer, w: World, store: J.Store, job: J.Job, eventId: string,
      after: J.Store)
    requires Inv(c, w) && store.events == w.log.events && J.SubmitJob(store, job, eventId) == Ok(after)
    ensures
      var e := J.SubmittedEvent(eventId, job);
      NeverLoses(c, WithEvents(w, after.events)) <==> !Matches(c.filter, e) || AboveFrontier(c, w, e)
  {
    var e := J.SubmittedEvent(eventId, job);
    SubmitIsAnAppend(w.log, store, job, eventId, after);
    AppendIsSafeIff(c, w, e);
    assert Next(c, w, Append(e)) == WithEvents(w, after.events);
  }

  lemma CreateIsAnAppend(log: Log, s: P.PlanState, plan: P.Plan, eventId: string, after: P.PlanState)
    requires s.events == log.events && P.CreatePlan(s, plan, eventId) == Some(after)
    ensures AppendEvent(log, P.CreatedEvent(eventId, plan)) == Ok(log.(events := after.events))
  {
    assert "rank."[0] == 'r' && "plan.created"[0] == 'p';
  }

  /** The same for creating a plan, whose event carries the plan's created_at. */
  lemma {:induction false} CreateIsSafeIff(c: Consumer, w: World, s: P.PlanState, plan: P.Plan, eventId: string,
      after: P.PlanState)
    requires Inv(c, w) && s.events == w.log.events && P.CreatePlan(s, plan, eventId) == Some(after)
    ensures
      var e := P.CreatedEvent(eventId, plan);
      NeverLoses(c, WithEvents(w, after.events)) <==> !Matches(c.filter, e) || AboveFrontier(c, w, e)
  {
    var e := P.CreatedEvent(eventId, plan);
    CreateIsAnAppend(w.log, s, plan, eventId, after);
    AppendIsSafeIff(c, w, e);
    assert Next(c, w, Append(e)) == WithEvents(w, after.events);
  }

  /** The latest time among the cursor's row and the batch in flight, if there is either. */
  function FrontierTime(c: Consumer, w: World): Option<int>
    requires CursorOf(w.log, c.name).Some? ==> CursorOf(w.log, c.name).value in w.log.events
  {
    var cursor := CursorOf(w.log, c.name);
    var seen := if cursor.Some? then Some(w.log.events[cursor.value].createdAt) else None;
    if w.batch == [] then seen
    else
      var last := w.batch[|w.batch| - 1].createdAt;
      if seen.Some? && seen.value > last then seen else Some(last)
  }

  lemma TimeDecidesFrontier(c: Consumer, w: World, e: Event)
    requires CursorOf(w.log, c.name).Some? ==> CursorOf(w.log, c.name).value in w.log.events
    ensures FrontierTime(c, w).None? || e.createdAt > FrontierTime(c, w).value ==> AboveFrontier(c, w, e)
    ensures FrontierTime(c, w).Some? && e.createdAt < FrontierTime(c, w).value ==> !AboveFrontier(c, w, e)
  {
  }

  /**
   Read off the clocks alone: a job created after everything the consumer passed
   or holds is submitted safely whatever its event id, and a wanted one created
   before the latest of it is lost by some run whatever its event id.
   */
  lemma {:induction false} CreationTimeDecides(c: Consumer, w: World, store: J.Store, job: J.Job, eventId: string,
      after: J.Store)
    requires Inv(c, w) && store.events == w.log.events && J.SubmitJob(store, job, eventId) == Ok(after)
    requires Matches(c.filter, J.SubmittedEvent(eventId, job))
    ensures FrontierTime(c, w).None? || job.createdAt > FrontierTime(c, w).value ==>
      NeverLoses(c, WithEvents(w, after.events))
    ensures FrontierTime(c, w).Some? && job.createdAt < FrontierTime(c, w).value ==>
      !NeverLoses(c, WithEvents(w, after.events))
  {
    TimeDecidesFrontier(c, w, J.SubmittedEvent(eventId, job));
    SubmitIsSafeIff(c, w, store, job, eventId, after);
  }

  function WaitingJob(id: string, at: int): J.Job {
    J.Job(id, "u", J.Batch, JNull, JNull, JNull, J.Waiting, None, None, at, None)
  }

  const FIRST := J.SubmittedEvent("e1", WaitingJob("j1", 1))
  const THIRD := J.SubmittedEvent("e3", WaitingJob("j3", 3))

  lemma FirstAndThirdComeIn(c: Consumer) returns (steps: seq<Step>)
    requires c.filter == Filter({}, None)
    ensures Lawful(c, Start(), steps)
    ensures Run(c, Start(), steps) ==
      World(Log(map["e1" := FIRST, "e3" := THIRD], map[]), [FIRST, THIRD], 1, {"e1"}, {})
  {
    assert "e1"[1] == '1' && "e3"[1] == '3' && "rank."[0] == 'r' && J.SUBMITTED[0] == 'j';
    steps := TwoComeIn(c, FIRST, THIRD);
  }

  lemma SecondCanBeSubmitted(store: J.Store) returns (after: J.Store)
    requires store == J.Store(map["j1" := WaitingJob("j1", 1), "j3" := WaitingJob("j3", 3)], map[],
                              map["e1" := FIRST, "e3" := THIRD])
    ensures J.SubmitJob(store, WaitingJob("j2", 2), "e2") == Ok(after)
  {
    assert "j1"[1] == '1' && "j2"[1] == '2' && "j3"[1] == '3' && "e1"[1] == '1' && "e2"[1] == '2' && "e3"[1] == '3';
    after := J.SubmitJob(store, WaitingJob("j2", 2), "e2").value;
  }

  /**
   Jobs created at 1, 2 and 3 and submitted in the order 1, 3, 2, with one read
   in between, in a run from the empty log: the second job's event can be lost.
   */
  lemma {:induction false} OvertakenSubmitExample()
    returns (c: Consumer, steps: seq<Step>, store: J.Store, after: J.Store)
    ensures Lawful(c, Start(), steps)
    ensures store.events == Run(c, Start(), steps).log.events
    ensures J.SubmitJob(store, WaitingJob("j2", 2), "e2") == Ok(after)
    ensures !NeverLoses(c, WithEvents(Run(c, Start(), steps), after.events))
  {
    c := Consumer("koi", Filter({}, None));
    steps := FirstAndThirdComeIn(c);
    RunKeepsInv(c, Start(), steps);
    store := J.Store(map["j1" := WaitingJob("j1", 1), "j3" := WaitingJob("j3", 3)], map[],
                     map["e1" := FIRST, "e3" := THIRD]);
    after := SecondCanBeSubmitted(store);
    CreationTimeDecides(c, Run(c, Start(), steps), store, WaitingJob("j2", 2), "e2", after);
  }
}
