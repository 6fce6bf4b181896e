/** The plan handoff: plans are created by the scheduler and marked applied by executors. */
module Plans {
  import opened Results
  import opened Ordering
  import opened Text
  import opened JsonValues
  import opened Dicts
  import opened EventLog

  const STATUS_CREATED := "created"
  const STATUS_APPLIED := "applied"

  datatype PlanAction = PlanAction(jobId: string, kind: string, detail: Json)

  datatype Plan = Plan(
    planId: string,
    userId: string,
    koiVersion: Option<string>,
    rationale: string,
    actions: seq<PlanAction>,
    status: string,
    createdAt: int)

  type PlanTable = m: map<string, Plan> | forall id | id in m :: m[id].planId == id witness map[]

  datatype PlanState = PlanState(plans: PlanTable, events: Events)

  /** The job id to action kind dict of the event payload; a repeated job keeps its last kind. */
  function ActionKinds(actions: seq<PlanAction>): Dict<Json> {
    if actions == [] then []
    else
      var last := actions[|actions| - 1];
      Put(ActionKinds(actions[..|actions| - 1]), last.jobId, JStr(last.kind))
  }

  function CreatedEvent(eventId: string, plan: Plan): Event {
    Event(eventId, Some(plan.userId), None, None, "plan.created",
          [("plan_id", JStr(plan.planId)), ("user_id", JStr(plan.userId)), ("tick_id", JNull),
           ("actions", JObj(ActionKinds(plan.actions)))], plan.createdAt)
  }

  /** The dict names every job of the plan, with the kind of its last action. */
  lemma {:induction false} ActionKindsLast(actions: seq<PlanAction>, i: nat)
    requires i < |actions| && forall j | i < j < |actions| :: actions[j].jobId != actions[i].jobId
    ensures Get(ActionKinds(actions), actions[i].jobId) == Some(JStr(actions[i].kind))
    decreases |actions|
  {
    var n := |actions| - 1;
    GetPut(ActionKinds(actions[..n]), actions[n].jobId, JStr(actions[n].kind), actions[i].jobId);
    if i < n { ActionKindsLast(actions[..n], i); }
  }

  lemma {:induction false} ActionKindsOnly(actions: seq<PlanAction>, job: string)
    requires forall i | 0 <= i < |actions| :: actions[i].jobId != job
    ensures Get(ActionKinds(actions), job) == None
    decreases |actions|
  {
    if actions != [] {
      var n := |actions| - 1;
      GetPut(ActionKinds(actions[..n]), actions[n].jobId, JStr(actions[n].kind), job);
      ActionKindsOnly(actions[..n], job);
    }
  }

  /** The payload's dict of the actions: each job of the plan with the kind of its last action, and no other job. */
  ghost predicate ListsActions(d: Dict<Json>, actions: seq<PlanAction>) {
    && (forall i | 0 <= i < |actions| && (forall j | i < j < |actions| :: actions[j].jobId != actions[i].jobId) ::
          Get(d, actions[i].jobId) == Some(JStr(actions[i].kind)))
    && (forall job | forall i | 0 <= i < |actions| :: actions[i].jobId != job :: Get(d, job) == None)
  }

  /** A plan.created event for the plan's user, at the plan's creation time, naming plan, user and actions. */
  ghost predicate AnnouncesPlan(e: Event, eventId: string, plan: Plan) {
    && e.eventId == eventId && e.kind == "plan.created" && e.createdAt == plan.createdAt
    && e.userId == Some(plan.userId) && e.jobId == None && e.rankId == None
    && |e.payload| == 4
    && Get(e.payload, "plan_id") == Some(JStr(plan.planId)) && Get(e.payload, "user_id") == Some(JStr(plan.userId))
    && Get(e.payload, "tick_id") == Some(JNull)
    && match Get<Json>(e.payload, "actions") case Some(JObj(d)) => ListsActions(d, plan.actions) case _ => false
  }

  lemma CreatedAnnounces(eventId: string, plan: Plan)
    ensures AnnouncesPlan(CreatedEvent(eventId, plan), eventId, plan)
  {
    var payload := CreatedEvent(eventId, plan).payload;
    assert payload[0].0 == "plan_id" && payload[1].0 == "user_id" && payload[2].0 == "tick_id" &&
      payload[3].0 == "actions";
    assert "plan_id"[0] == 'p' && "user_id"[0] == 'u' && "tick_id"[0] == 't' && "actions"[0] == 'a';
    GetOfUnique(payload, 0);
    GetOfUnique(payload, 1);
    GetOfUnique(payload, 2);
    GetOfUnique(payload, 3);
    var d, actions := ActionKinds(plan.actions), plan.actions;
    forall i | 0 <= i < |actions| && (forall j | i < j < |actions| :: actions[j].jobId != actions[i].jobId)
      ensures Get(d, actions[i].jobId) == Some(JStr(actions[i].kind))
    {
      ActionKindsLast(actions, i);
    }
    forall job | forall i | 0 <= i < |actions| :: actions[i].jobId != job ensures Get(d, job) == None {
      ActionKindsOnly(actions, job);
    }
  }

  function CreatePlan(s: PlanState, plan: Plan, eventId: string): Option<PlanState> {
    if plan.planId in s.plans || eventId in s.events then None
    else Some(PlanState(s.plans[plan.planId := plan], s.events[eventId := CreatedEvent(eventId, plan)]))
  }

  predicate CanMark(s: PlanState, id: string) {
    id in s.plans && s.plans[id].status == STATUS_CREATED
  }

  function MarkPlan(s: PlanState, id: string): PlanState {
    if CanMark(s, id) then s.(plans := s.plans[id := s.plans[id].(status := STATUS_APPLIED)]) else s
  }

  /** The plans a poll for a user may return. */
  function Unapplied(s: PlanState, user: string): set<Plan> {
    set id | id in s.plans && s.plans[id].userId == user && s.plans[id].status == STATUS_CREATED :: s.plans[id]
  }

  /** A poll returns exactly the user's stored plans that are marked created. */
  lemma {:induction false} UnappliedMeans(s: PlanState, user: string, p: Plan)
    ensures p in Unapplied(s, user) <==>
      p.planId in s.plans && s.plans[p.planId] == p && p.userId == user && p.status == "created"
  {
    if p.planId in s.plans && s.plans[p.planId] == p && p.userId == user && p.status == "created" {
      assert s.plans[p.planId] in Unapplied(s, user);
    }
  }

  predicate Older(a: Plan, b: Plan) { a.createdAt < b.createdAt }
  predicate SameTime(a: Plan, b: Plan) { a.createdAt == b.createdAt }
  predicate IdLt(a: Plan, b: Plan) { Below(a.planId, b.planId) }

  lemma PlansCanBeListed(s: PlanState, rows: set<Plan>)
    requires forall p | p in rows :: p.planId in s.plans && s.plans[p.planId] == p
    ensures TotalOn(ThenBy(Older, SameTime, IdLt), rows) &&
      Sorts(Older, rows, InOrder(ThenBy(Older, SameTime, IdLt), rows))
  {
    forall a: Plan ensures !IdLt(a, a) { BelowIrreflexive(a.planId); }
    forall a, b | a in rows && b in rows && a != b ensures IdLt(a, b) || IdLt(b, a) { BelowTotal(a.planId, b.planId); }
    forall a: Plan, b: Plan, c: Plan | IdLt(a, b) && IdLt(b, c) ensures IdLt(a, c) {
      BelowTransitive(a.planId, b.planId, c.planId);
    }
    ThenByIsTotal(Older, SameTime, IdLt, rows);
    BrokenTiesSort(Older, SameTime, IdLt, rows);
  }

  class PlanStore {
    var plans: PlanTable
    var events: Events

    function State(): PlanState
      reads this
    {
      PlanState(plans, events)
    }

    constructor ()
      ensures State() == PlanState(map[], map[])
    {
      plans, events := map[], map[];
    }

    /** Plan row and event commit together; a clash of either key writes neither. */
    method Create(plan: Plan, eventId: string) returns (ok: bool)
      modifies this
      ensures ok <==> plan.planId !in old(plans) && eventId !in old(events)
      ensures plans == if ok then old(plans)[plan.planId := plan] else old(plans)
      ensures ok ==>
        && eventId in events && events == old(events)[eventId := events[eventId]]
        && AnnouncesPlan(events[eventId], eventId, plan)
      ensures !ok ==> events == old(events)
      ensures ok <==> CreatePlan(old(State()), plan, eventId).Some?
      ensures State() == if ok then CreatePlan(old(State()), plan, eventId).value else old(State())
    {
      if plan.planId in plans || eventId in events { return false; }
      plans := plans[plan.planId := plan];
      events := events[eventId := CreatedEvent(eventId, plan)];
      CreatedAnnounces(eventId, plan);
      return true;
    }

    /** The user's waiting plans, each once, oldest first. */
    method Waiting(user: string) returns (r: seq<Plan>)
      ensures forall p :: p in r <==>
        p.planId in plans && plans[p.planId] == p && p.userId == user && p.status == "created"
      ensures forall i, j | 0 <= i < j < |r| :: r[i] != r[j] && r[i].createdAt <= r[j].createdAt
    {
      var rows := Unapplied(State(), user);
      PlansCanBeListed(State(), rows);
      forall p ensures p in rows <==>
        p.planId in plans && plans[p.planId] == p && p.userId == user && p.status == "created"
      {
        UnappliedMeans(State(), user, p);
      }
      r := InOrder(ThenBy(Older, SameTime, IdLt), rows);
    }

    method MarkApplied(id: string) returns (won: bool)
      modifies this`plans
      ensures won <==> id in old(plans) && old(plans)[id].status == "created"
      ensures plans == if won then old(plans)[id := old(plans)[id].(status := "applied")] else old(plans)
      ensures won <==> CanMark(old(State()), id)
      ensures State() == MarkPlan(old(State()), id)
    {
      if id !in plans { return false; }
      var row := plans[id];
      if row.status != STATUS_CREATED { return false; }
      plans := plans[id := row.(status := STATUS_APPLIED)];
      return true;
    }
  }

  /** Calls of any number of schedulers and workers, in the order they commit. */
  datatype Call = Create(plan: Plan, eventId: string) | Mark(worker: nat, id: string)

  function Next(s: PlanState, call: Call): PlanState {
    match call
    case Create(plan, eventId) => (match CreatePlan(s, plan, eventId) case Some(s') => s' case None => s)
    case Mark(_, id) => MarkPlan(s, id)
  }

  function Run(s: PlanState, calls: seq<Call>): PlanState
    decreases |calls|
  {
    if calls == [] then s else Run(Next(s, calls[0]), calls[1..])
  }

  /** This call is a mark of `id` that is answered True. */
  predicate Wins(s: PlanState, call: Call, id: string) {
    call.Mark? && call.id == id && CanMark(s, id)
  }

  /** How many marks of `id` are answered True over a run. */
  function WinCount(s: PlanState, calls: seq<Call>, id: string): nat
    decreases |calls|
  {
    if calls == [] then 0
    else (if Wins(s, calls[0], id) then 1 else 0) + WinCount(Next(s, calls[0]), calls[1..], id)
  }

  predicate Marks(calls: seq<Call>, id: string) {
    exists i :: 0 <= i < |calls| && calls[i].Mark? && calls[i].id == id
  }

  /** A plan that exists and is not waiting can never be won again, and keeps its status. */
  lemma {:induction false} DecidedPlansStay(s: PlanState, calls: seq<Call>, id: string)
    requires id in s.plans && s.plans[id].status != STATUS_CREATED
    ensures WinCount(s, calls, id) == 0
    ensures id in Run(s, calls).plans && Run(s, calls).plans[id] == s.plans[id]
    decreases |calls|
  {
    if calls != [] { DecidedPlansStay(Next(s, calls[0]), calls[1..], id); }
  }

  lemma MarksTail(calls: seq<Call>, id: string)
    requires calls != []
    ensures Marks(calls, id) <==> (calls[0].Mark? && calls[0].id == id) || Marks(calls[1..], id)
  {
    var rest := calls[1..];
    if i :| 0 <= i < |rest| && rest[i].Mark? && rest[i].id == id { assert calls[i + 1].Mark?; }
    if i :| 0 <= i < |calls| && calls[i].Mark? && calls[i].id == id { assert i > 0 ==> rest[i - 1].Mark?; }
  }

  lemma StepKeepsWaiting(s: PlanState, call: Call, id: string)
    requires CanMark(s, id) && !Wins(s, call, id)
    ensures CanMark(Next(s, call), id) && Next(s, call).plans[id] == s.plans[id]
  {
  }

  lemma StepWins(s: PlanState, call: Call, id: string)
    requires Wins(s, call, id)
    ensures id in Next(s, call).plans && Next(s, call).plans[id] == s.plans[id].(status := STATUS_APPLIED)
    ensures STATUS_APPLIED != STATUS_CREATED
  {
    assert STATUS_APPLIED[0] != STATUS_CREATED[0];
  }

  /** On a waiting plan, exactly one mark is answered True if any is made, however many workers race. */
  lemma {:induction false} WaitingPlanIsWonOnce(s: PlanState, calls: seq<Call>, id: string)
    requires CanMark(s, id)
    ensures WinCount(s, calls, id) == if Marks(calls, id) then 1 else 0
    ensures id in Run(s, calls).plans
    ensures Run(s, calls).plans[id] == if Marks(calls, id) then s.plans[id].(status := STATUS_APPLIED) else s.plans[id]
    decreases |calls|
  {
    if calls != [] {
      var rest := calls[1..];
      if Wins(s, calls[0], id) {
        StepWins(s, calls[0], id);
        DecidedPlansStay(Next(s, calls[0]), rest, id);
      } else {
        StepKeepsWaiting(s, calls[0], id);
        WaitingPlanIsWonOnce(Next(s, calls[0]), rest, id);
        MarksTail(calls, id);
      }
    }
  }

  /** From any state, over any run, at most one mark of a plan is answered True. */
  lemma {:induction false} WonAtMostOnce(s: PlanState, calls: seq<Call>, id: string)
    ensures WinCount(s, calls, id) <= 1
    decreases |calls|
  {
    if CanMark(s, id) {
      WaitingPlanIsWonOnce(s, calls, id);
    } else if id in s.plans {
      DecidedPlansStay(s, calls, id);
    } else if calls != [] {
      WonAtMostOnce(Next(s, calls[0]), calls[1..], id);
    }
  }

  /** Once a mark was answered True, the plan is applied and no later poll of any user returns it. */
  lemma {:induction false} WonPlanIsGone(s: PlanState, calls: seq<Call>, id: string, user: string)
    requires WinCount(s, calls, id) >= 1
    ensures id in Run(s, calls).plans && Run(s, calls).plans[id].status == STATUS_APPLIED
    ensures forall p | p in Unapplied(Run(s, calls), user) :: p.planId != id
    decreases |calls|
  {
    if Wins(s, calls[0], id) {
      DecidedPlansStay(Next(s, calls[0]), calls[1..], id);
    } else {
      WonPlanIsGone(Next(s, calls[0]), calls[1..], id, user);
    }
  }

  lemma {:induction false} RunConcat(s: PlanState, a: seq<Call>, b: seq<Call>)
    ensures Run(s, a + b) == Run(Run(s, a), b)
    ensures forall id :: WinCount(s, a + b, id) == WinCount(s, a, id) + WinCount(Run(s, a), b, id)
    decreases |a|
  {
    if a == [] {
      assert a + b == b;
    } else {
      assert (a + b)[1..] == a[1..] + b;
      RunConcat(Next(s, a[0]), a[1..], b);
    }
  }

  /** The winning mark is the first one that finds the plan waiting: later marks of any worker are answered False. */
  lemma {:induction false} LaterMarksLose(s: PlanState, before: seq<Call>, after: seq<Call>, id: string)
    requires WinCount(s, before, id) == 1
    ensures WinCount(Run(s, before), after, id) == 0
  {
    RunConcat(s, before, after);
    WonAtMostOnce(s, before + after, id);
  }
}
