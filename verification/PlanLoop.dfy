/**
 The loop around the plan store: workers poll for waiting plans, apply their
 actions and mark them.  What the order of the last two steps guarantees.
 */
module PlanLoop {
  import opened Plans

  /** A worker and a plan id. */
  type Claim = (nat, string)

  /**
   The plan tables; which plans each worker has polled, which it has applied and
   which of its marks were answered True and not yet acted on; and the ids of the
   plans applied so far, one entry for each application.
   */
  datatype Floor = Floor(state: PlanState, polled: set<Claim>, did: set<Claim>, won: set<Claim>, applied: seq<string>)

  datatype Step =
    | Post(plan: Plan, eventId: string)
    | Poll(worker: nat, user: string)
    | Apply(worker: nat, id: string)
    | MarkDone(worker: nat, id: string)

  /** The documented order applies before it marks; the other applies only after a True mark. */
  datatype Order = ApplyFirst | MarkFirst

  predicate Allowed(order: Order, f: Floor, step: Step) {
    match step
    case Apply(w, id) => (w, id) in (if order == ApplyFirst then f.polled else f.won)
    case MarkDone(w, id) => (w, id) in (if order == ApplyFirst then f.did else f.polled)
    case _ => true
  }

  function Polled(state: PlanState, worker: nat, user: string): set<Claim> {
    set p | p in Unapplied(state, user) :: (worker, p.planId)
  }

  function NextFloor(f: Floor, step: Step): Floor {
    match step
    case Post(plan, eventId) => f.(state := Next(f.state, Create(plan, eventId)))
    case Poll(w, user) => f.(polled := f.polled + Polled(f.state, w, user))
    case Apply(w, id) => f.(applied := f.applied + [id], did := f.did + {(w, id)}, won := f.won - {(w, id)})
    case MarkDone(w, id) =>
      f.(won := if CanMark(f.state, id) then f.won + {(w, id)} else f.won, state := MarkPlan(f.state, id))
  }

  /** What a step of a worker does, entry by entry. */
  lemma {:induction false} StepsMean(f: Floor, step: Step)
    ensures
      var g := NextFloor(f, step);
      match step
      case Post(plan, eventId) =>
        && g == f.(state := g.state)
        && g.state.plans == if plan.planId in f.state.plans || eventId in f.state.events then f.state.plans
                            else f.state.plans[plan.planId := plan]
      case Poll(w, user) =>
        && g == f.(polled := g.polled)
        && forall c: Claim :: c in g.polled <==>
             c in f.polled || (c.0 == w && c.1 in f.state.plans && f.state.plans[c.1].userId == user &&
               f.state.plans[c.1].status == "created")
      case Apply(w, id) =>
        && g.applied == f.applied + [id] && g.state == f.state && g.polled == f.polled
        && (forall c: Claim :: c in g.did <==> c in f.did || c == (w, id))
        && (forall c: Claim :: c in g.won <==> c in f.won && c != (w, id))
      case MarkDone(w, id) =>
        var wins := id in f.state.plans && f.state.plans[id].status == "created";
        && g.applied == f.applied && g.polled == f.polled && g.did == f.did && g.state.events == f.state.events
        && (forall c: Claim :: c in g.won <==> c in f.won || (wins && c == (w, id)))
        && g.state.plans == if wins then f.state.plans[id := f.state.plans[id].(status := "applied")]
                            else f.state.plans
  {
    if step.Poll? {
      forall c: Claim ensures c in Polled(f.state, step.worker, step.user) <==>
        c.0 == step.worker && c.1 in f.state.plans && f.state.plans[c.1].userId == step.user &&
          f.state.plans[c.1].status == "created"
      {
        if c.1 in f.state.plans { UnappliedMeans(f.state, step.user, f.state.plans[c.1]); }
      }
    }
  }

  predicate Obeys(order: Order, f: Floor, steps: seq<Step>)
    decreases |steps|
  {
    steps != [] ==> Allowed(order, f, steps[0]) && Obeys(order, NextFloor(f, steps[0]), steps[1..])
  }

  function RunFloor(f: Floor, steps: seq<Step>): Floor
    decreases |steps|
  {
    if steps == [] then f else RunFloor(NextFloor(f, steps[0]), steps[1..])
  }

  /** Nobody has started on any plan of these tables. */
  function Fresh(state: PlanState): Floor {
    Floor(state, {}, {}, {}, [])
  }

  function Times(applied: seq<string>, id: string): nat {
    multiset(applied)[id]
  }

  /** A plan that was applied, or may be applied, is stored and waits no longer. */
  ghost predicate Decided(f: Floor, id: string) {
    id in f.state.plans && f.state.plans[id].status != STATUS_CREATED
  }

  // Marking first: at most once.

  ghost predicate OnceInv(f: Floor) {
    && (forall id :: Times(f.applied, id) <= 1)
    && (forall id | id in f.applied :: Decided(f, id))
    && (forall c | c in f.won :: Decided(f, c.1) && c.1 !in f.applied)
    && (forall c, d | c in f.won && d in f.won && c.1 == d.1 :: c == d)
  }

  lemma DecidedStays(f: Floor, step: Step, id: string)
    requires Decided(f, id)
    ensures Decided(NextFloor(f, step), id)
  {
    if step.MarkDone? { assert STATUS_APPLIED[0] != STATUS_CREATED[0]; }
  }

  lemma MarkDecides(f: Floor, w: nat, id: string)
    requires CanMark(f.state, id)
    ensures Decided(NextFloor(f, MarkDone(w, id)), id)
  {
    assert STATUS_APPLIED[0] != STATUS_CREATED[0];
  }

  lemma OneMoreTime(applied: seq<string>, id: string, other: string)
    ensures Times(applied + [id], other) == Times(applied, other) + (if other == id then 1 else 0)
    ensures id !in applied ==> Times(applied, id) == 0
  {
  }

  lemma StepKeepsOnce(f: Floor, step: Step)
    requires OnceInv(f) && Allowed(MarkFirst, f, step)
    ensures OnceInv(NextFloor(f, step))
  {
    var g := NextFloor(f, step);
    forall id | Decided(f, id) ensures Decided(g, id) { DecidedStays(f, step, id); }
    match step
    case Apply(w, id) =>
      assert (w, id) in f.won;
      forall other ensures Times(g.applied, other) <= 1 { OneMoreTime(f.applied, id, other); }
      forall c | c in g.won ensures c.1 !in g.applied { assert c.1 == id ==> c == (w, id); }
    case MarkDone(w, id) =>
      if CanMark(f.state, id) { MarkDecides(f, w, id); }
    case _ =>
  }

  lemma {:induction false} RunKeepsOnce(f: Floor, steps: seq<Step>)
    requires OnceInv(f) && Obeys(MarkFirst, f, steps)
    ensures OnceInv(RunFloor(f, steps))
    decreases |steps|
  {
    if steps != [] {
      StepKeepsOnce(f, steps[0]);
      RunKeepsOnce(NextFloor(f, steps[0]), steps[1..]);
    }
  }

  /** Workers that apply a plan only after their own mark was answered True apply no plan twice. */
  lemma {:induction false} MarkFirstAppliesOnce(state: PlanState, steps: seq<Step>, id: string)
    requires Obeys(MarkFirst, Fresh(state), steps)
    ensures Times(RunFloor(Fresh(state), steps).applied, id) <= 1
  {
    RunKeepsOnce(Fresh(state), steps);
  }

  // Applying first, as documented: at least once, and any number of times.

  ghost predicate DoneWasApplied(f: Floor) {
    forall c | c in f.did :: c.1 in f.applied
  }

  lemma {:induction false} AppliedBeforeMarked(f: Floor, steps: seq<Step>, id: string)
    requires DoneWasApplied(f) && Obeys(ApplyFirst, f, steps)
    requires id in f.applied || CanMark(f.state, id)
    ensures id in RunFloor(f, steps).applied || CanMark(RunFloor(f, steps).state, id)
    decreases |steps|
  {
    if steps != [] {
      var g := NextFloor(f, steps[0]);
      assert id in f.applied ==> id in g.applied;
      AppliedBeforeMarked(g, steps[1..], id);
    }
  }

  /** Workers that apply before they mark never mark a waiting plan that nobody has applied. */
  lemma {:induction false} ApplyFirstAppliesAtLeastOnce(state: PlanState, steps: seq<Step>, id: string)
    requires CanMark(state, id) && Obeys(ApplyFirst, Fresh(state), steps)
    ensures CanMark(RunFloor(Fresh(state), steps).state, id) || Times(RunFloor(Fresh(state), steps).applied, id) >= 1
  {
    AppliedBeforeMarked(Fresh(state), steps, id);
  }

  /** Workers n - 1 down to 0 poll, then the rest of the run. */
  function Polls(n: nat, user: string): seq<Step> {
    if n == 0 then [] else [Poll(n - 1, user)] + Polls(n - 1, user)
  }

  function Applies(n: nat, id: string): seq<Step> {
    if n == 0 then [] else [Apply(n - 1, id)] + Applies(n - 1, id)
  }

  function Repeated(n: nat, id: string): seq<string> {
    if n == 0 then [] else [id] + Repeated(n - 1, id)
  }

  lemma FirstStep(order: Order, f: Floor, step: Step, rest: seq<Step>)
    requires Allowed(order, f, step) && Obeys(order, NextFloor(f, step), rest)
    ensures Obeys(order, f, [step] + rest) && RunFloor(f, [step] + rest) == RunFloor(NextFloor(f, step), rest)
  {
    assert ([step] + rest)[1..] == rest;
  }

  lemma {:induction false} RunJoins(order: Order, f: Floor, a: seq<Step>, b: seq<Step>)
    requires Obeys(order, f, a) && Obeys(order, RunFloor(f, a), b)
    ensures Obeys(order, f, a + b) && RunFloor(f, a + b) == RunFloor(RunFloor(f, a), b)
    decreases |a|
  {
    if a == [] {
      assert a + b == b;
    } else {
      assert (a + b)[1..] == a[1..] + b;
      RunJoins(order, NextFloor(f, a[0]), a[1..], b);
    }
  }

  ghost predicate AllPolled(f: Floor, n: nat, id: string) {
    forall w: nat | w < n :: (w, id) in f.polled
  }

  lemma PollFinds(f: Floor, w: nat, id: string)
    requires CanMark(f.state, id)
    ensures
      var g := NextFloor(f, Poll(w, f.state.plans[id].userId));
      g.state == f.state && g.applied == f.applied && f.polled <= g.polled && (w, id) in g.polled
  {
    assert f.state.plans[id] in Unapplied(f.state, f.state.plans[id].userId);
  }

  lemma {:induction false} AllPoll(f: Floor, n: nat, id: string) returns (g: Floor)
    requires CanMark(f.state, id)
    ensures Obeys(ApplyFirst, f, Polls(n, f.state.plans[id].userId))
    ensures g == RunFloor(f, Polls(n, f.state.plans[id].userId))
    ensures g.state == f.state && g.applied == f.applied && f.polled <= g.polled && AllPolled(g, n, id)
    decreases n
  {
    g := f;
    if n > 0 {
      var step := Poll(n - 1, f.state.plans[id].userId);
      PollFinds(f, n - 1, id);
      g := AllPoll(NextFloor(f, step), n - 1, id);
      FirstStep(ApplyFirst, f, step, Polls(n - 1, f.state.plans[id].userId));
    }
  }

  lemma {:induction false} AllApply(f: Floor, n: nat, id: string)
    requires AllPolled(f, n, id)
    ensures Obeys(ApplyFirst, f, Applies(n, id))
    ensures RunFloor(f, Applies(n, id)).applied == f.applied + Repeated(n, id)
    ensures RunFloor(f, Applies(n, id)).state == f.state
    decreases n
  {
    if n > 0 {
      AllApply(NextFloor(f, Apply(n - 1, id)), n - 1, id);
      FirstStep(ApplyFirst, f, Apply(n - 1, id), Applies(n - 1, id));
      assert f.applied + [id] + Repeated(n - 1, id) == f.applied + Repeated(n, id);
    } else {
      assert f.applied + [] == f.applied;
    }
  }

  lemma {:induction false} RepeatedTimes(n: nat, id: string)
    ensures Times(Repeated(n, id), id) == n
  {
    if n > 0 { RepeatedTimes(n - 1, id); }
  }

  /**
   In the documented order every one of n racing workers may apply the same waiting plan
   before the first of them marks it.
   */
  lemma {:induction false} ApplyFirstAppliesManyTimes(state: PlanState, id: string, n: nat) returns (steps: seq<Step>)
    requires CanMark(state, id)
    ensures Obeys(ApplyFirst, Fresh(state), steps)
    ensures Times(RunFloor(Fresh(state), steps).applied, id) == n
  {
    var polls := Polls(n, state.plans[id].userId);
    var f := AllPoll(Fresh(state), n, id);
    AllApply(f, n, id);
    RunJoins(ApplyFirst, Fresh(state), polls, Applies(n, id));
    steps := polls + Applies(n, id);
    assert [] + Repeated(n, id) == Repeated(n, id);
    RepeatedTimes(n, id);
  }

  /**
   The order decides: over all runs from tables with a waiting plan, marking first bounds
   its applications by one, applying first by nothing.
   */
  lemma {:induction false} AppliedAtMostOnceIff(order: Order, state: PlanState, id: string)
    requires CanMark(state, id)
    ensures order == MarkFirst <==>
      forall steps | Obeys(order, Fresh(state), steps) :: Times(RunFloor(Fresh(state), steps).applied, id) <= 1
  {
    if order == MarkFirst {
      forall steps | Obeys(order, Fresh(state), steps) ensures Times(RunFloor(Fresh(state), steps).applied, id) <= 1 {
        MarkFirstAppliesOnce(state, steps, id);
      }
    } else {
      var steps := ApplyFirstAppliesManyTimes(state, id, 2);
    }
  }

  /** A worker that marks and then crashes leaves the plan to nobody. */
  lemma {:induction false} MarkFirstMayLose(state: PlanState, id: string) returns (steps: seq<Step>)
    requires CanMark(state, id)
    ensures Obeys(MarkFirst, Fresh(state), steps)
    ensures !CanMark(RunFloor(Fresh(state), steps).state, id) && Times(RunFloor(Fresh(state), steps).applied, id) == 0
  {
    var poll, mark := Poll(0, state.plans[id].userId), MarkDone(0, id);
    steps := [poll, mark];
    var f := NextFloor(Fresh(state), poll);
    assert state.plans[id] in Unapplied(state, state.plans[id].userId) && (0, id) in f.polled;
    assert steps[1..] == [mark] && [mark][1..] == [];
    var g := NextFloor(f, mark);
    assert RunFloor(g, []) == g && RunFloor(f, [mark]) == g && RunFloor(Fresh(state), steps) == g;
    MarkDecides(f, 0, id);
  }

  /** The other half: applying first, and only that, leaves no plan marked and unapplied. */
  lemma {:induction false} AppliedAtLeastOnceIff(order: Order, state: PlanState, id: string)
    requires CanMark(state, id)
    ensures order == ApplyFirst <==>
      forall steps | Obeys(order, Fresh(state), steps) ::
        CanMark(RunFloor(Fresh(state), steps).state, id) || Times(RunFloor(Fresh(state), steps).applied, id) >= 1
  {
    if order == ApplyFirst {
      forall steps | Obeys(order, Fresh(state), steps)
        ensures CanMark(RunFloor(Fresh(state), steps).state, id) ||
          Times(RunFloor(Fresh(state), steps).applied, id) >= 1
      {
        ApplyFirstAppliesAtLeastOnce(state, steps, id);
      }
    } else {
      var steps := MarkFirstMayLose(state, id);
    }
  }
}
