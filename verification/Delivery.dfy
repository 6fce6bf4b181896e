/**
 The event log as a delivery protocol: one consumer reads, processes, acks and
 crashes while producers append and other consumers move their own cursors.
 */
module Delivery {
  import opened Results
  import opened Ordering
  import opened EventLog

  /** A consumer polls under one name with one fixed filter. */
  datatype Consumer = Consumer(name: string, filter: Filter)

  /**
   The shared log, the batch in the consumer's memory with the number of its
   events processed so far, the ids of all events ever processed, and the ids
   at or below the user's tail when the consumer was started there.
   */
  datatype World = World(log: Log, batch: seq<Event>, done: nat, processed: set<string>, history: set<string>)

  datatype Step =
    | Append(event: Event)
    | Fetch(limit: nat)
    | Process
    | AckNth(k: nat, now: int)
    | Crash
    | StartAtTail(user: string, now: int)
    | OtherAck(name: string, eventId: string, now: int)

  predicate Enabled(c: Consumer, w: World, step: Step) {
    match step
    case Process => w.done < |w.batch|
    case AckNth(k, _) => k < w.done && k < |w.batch|
    case StartAtTail(_, _) => w.batch == []
    case OtherAck(name, _, _) => name != c.name
    case _ => true
  }

  /** The events that a start at the tail gives up: those not ordered above it, and none when there is no tail. */
  function UpToTail(events: Events, tail: Option<string>): set<string> {
    set id | id in events && tail.Some? && !IsAfter(events, tail, events[id])
  }

  function Next(c: Consumer, w: World, step: Step): World
    requires Enabled(c, w, step)
  {
    match step
    case Append(e) =>
      (match AppendEvent(w.log, e)
       case Ok(log) => w.(log := log)
       case Err(_) => w)
    case Fetch(limit) => w.(batch := ReadForConsumer(w.log, c.name, limit, c.filter), done := 0)
    case Process => w.(done := w.done + 1, processed := w.processed + {w.batch[w.done].eventId})
    case AckNth(k, now) => w.(log := AckCursor(w.log, c.name, w.batch[k].eventId, now))
    case Crash => w.(batch := [], done := 0)
    case StartAtTail(user, now) =>
      var log := InitializeAtTail(w.log, c.name, user, now);
      w.(log := log,
         history := if c.name in w.log.offsets then w.history else UpToTail(w.log.events, CursorOf(log, c.name)))
    case OtherAck(name, id, now) => w.(log := AckCursor(w.log, name, id, now))
  }

  /** What a step does: to the tables row by row, to the batch, and to the notes kept of what was processed. */
  lemma {:induction false} StepsMean(c: Consumer, w: World, step: Step)
    requires Enabled(c, w, step)
    ensures
      var w' := Next(c, w, step);
      var before, after := w.log.offsets, w'.log.offsets;
      match step
      case Append(e) => w' == w.(log := w'.log) && after == before && w.log.events.Keys <= w'.log.events.Keys
      case Fetch(limit) =>
        && w' == w.(batch := w'.batch, done := 0)
        && var all := PendingInOrder(w.log.events, if c.name in before then before[c.name].lastEventId else None,
             c.filter);
           w'.batch == if limit < |all| then all[..limit] else all
      case Process =>
        w' == w.(done := w.done + 1, processed := w'.processed) &&
        forall id :: id in w'.processed <==> id in w.processed || id == w.batch[w.done].eventId
      case AckNth(k, now) =>
        w' == w.(log := w'.log) && w'.log.events == w.log.events &&
        after == before[c.name := Offset(Some(w.batch[k].eventId), now)]
      case Crash => w' == w.(batch := [], done := 0)
      case StartAtTail(user, now) =>
        && w' == w.(log := w'.log, history := w'.history) && w'.log.events == w.log.events
        && if c.name in before then w' == w
           else
             && c.name in after && after == before[c.name := Offset(after[c.name].lastEventId, now)]
             && IsTailOf(w.log.events, user, after[c.name].lastEventId)
      case OtherAck(name, id, now) =>
        w' == w.(log := w'.log) && w'.log.events == w.log.events && after == before[name := Offset(Some(id), now)]
  {
    if step.StartAtTail? { UserTailIsNewest(w.log.events, step.user); }
  }

  /** The newest event of the user, or nothing when there is none. */
  ghost predicate IsTailOf(events: Events, user: string, tail: Option<string>) {
    match tail
    case None => forall id | id in events :: events[id].userId != Some(user)
    case Some(last) => IsNewestOf(events, user, last)
  }

  predicate Settled(w: World, e: Event) {
    e.eventId in w.processed || e.eventId in w.history
  }

  /** `e` is ordered above the row that the cursor names. */
  predicate AboveCursor(c: Consumer, w: World, e: Event) {
    var cursor := CursorOf(w.log, c.name);
    cursor.Some? ==> cursor.value in w.log.events && KeyLt(w.log.events[cursor.value], e)
  }

  /** No loss: every matching event the cursor has passed has been dealt with. */
  predicate Safe(c: Consumer, w: World) {
    forall id | id in w.log.events && Matches(c.filter, w.log.events[id]) ::
      AboveCursor(c, w, w.log.events[id]) || Settled(w, w.log.events[id])
  }

  /** `e` is ordered above everything this consumer has passed or holds in its batch. */
  predicate AboveFrontier(c: Consumer, w: World, e: Event) {
    && AboveCursor(c, w, e)
    && (w.batch != [] ==> KeyLt(w.batch[|w.batch| - 1], e))
  }

  /** An append is timely when the new event, if the consumer wants it, is above its frontier. */
  predicate Timely(c: Consumer, w: World, step: Step) {
    step.Append? && AppendEvent(w.log, step.event).Ok? && Matches(c.filter, step.event) ==>
      AboveFrontier(c, w, step.event)
  }

  predicate Lawful(c: Consumer, w: World, steps: seq<Step>)
    decreases |steps|
  {
    steps != [] ==>
      && Enabled(c, w, steps[0])
      && Timely(c, w, steps[0])
      && Lawful(c, Next(c, w, steps[0]), steps[1..])
  }

  function Run(c: Consumer, w: World, steps: seq<Step>): World
    requires Lawful(c, w, steps)
    decreases |steps|
  {
    if steps == [] then w else Run(c, Next(c, w, steps[0]), steps[1..])
  }

  ghost predicate BatchOk(c: Consumer, w: World) {
    && w.done <= |w.batch|
    && (forall i | 0 <= i < |w.batch| ::
          w.batch[i].eventId in w.log.events && w.log.events[w.batch[i].eventId] == w.batch[i])
    && (forall i, j | 0 <= i < j < |w.batch| :: KeyLt(w.batch[i], w.batch[j]))
    && (forall i | 0 <= i < w.done :: w.batch[i].eventId in w.processed)
  }

  /** Nothing below the end of the batch is missing from it, except what is settled. */
  ghost predicate BatchIsGapless(c: Consumer, w: World) {
    forall id | id in w.log.events && Matches(c.filter, w.log.events[id]) && w.batch != [] ::
      || KeyLt(w.batch[|w.batch| - 1], w.log.events[id])
      || Settled(w, w.log.events[id])
      || w.log.events[id] in w.batch
  }

  ghost predicate Inv(c: Consumer, w: World) {
    && Safe(c, w)
    && BatchOk(c, w)
    && BatchIsGapless(c, w)
    && (CursorOf(w.log, c.name).Some? ==> CursorOf(w.log, c.name).value in w.log.events)
    && w.processed + w.history <= w.log.events.Keys
  }

  function Start(): World {
    World(Log(map[], map[]), [], 0, {}, {})
  }

  lemma FetchKeepsInv(c: Consumer, w: World, limit: nat)
    requires Inv(c, w)
    ensures Inv(c, Next(c, w, Fetch(limit)))
  {
    var w' := Next(c, w, Fetch(limit));
    var cursor := CursorOf(w.log, c.name);
    var all := PendingInOrder(w.log.events, cursor, c.filter);
    assert w'.batch == Take(all, limit);
    forall e | e in all ensures e.eventId in w.log.events && w.log.events[e.eventId] == e {
      assert e in Pending(w.log.events, cursor, c.filter);
    }
    forall id | id in w.log.events && Matches(c.filter, w.log.events[id]) && w'.batch != []
      ensures KeyLt(w'.batch[|w'.batch| - 1], w.log.events[id]) || Settled(w', w.log.events[id]) ||
        w.log.events[id] in w'.batch
    {
      var e := w.log.events[id];
      if AboveCursor(c, w, e) {
        assert e in Pending(w.log.events, cursor, c.filter);
        var i :| 0 <= i < |all| && all[i] == e;
        if i < |w'.batch| { assert w'.batch[i] == e; }
      }
    }
  }

  lemma ProcessKeepsInv(c: Consumer, w: World)
    requires Inv(c, w) && Enabled(c, w, Process)
    ensures Inv(c, Next(c, w, Process))
  {
  }

  /** What is not ordered above the k-th event of a batch is not above its end, and is in the batch only up to k. */
  lemma NotAboveKth(batch: seq<Event>, k: nat, e: Event)
    requires forall i, j | 0 <= i < j < |batch| :: KeyLt(batch[i], batch[j])
    requires k < |batch| && !KeyLt(batch[k], e)
    ensures !KeyLt(batch[|batch| - 1], e)
    ensures e in batch ==> e in batch[..k + 1]
  {
    if k < |batch| - 1 && KeyLt(batch[|batch| - 1], e) { KeyLtTransitive(batch[k], batch[|batch| - 1], e); }
    if i :| 0 <= i < |batch| && batch[i] == e { assert i <= k && batch[..k + 1][i] == e; }
  }

  lemma AckKeepsInv(c: Consumer, w: World, k: nat, now: int)
    requires Inv(c, w) && Enabled(c, w, AckNth(k, now))
    ensures Inv(c, Next(c, w, AckNth(k, now)))
  {
    var w' := Next(c, w, AckNth(k, now));
    forall id | id in w.log.events && Matches(c.filter, w.log.events[id]) && !AboveCursor(c, w', w.log.events[id])
      ensures Settled(w', w.log.events[id])
    {
      NotAboveKth(w.batch, k, w.log.events[id]);
    }
  }

  /** A successful append leaves the invariant intact when it is above the frontier or unwanted. */
  lemma AppendKeepsInv(c: Consumer, w: World, e: Event)
    requires Inv(c, w) && Timely(c, w, Append(e))
    ensures Inv(c, Next(c, w, Append(e)))
  {
    var w' := Next(c, w, Append(e));
    if w' != w {
      var cursor := CursorOf(w.log, c.name);
      assert CursorOf(w'.log, c.name) == cursor;
      forall id | id in w'.log.events && Matches(c.filter, w'.log.events[id])
        ensures AboveCursor(c, w', w'.log.events[id]) || Settled(w', w'.log.events[id])
      {
        if id != e.eventId { assert id in w.log.events; }
      }
    }
  }

  lemma StartAtTailKeepsInv(c: Consumer, w: World, user: string, now: int)
    requires Inv(c, w) && Enabled(c, w, StartAtTail(user, now))
    ensures Inv(c, Next(c, w, StartAtTail(user, now)))
  {
    var events := w.log.events;
    var mine := set id | id in events && events[id].userId == Some(user) :: events[id];
    KeyLtIsTotal(events, mine);
    var newest := Take(InOrder(KeyGt, mine), 1);
    if newest != [] { assert newest[0] in mine; }
  }

  lemma {:induction false} StepKeepsInv(c: Consumer, w: World, step: Step)
    requires Inv(c, w) && Enabled(c, w, step) && Timely(c, w, step)
    ensures Inv(c, Next(c, w, step))
  {
    match step
    case Append(e) => AppendKeepsInv(c, w, e);
    case Fetch(limit) => FetchKeepsInv(c, w, limit);
    case Process => ProcessKeepsInv(c, w);
    case AckNth(k, now) => AckKeepsInv(c, w, k, now);
    case Crash =>
    case StartAtTail(user, now) => StartAtTailKeepsInv(c, w, user, now);
    case OtherAck(name, id, now) =>
      assert CursorOf(Next(c, w, step).log, c.name) == CursorOf(w.log, c.name);
  }

  lemma {:induction false} RunKeepsInv(c: Consumer, w: World, steps: seq<Step>)
    requires Inv(c, w) && Lawful(c, w, steps)
    ensures Inv(c, Run(c, w, steps))
    decreases |steps|
  {
    if steps != [] {
      StepKeepsInv(c, w, steps[0]);
      RunKeepsInv(c, Next(c, w, steps[0]), steps[1..]);
    }
  }

  /** Producers that always append above every event already in the log. */
  predicate KeysIncrease(c: Consumer, w: World, steps: seq<Step>)
    decreases |steps|
  {
    steps != [] ==>
      && Enabled(c, w, steps[0])
      && (steps[0].Append? ==> forall id | id in w.log.events :: KeyLt(w.log.events[id], steps[0].event))
      && KeysIncrease(c, Next(c, w, steps[0]), steps[1..])
  }

  lemma {:induction false} IncreasingKeysAreLawful(c: Consumer, w: World, steps: seq<Step>)
    requires Inv(c, w) && KeysIncrease(c, w, steps)
    ensures Lawful(c, w, steps)
    decreases |steps|
  {
    if steps != [] {
      assert Timely(c, w, steps[0]);
      StepKeepsInv(c, w, steps[0]);
      IncreasingKeysAreLawful(c, Next(c, w, steps[0]), steps[1..]);
    }
  }

  /**
   No event is lost.  From the empty log, under every interleaving of increasing
   appends, fetches, processing in order, acks of processed events, crashes and
   foreign acks, every matching event the cursor has reached was processed (or
   was at or below the tail that the consumer was started at), so whatever is not
   yet processed is still among the rows the next read selects from.
   */
  lemma {:induction false} NoEventIsLost(c: Consumer, steps: seq<Step>)
    requires KeysIncrease(c, Start(), steps)
    ensures Lawful(c, Start(), steps) && Safe(c, Run(c, Start(), steps))
    ensures var w := Run(c, Start(), steps);
      forall id | id in w.log.events && Matches(c.filter, w.log.events[id]) && !Settled(w, w.log.events[id]) ::
        w.log.events[id] in PendingInOrder(w.log.events, CursorOf(w.log, c.name), c.filter)
  {
    IncreasingKeysAreLawful(c, Start(), steps);
    RunKeepsInv(c, Start(), steps);
  }

  // The schedule that loses a late event: process the rest of the batch and ack its end.

  function FinishBatch(w: World): seq<Step>
    requires w.batch != [] && w.done <= |w.batch|
    decreases |w.batch| - w.done
  {
    if w.done == |w.batch| then [AckNth(|w.batch| - 1, 0)]
    else [Process] + FinishBatch(w.(done := w.done + 1, processed := w.processed + {w.batch[w.done].eventId}))
  }

  lemma {:induction false} FinishBatchLoses(c: Consumer, w: World, e: Event)
    requires w.batch != [] && BatchOk(c, w)
    requires e.eventId in w.log.events && w.log.events[e.eventId] == e && Matches(c.filter, e)
    requires !KeyLt(w.batch[|w.batch| - 1], e)
    requires !Settled(w, e) && e !in w.batch
    ensures Lawful(c, w, FinishBatch(w)) && !Safe(c, Run(c, w, FinishBatch(w)))
    decreases |w.batch| - w.done
  {
    if w.done == |w.batch| {
      var steps := FinishBatch(w);
      assert steps[1..] == [];
      var w' := Next(c, w, steps[0]);
      assert Run(c, w, steps) == w';
      assert !AboveCursor(c, w', e);
    } else {
      var w' := Next(c, w, Process);
      var steps := FinishBatch(w);
      assert steps[0] == Process && steps[1..] == FinishBatch(w');
      assert w.batch[w.done].eventId != e.eventId;
      FinishBatchLoses(c, w', e);
    }
  }

  /** A wanted event appended at or below the frontier is lost by some lawful continuation. */
  lemma {:induction false} LateAppendIsLost(c: Consumer, w: World, e: Event) returns (steps: seq<Step>)
    requires Inv(c, w) && AppendEvent(w.log, e).Ok? && Matches(c.filter, e)
    requires !AboveFrontier(c, w, e)
    ensures Lawful(c, Next(c, w, Append(e)), steps)
    ensures !Safe(c, Run(c, Next(c, w, Append(e)), steps))
  {
    var w' := Next(c, w, Append(e));
    assert w'.log.events[e.eventId] == e && !Settled(w', e);
    assert CursorOf(w'.log, c.name) == CursorOf(w.log, c.name);
    if !AboveCursor(c, w, e) {
      steps := [];
      assert !AboveCursor(c, w', e);
    } else {
      steps := FinishBatch(w');
      FinishBatchLoses(c, w', e);
    }
  }

  /** No further lawful run loses an event. */
  ghost predicate NeverLoses(c: Consumer, w: World) {
    forall steps | Lawful(c, w, steps) :: Safe(c, Run(c, w, steps))
  }

  /**
   Exactly when an append is safe for a consumer: after it, every further lawful
   run is free of loss if and only if the event was refused, is unwanted, or is
   ordered above the consumer's cursor and above the end of the batch it holds.
   */
  lemma {:induction false} AppendIsSafeIff(c: Consumer, w: World, e: Event)
    requires Inv(c, w)
    ensures (AppendEvent(w.log, e).Ok? && Matches(c.filter, e) ==> AboveFrontier(c, w, e)) <==>
      NeverLoses(c, Next(c, w, Append(e)))
  {
    var w' := Next(c, w, Append(e));
    if Timely(c, w, Append(e)) {
      AppendKeepsInv(c, w, e);
      forall steps | Lawful(c, w', steps) ensures Safe(c, Run(c, w', steps)) {
        RunKeepsInv(c, w', steps);
      }
    } else {
      var steps := LateAppendIsLost(c, w, e);
      assert !Safe(c, Run(c, w', steps));
    }
  }

  lemma {:induction false} RunStep(c: Consumer, w: World, step: Step, rest: seq<Step>)
    requires Enabled(c, w, step) && Timely(c, w, step) && Lawful(c, Next(c, w, step), rest)
    ensures Lawful(c, w, [step] + rest) && Run(c, w, [step] + rest) == Run(c, Next(c, w, step), rest)
  {
    assert ([step] + rest)[1..] == rest;
  }

  /** A run of one batch: two events come in, both are read, the first is processed. */
  lemma TwoComeIn(c: Consumer, a: Event, b: Event) returns (steps: seq<Step>)
    requires KeyLt(a, b) && a.eventId != b.eventId && Matches(c.filter, a) && Matches(c.filter, b)
    requires !("rank." <= a.kind) && !("rank." <= b.kind)
    ensures Lawful(c, Start(), steps)
    ensures Run(c, Start(), steps) ==
      World(Log(map[a.eventId := a, b.eventId := b], map[]), [a, b], 1, {a.eventId}, {})
  {
    var one := World(Log(map[a.eventId := a], map[]), [], 0, {}, {});
    var two := World(Log(map[a.eventId := a, b.eventId := b], map[]), [], 0, {}, {});
    var read := two.(batch := [a, b]);
    assert Next(c, Start(), Append(a)) == one && Next(c, one, Append(b)) == two;
    TwoAreRead(c, a, b);
    assert Next(c, two, Fetch(2)) == read;
    RunStep(c, read, Process, []);
    RunStep(c, two, Fetch(2), [Process]);
    RunStep(c, one, Append(b), [Fetch(2)] + [Process]);
    RunStep(c, Start(), Append(a), [Append(b)] + ([Fetch(2)] + [Process]));
    steps := [Append(a)] + ([Append(b)] + ([Fetch(2)] + [Process]));
  }

  lemma TwoAreRead(c: Consumer, a: Event, b: Event)
    requires KeyLt(a, b) && a.eventId != b.eventId && Matches(c.filter, a) && Matches(c.filter, b)
    ensures
      var events: Events := map[a.eventId := a, b.eventId := b];
      ReadAfter(events, None, 2, c.filter) == [a, b]
  {
    var events: Events := map[a.eventId := a, b.eventId := b];
    assert events[a.eventId] == a && events[b.eventId] == b;
    assert Pending(events, None, c.filter) == {a, b};
    KeyLtIsTotal(events, {a, b});
    assert Lists(KeyLt, {a, b}, [a, b]);
    ListingUnique(KeyLt, {a, b}, PendingInOrder(events, None, c.filter), [a, b]);
  }

  /**
   Two producers whose commits land out of order, in a run from the empty log:
   "b" is stored after "c" was read, and finishing the batch skips it.
   */
  lemma {:induction false} LateEventExample() returns (c: Consumer, steps: seq<Step>, e: Event, rest: seq<Step>)
    ensures Lawful(c, Start(), steps)
    ensures
      var w := Run(c, Start(), steps);
      && AppendEvent(w.log, e).Ok? && Matches(c.filter, e)
      && Lawful(c, Next(c, w, Append(e)), rest)
      && !Safe(c, Run(c, Next(c, w, Append(e)), rest))
  {
    var first := Event("a", None, None, None, "job.placed", [], 1);
    var third := Event("c", None, None, None, "job.placed", [], 3);
    e := Event("b", None, None, None, "job.placed", [], 2);
    assert "rank."[0] == 'r' && e.kind[0] == 'j';
    c := Consumer("koi", Filter({}, None));
    assert |"a"| == 1 && "a"[0] == 'a' && "b"[0] == 'b' && "c"[0] == 'c';
    steps := TwoComeIn(c, first, third);
    var w := Run(c, Start(), steps);
    RunKeepsInv(c, Start(), steps);
    rest := LateAppendIsLost(c, w, e);
  }
}
