/**
 Catching up: with no appends, a consumer that reads and acks the last event of
 each batch.  A cursor whose row is gone falls back to comparing event ids.
 */
module Draining {
  import opened Results
  import opened Ordering
  import opened Text
  import opened EventLog

  function Concat(batches: seq<seq<Event>>): seq<Event> {
    if batches == [] then [] else batches[0] + Concat(batches[1..])
  }

  /** The cursor is unset or names a row of the table. */
  predicate CursorPresent(log: Log, name: string) {
    var cursor := CursorOf(log, name);
    cursor.Some? ==> cursor.value in log.events
  }

  function Backlog(log: Log, name: string, f: Filter): seq<Event> {
    PendingInOrder(log.events, CursorOf(log, name), f)
  }

  function Above(events: Events, e: Event, f: Filter): set<Event> {
    set id | id in events && KeyLt(e, events[id]) && Matches(f, events[id]) :: events[id]
  }

  /** After acking a row of the table, what is left is everything ordered above it. */
  lemma PendingAfterAck(log: Log, name: string, f: Filter, e: Event, now: int)
    requires e.eventId in log.events && log.events[e.eventId] == e
    ensures Pending(log.events, CursorOf(AckCursor(log, name, e.eventId, now), name), f) == Above(log.events, e, f)
  {
  }

  /**
   The measure of catching up: acking any row of a batch leaves fewer rows to read, from
   any cursor that is present.
   */
  lemma {:induction false} BacklogAfterAck(log: Log, name: string, f: Filter, k: nat, now: int)
    requires CursorPresent(log, name) && k < |Backlog(log, name, f)|
    ensures Backlog(AckCursor(log, name, Backlog(log, name, f)[k].eventId, now), name, f) ==
      Backlog(log, name, f)[k + 1..]
  {
    var cursor := CursorOf(log, name);
    var all := Pending(log.events, cursor, f);
    var e := Backlog(log, name, f)[k];
    KeyLtIsTotal(log.events, all);
    assert e in all;
    PendingAfterAck(log, name, f, e, now);
    NothingBelowTheCursor(log, name, f, e);
    InOrderAbove(KeyLt, all, k);
  }

  /** What is ordered above a pending row is pending, when the cursor is present. */
  lemma NothingBelowTheCursor(log: Log, name: string, f: Filter, e: Event)
    requires CursorPresent(log, name) && e in Pending(log.events, CursorOf(log, name), f)
    ensures AboveIn(KeyLt, Pending(log.events, CursorOf(log, name), f), e) == Above(log.events, e, f)
  {
    var cursor := CursorOf(log, name);
    forall x | x in Above(log.events, e, f) ensures x in Pending(log.events, cursor, f) {
      if cursor.Some? { KeyLtTransitive(log.events[cursor.value], e, x); }
    }
  }

  lemma BatchRowsAreStored(log: Log, name: string, f: Filter)
    ensures forall e | e in Backlog(log, name, f) :: e.eventId in log.events && log.events[e.eventId] == e
  {
    forall e | e in Backlog(log, name, f)
      ensures e.eventId in log.events && log.events[e.eventId] == e
    {
      assert e in Pending(log.events, CursorOf(log, name), f);
    }
  }

  lemma AckedRowIsNotAbove(log: Log, name: string, f: Filter, e: Event, now: int)
    requires e.eventId in log.events && log.events[e.eventId] == e && Matches(f, e)
    ensures CursorPresent(AckCursor(log, name, e.eventId, now), name)
    ensures |Above(log.events, e, f)| < |Rows(log.events)|
  {
    KeyLtIsTotal(log.events, Rows(log.events));
    assert e in Rows(log.events) && e !in Above(log.events, e, f);
    Smaller(Above(log.events, e, f), Rows(log.events), e);
  }

  lemma Smaller<T>(a: set<T>, b: set<T>, x: T)
    requires a <= b && x in b && x !in a
    ensures |a| < |b|
  {
    var rest := b - {x};
    assert a <= rest;
    SubsetSize(a, rest);
  }

  lemma {:induction false} SubsetSize<T>(a: set<T>, b: set<T>)
    requires a <= b
    ensures |a| <= |b|
    decreases |a|
  {
    if x :| x in a { SubsetSize(a - {x}, b - {x}); }
  }

  /** How far a consumer still has to go; a cursor that is not in the table counts the whole table. */
  function Remaining(log: Log, name: string, f: Filter): nat {
    if CursorPresent(log, name) then |Backlog(log, name, f)| else |Rows(log.events)| + 1
  }

  /** The acked row of a batch sits at its place in the backlog and is stored. */
  lemma LastOfBatch(log: Log, name: string, f: Filter, limit: nat) returns (k: nat)
    requires limit >= 1 && ReadForConsumer(log, name, limit, f) != []
    ensures k < |Backlog(log, name, f)|
    ensures
      var batch := ReadForConsumer(log, name, limit, f);
      var e := batch[|batch| - 1];
      && e == Backlog(log, name, f)[k]
      && e.eventId in log.events && log.events[e.eventId] == e && Matches(f, e)
  {
    var batch := ReadForConsumer(log, name, limit, f);
    var all := Backlog(log, name, f);
    k := |batch| - 1;
    assert batch == Take(all, limit) && batch[k] == all[k];
    assert all[k] in Pending(log.events, CursorOf(log, name), f);
  }

  lemma DanglingAckMakesProgress(log: Log, name: string, f: Filter, e: Event, now: int)
    requires e.eventId in log.events && log.events[e.eventId] == e && Matches(f, e)
    ensures Remaining(AckCursor(log, name, e.eventId, now), name, f) < |Rows(log.events)|
  {
    AckedRowIsNotAbove(log, name, f, e, now);
    PendingAfterAck(log, name, f, e, now);
    KeyLtIsTotal(log.events, Above(log.events, e, f));
    InOrderLength(KeyLt, Above(log.events, e, f));
  }

  lemma {:induction false} AckMakesProgress(log: Log, name: string, f: Filter, limit: nat, now: int)
    requires limit >= 1 && ReadForConsumer(log, name, limit, f) != []
    ensures
      var batch := ReadForConsumer(log, name, limit, f);
      Remaining(AckCursor(log, name, batch[|batch| - 1].eventId, now), name, f) < Remaining(log, name, f)
  {
    var k := LastOfBatch(log, name, f, limit);
    var e := Backlog(log, name, f)[k];
    if CursorPresent(log, name) {
      AckedRowIsNotAbove(log, name, f, e, now);
      BacklogAfterAck(log, name, f, k, now);
    } else {
      DanglingAckMakesProgress(log, name, f, e, now);
    }
  }

  /** Read, ack the last event, repeat until a read comes back empty. */
  function Drain(log: Log, name: string, f: Filter, limit: nat, now: int): (r: (seq<seq<Event>>, Log))
    requires limit >= 1
    decreases Remaining(log, name, f)
  {
    var batch := ReadForConsumer(log, name, limit, f);
    if batch == [] then ([], log)
    else
      AckMakesProgress(log, name, f, limit, now);
      var rest := Drain(AckCursor(log, name, batch[|batch| - 1].eventId, now), name, f, limit, now);
      ([batch] + rest.0, rest.1)
  }

  lemma FrontOf(all: seq<Event>, limit: nat, batch: seq<Event>)
    requires batch == Take(all, limit) && batch != []
    ensures |batch| <= |all| && batch[|batch| - 1] == all[|batch| - 1]
    ensures all == batch + all[|batch| - 1 + 1..]
    ensures |batch| < limit ==> all[|batch| - 1 + 1..] == []
  {
  }

  lemma BacklogBehindAcked(log: Log, name: string, f: Filter, k: nat, e: Event, now: int)
    requires CursorPresent(log, name) && k < |Backlog(log, name, f)| && e == Backlog(log, name, f)[k]
    ensures Backlog(AckCursor(log, name, e.eventId, now), name, f) == Backlog(log, name, f)[k + 1..]
  {
    BacklogAfterAck(log, name, f, k, now);
  }

  /** Acking the last event of a batch puts the cursor on a stored row. */
  lemma AckedCursorIsPresent(log: Log, name: string, f: Filter, limit: nat, now: int)
    requires limit >= 1 && ReadForConsumer(log, name, limit, f) != []
    ensures
      var batch := ReadForConsumer(log, name, limit, f);
      CursorPresent(AckCursor(log, name, batch[|batch| - 1].eventId, now), name)
  {
    var k := LastOfBatch(log, name, f, limit);
  }

  /** One round: what it delivers, and the log it leaves to the rest of the rounds. */
  lemma DrainRound(log: Log, name: string, f: Filter, limit: nat, now: int) returns (batch: seq<Event>, acked: Log)
    requires limit >= 1 && Backlog(log, name, f) != []
    ensures batch == Take(Backlog(log, name, f), limit) && batch != []
    ensures acked == AckCursor(log, name, batch[|batch| - 1].eventId, now)
    ensures CursorPresent(acked, name) && Remaining(acked, name, f) < Remaining(log, name, f)
  {
    batch := ReadForConsumer(log, name, limit, f);
    acked := AckCursor(log, name, batch[|batch| - 1].eventId, now);
    AckMakesProgress(log, name, f, limit, now);
    AckedCursorIsPresent(log, name, f, limit, now);
  }

  lemma DrainUnfolds(log: Log, name: string, f: Filter, limit: nat, now: int, batch: seq<Event>, acked: Log)
    requires limit >= 1 && batch == Take(Backlog(log, name, f), limit) && batch != []
    requires acked == AckCursor(log, name, batch[|batch| - 1].eventId, now)
    ensures Drain(log, name, f, limit, now) ==
      ([batch] + Drain(acked, name, f, limit, now).0, Drain(acked, name, f, limit, now).1)
  {
    assert batch == ReadForConsumer(log, name, limit, f);
  }

  /** The batch of a round is cut off the front of the backlog. */
  lemma RoundCutsBacklog(log: Log, name: string, f: Filter, limit: nat, now: int, batch: seq<Event>, acked: Log)
    requires limit >= 1 && CursorPresent(log, name) && batch == Take(Backlog(log, name, f), limit) && batch != []
    requires acked == AckCursor(log, name, batch[|batch| - 1].eventId, now)
    ensures Backlog(log, name, f) == batch + Backlog(acked, name, f)
    ensures |batch| < limit ==> Backlog(acked, name, f) == []
  {
    FrontOf(Backlog(log, name, f), limit, batch);
    BacklogBehindAcked(log, name, f, |batch| - 1, batch[|batch| - 1], now);
  }

  lemma EmptyDrain(log: Log, name: string, f: Filter, limit: nat, now: int)
    requires limit >= 1 && Backlog(log, name, f) == []
    ensures Drain(log, name, f, limit, now) == ([], log)
  {
  }

  /** Batches of at most `limit` events, all of them full but perhaps the last. */
  predicate Filled(batches: seq<seq<Event>>, limit: nat) {
    forall i | 0 <= i < |batches| :: 1 <= |batches[i]| <= limit && (i < |batches| - 1 ==> |batches[i]| == limit)
  }

  lemma FilledCons(batch: seq<Event>, rest: seq<seq<Event>>, limit: nat)
    requires 1 <= |batch| <= limit && Filled(rest, limit) && (|batch| < limit ==> rest == [])
    ensures Filled([batch] + rest, limit)
  {
    var all := [batch] + rest;
    forall i | 0 <= i < |all| ensures 1 <= |all[i]| <= limit && (i < |all| - 1 ==> |all[i]| == limit) {
      if i > 0 { assert all[i] == rest[i - 1]; }
    }
  }

  lemma ConcatCons(batch: seq<Event>, rest: seq<seq<Event>>)
    ensures Concat([batch] + rest) == batch + Concat(rest)
  {
    assert ([batch] + rest)[1..] == rest;
  }

  lemma {:induction false} DrainDelivers(log: Log, name: string, f: Filter, limit: nat, now: int)
    requires limit >= 1 && CursorPresent(log, name)
    ensures Concat(Drain(log, name, f, limit, now).0) == Backlog(log, name, f)
    decreases Remaining(log, name, f)
  {
    if Backlog(log, name, f) == [] {
      EmptyDrain(log, name, f, limit, now);
    } else {
      var batch, acked := DrainRound(log, name, f, limit, now);
      DrainUnfolds(log, name, f, limit, now, batch, acked);
      RoundCutsBacklog(log, name, f, limit, now, batch, acked);
      DrainDelivers(acked, name, f, limit, now);
      ConcatCons(batch, Drain(acked, name, f, limit, now).0);
    }
  }

  lemma {:induction false} DrainFills(log: Log, name: string, f: Filter, limit: nat, now: int)
    requires limit >= 1 && CursorPresent(log, name)
    ensures Filled(Drain(log, name, f, limit, now).0, limit)
    decreases Remaining(log, name, f)
  {
    if Backlog(log, name, f) == [] {
      EmptyDrain(log, name, f, limit, now);
    } else {
      var batch, acked := DrainRound(log, name, f, limit, now);
      DrainUnfolds(log, name, f, limit, now, batch, acked);
      RoundCutsBacklog(log, name, f, limit, now, batch, acked);
      DrainFills(acked, name, f, limit, now);
      if |batch| < limit { EmptyDrain(acked, name, f, limit, now); }
      FilledCons(batch, Drain(acked, name, f, limit, now).0, limit);
    }
  }

  lemma {:induction false} DrainEnds(log: Log, name: string, f: Filter, limit: nat, now: int)
    requires limit >= 1
    ensures Backlog(Drain(log, name, f, limit, now).1, name, f) == []
    ensures Drain(log, name, f, limit, now).1.events == log.events
    decreases Remaining(log, name, f)
  {
    if Backlog(log, name, f) == [] {
      EmptyDrain(log, name, f, limit, now);
    } else {
      var batch, acked := DrainRound(log, name, f, limit, now);
      DrainUnfolds(log, name, f, limit, now, batch, acked);
      DrainEnds(acked, name, f, limit, now);
    }
  }

  /**
   Draining from an unset or present cursor delivers exactly the backlog, in
   order, each event once; every batch but the last is full; and nothing is
   left afterwards.
   */
  lemma {:induction false} DrainIsExact(log: Log, name: string, f: Filter, limit: nat, now: int)
    requires limit >= 1 && CursorPresent(log, name)
    ensures Concat(Drain(log, name, f, limit, now).0) == Backlog(log, name, f)
    ensures Filled(Drain(log, name, f, limit, now).0, limit)
    ensures Backlog(Drain(log, name, f, limit, now).1, name, f) == []
    ensures Drain(log, name, f, limit, now).1.events == log.events
  {
    DrainDelivers(log, name, f, limit, now);
    DrainFills(log, name, f, limit, now);
    DrainEnds(log, name, f, limit, now);
  }

  /** The events delivered do not depend on the batch size. */
  lemma {:induction false} DrainIgnoresLimit(log: Log, name: string, f: Filter, limit1: nat, limit2: nat, now: int)
    requires limit1 >= 1 && limit2 >= 1 && CursorPresent(log, name)
    ensures Concat(Drain(log, name, f, limit1, now).0) == Concat(Drain(log, name, f, limit2, now).0)
  {
    DrainIsExact(log, name, f, limit1, now);
    DrainIsExact(log, name, f, limit2, now);
  }

  /** No wanted row that the id comparison leaves out is ordered above `e`. */
  predicate NothingSkippedAbove(log: Log, name: string, f: Filter, e: Event) {
    forall id | id in log.events && Matches(f, log.events[id]) && KeyLt(e, log.events[id]) ::
      IsAfter(log.events, CursorOf(log, name), log.events[id])
  }

  /** Draining after the first batch lists everything ordered above that batch. */
  lemma DrainAfterFirst(log: Log, name: string, f: Filter, limit: nat, now: int)
    requires limit >= 1 && Backlog(log, name, f) != []
    ensures
      var first := Take(Backlog(log, name, f), limit);
      var above := Above(log.events, first[|first| - 1], f);
      && TotalOn(KeyLt, above)
      && Concat(Drain(log, name, f, limit, now).0) == first + InOrder(KeyLt, above)
  {
    var first := ReadForConsumer(log, name, limit, f);
    var e := first[|first| - 1];
    BatchRowsAreStored(log, name, f);
    assert e in Backlog(log, name, f);
    var log1 := AckCursor(log, name, e.eventId, now);
    AckMakesProgress(log, name, f, limit, now);
    PendingAfterAck(log, name, f, e, now);
    KeyLtIsTotal(log.events, Above(log.events, e, f));
    DrainIsExact(log1, name, f, limit, now);
    ConcatCons(first, Drain(log1, name, f, limit, now).0);
  }

  /**
   For any cursor, present or not: draining delivers exactly the backlog if and
   only if the cursor is usable, the backlog is empty, or no wanted row that the
   id comparison skipped is ordered above the end of the first batch.
   */
  lemma {:induction false} DrainIsExactIff(log: Log, name: string, f: Filter, limit: nat, now: int)
    requires limit >= 1
    ensures
      var all := Backlog(log, name, f);
      Concat(Drain(log, name, f, limit, now).0) == all <==>
        || CursorPresent(log, name)
        || all == []
        || NothingSkippedAbove(log, name, f, Take(all, limit)[|Take(all, limit)| - 1])
  {
    var all := Backlog(log, name, f);
    if CursorPresent(log, name) {
      DrainIsExact(log, name, f, limit, now);
    } else if all == [] {
      EmptyDrain(log, name, f, limit, now);
    } else {
      DanglingDrainIff(log, name, f, limit, now);
    }
  }

  lemma DanglingDrainIff(log: Log, name: string, f: Filter, limit: nat, now: int)
    requires limit >= 1 && Backlog(log, name, f) != []
    ensures
      var all := Backlog(log, name, f);
      var first := Take(all, limit);
      Concat(Drain(log, name, f, limit, now).0) == all <==> NothingSkippedAbove(log, name, f, first[|first| - 1])
  {
    var first := Take(Backlog(log, name, f), limit);
    var e := first[|first| - 1];
    BacklogSplits(log, name, f, limit);
    DrainAfterFirst(log, name, f, limit, now);
    SkippedRowsIff(log, name, f, e);
    ListingsAgreeIff(KeyLt, first, Above(log.events, e, f),
      AboveIn(KeyLt, Pending(log.events, CursorOf(log, name), f), e));
  }

  /** The backlog is its first batch and then the pending rows ordered above it. */
  lemma BacklogSplits(log: Log, name: string, f: Filter, limit: nat)
    requires limit >= 1 && Backlog(log, name, f) != []
    ensures
      var first := Take(Backlog(log, name, f), limit);
      var mine := AboveIn(KeyLt, Pending(log.events, CursorOf(log, name), f), first[|first| - 1]);
      TotalOn(KeyLt, mine) && Backlog(log, name, f) == first + InOrder(KeyLt, mine)
  {
    var all := Backlog(log, name, f);
    var first := Take(all, limit);
    FrontOf(all, limit, first);
    BacklogBehind(log, name, f, |first| - 1);
  }

  /** The backlog behind its k-th row lists the pending rows ordered above that row. */
  lemma BacklogBehind(log: Log, name: string, f: Filter, k: nat)
    requires k < |Backlog(log, name, f)|
    ensures
      var mine := AboveIn(KeyLt, Pending(log.events, CursorOf(log, name), f), Backlog(log, name, f)[k]);
      TotalOn(KeyLt, mine) && Backlog(log, name, f)[k + 1..] == InOrder(KeyLt, mine)
  {
    KeyLtIsTotal(log.events, Pending(log.events, CursorOf(log, name), f));
    InOrderAbove(KeyLt, Pending(log.events, CursorOf(log, name), f), k);
  }

  lemma SkippedRowsIff(log: Log, name: string, f: Filter, e: Event)
    ensures Above(log.events, e, f) == AboveIn(KeyLt, Pending(log.events, CursorOf(log, name), f), e) <==>
      NothingSkippedAbove(log, name, f, e)
  {
    var above, mine := Above(log.events, e, f), AboveIn(KeyLt, Pending(log.events, CursorOf(log, name), f), e);
    if above == mine {
      forall id | id in log.events && Matches(f, log.events[id]) && KeyLt(e, log.events[id])
        ensures IsAfter(log.events, CursorOf(log, name), log.events[id])
      {
        assert log.events[id] in above;
      }
    }
  }

  /** Around the row `c`, order by id agrees with the delivery order. */
  predicate IdOrderAgreesAt(events: Events, c: Event) {
    forall id | id in events && id != c.eventId :: KeyLt(c, events[id]) <==> Below(c.eventId, id)
  }

  /** Ids that sort like their timestamps, as time-sortable ids do. */
  predicate IdsFollowTime(events: Events) {
    forall i, j | i in events && j in events && events[i].createdAt < events[j].createdAt :: Below(i, j)
  }

  lemma {:induction false} TimeSortableIdsAgree(events: Events, c: string)
    requires IdsFollowTime(events) && c in events
    ensures IdOrderAgreesAt(events, events[c])
  {
    forall id | id in events && id != c
      ensures KeyLt(events[c], events[id]) <==> Below(c, id)
    {
      if events[id].createdAt < events[c].createdAt { BelowAsymmetric(id, c); }
    }
  }

  /**
   The missing-cursor fallback refines the normal path, exactly when ids agree
   with the delivery order around the cursor: then, and only then, does deleting
   the cursor's row leave every filtered, limited read after it unchanged.
   */
  lemma {:induction false} FallbackAgreesIff(events: Events, c: string)
    requires c in events
    ensures IdOrderAgreesAt(events, events[c]) <==>
      forall limit: nat, f: Filter :: ReadAfter(events - {c}, Some(c), limit, f) == ReadAfter(events, Some(c), limit, f)
  {
    if IdOrderAgreesAt(events, events[c]) {
      forall limit: nat, f: Filter
        ensures ReadAfter(events - {c}, Some(c), limit, f) == ReadAfter(events, Some(c), limit, f)
      {
        SamePendingWithoutCursor(events, c, f);
      }
    } else {
      var id :| id in events && id != c && (KeyLt(events[c], events[id]) <==> !Below(c, id));
      var limit := DisagreementShows(events, c, id);
    }
  }

  /** A row that the two comparisons place differently is returned by one of the two unlimited reads only. */
  lemma DisagreementShows(events: Events, c: string, id: string) returns (limit: nat)
    requires c in events && id in events && id != c && (KeyLt(events[c], events[id]) <==> !Below(c, id))
    ensures ReadAfter(events - {c}, Some(c), limit, Filter({}, None)) !=
      ReadAfter(events, Some(c), limit, Filter({}, None))
  {
    var f := Filter({}, None);
    var with, without := PendingInOrder(events, Some(c), f), PendingInOrder(events - {c}, Some(c), f);
    limit := |with| + |without|;
    assert (events - {c})[id] == events[id];
    assert events[id] in with <==> events[id] in Pending(events, Some(c), f);
    assert events[id] in without <==> events[id] in Pending(events - {c}, Some(c), f);
    OnlyRowUnder(events, c, id, f);
  }

  lemma OnlyRowUnder(events: Events, c: string, id: string, f: Filter)
    requires c in events && id in events && id != c && f == Filter({}, None)
    ensures events[id] in Pending(events, Some(c), f) <==> KeyLt(events[c], events[id])
    ensures events[id] in Pending(events - {c}, Some(c), f) <==> Below(c, id)
  {
    if Below(c, id) { assert (events - {c})[id] in Pending(events - {c}, Some(c), f); }
  }

  lemma SamePendingWithoutCursor(events: Events, c: string, f: Filter)
    requires c in events && IdOrderAgreesAt(events, events[c])
    ensures Pending(events - {c}, Some(c), f) == Pending(events, Some(c), f)
  {
    BelowIrreflexive(c);
    var a, b := Pending(events - {c}, Some(c), f), Pending(events, Some(c), f);
    forall e | e in b ensures e in a {
      assert e.eventId in events - {c} && (events - {c})[e.eventId] == e;
    }
  }

  /** With time-sortable ids the fallback is invisible to every read. */
  lemma {:induction false} FallbackIsInvisible(events: Events, c: string, limit: nat, f: Filter)
    requires c in events && IdsFollowTime(events)
    ensures ReadAfter(events - {c}, Some(c), limit, f) == ReadAfter(events, Some(c), limit, f)
  {
    TimeSortableIdsAgree(events, c);
    FallbackAgreesIff(events, c);
  }

  /** An event stamped earlier under a later id: deleting the cursor's row changes reads. */
  lemma {:induction false} FallbackDisagreesExample() returns (events: Events, c: string)
    ensures c in events && !IdOrderAgreesAt(events, events[c])
  {
    c := "a";
    events := map["a" := Event("a", None, None, None, "job.placed", [], 2),
                  "b" := Event("b", None, None, None, "job.placed", [], 1)];
    assert Below("a", "b") && !KeyLt(events["a"], events["b"]);
  }

  /** A cursor whose row is gone, and a row that its id comparison skips but a later ack brings back. */
  lemma {:induction false} DanglingDrainExample() returns (log: Log)
    ensures var f := Filter({}, None);
      Concat(Drain(log, "koi", f, 1, 0).0) != Backlog(log, "koi", f)
  {
    var late := Event("a", None, None, None, "job.placed", [], 9);
    var seen := Event("c", None, None, None, "job.placed", [], 5);
    log := Log(map["a" := late, "c" := seen], map["koi" := Offset(Some("b"), 0)]);
    var f := Filter({}, None);
    assert Below("b", "c") && !Below("b", "a");
    assert log.events["c"] == seen && log.events["a"] == late;
    assert Pending(log.events, Some("b"), f) == {seen};
    KeyLtIsTotal(log.events, {seen});
    assert Lists(KeyLt, {seen}, [seen]);
    ListingUnique(KeyLt, {seen}, Backlog(log, "koi", f), [seen]);
    DrainIsExactIff(log, "koi", f, 1, 0);
  }
}
