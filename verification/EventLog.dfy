/**
 The `events` and `event_consumer_offsets` tables and the operations of the
 Postgres-backed event log over them.
 */
module EventLog {
  import opened Results
  import opened Ordering
  import opened Text
  import opened JsonValues
  import opened Dicts

  datatype Event = Event(
    eventId: string,
    userId: Option<string>,
    jobId: Option<string>,
    rankId: Option<string>,
    kind: string,
    payload: Dict<Json>,
    createdAt: int)

  /** The events table, keyed by its primary key. */
  type Events = m: map<string, Event> | forall id | id in m :: m[id].eventId == id witness map[]

  datatype Offset = Offset(lastEventId: Option<string>, updatedAt: int)

  datatype Log = Log(events: Events, offsets: map<string, Offset>)

  /** `types` and `user_id` of a read; an empty type set does not filter. */
  datatype Filter = Filter(kinds: set<string>, user: Option<string>)

  datatype AppendError = RankMismatch | DuplicateEventId

  /** The delivery order (created_at, event_id). */
  predicate KeyLt(a: Event, b: Event) {
    a.createdAt < b.createdAt || (a.createdAt == b.createdAt && Below(a.eventId, b.eventId))
  }

  predicate KeyGt(a: Event, b: Event) {
    KeyLt(b, a)
  }

  function Rows(events: Events): set<Event> {
    set id | id in events :: events[id]
  }

  lemma KeyLtIsTotal(events: Events, s: set<Event>)
    requires s <= Rows(events)
    ensures TotalOn(KeyLt, s) && TotalOn(KeyGt, s)
  {
    forall a: Event ensures !KeyLt(a, a) { BelowIrreflexive(a.eventId); }
    forall a, b | a in s && b in s && a != b ensures KeyLt(a, b) || KeyLt(b, a) {
      assert a in Rows(events) && b in Rows(events);
      BelowTotal(a.eventId, b.eventId);
    }
    forall a: Event, b: Event, c: Event | KeyLt(a, b) && KeyLt(b, c) ensures KeyLt(a, c) {
      KeyLtTransitive(a, b, c);
    }
  }

  lemma KeyLtTransitive(a: Event, b: Event, c: Event)
    requires KeyLt(a, b) && KeyLt(b, c)
    ensures KeyLt(a, c)
  {
    if Below(a.eventId, b.eventId) && Below(b.eventId, c.eventId) {
      BelowTransitive(a.eventId, b.eventId, c.eventId);
    }
  }

  lemma KeyLtAsymmetric(a: Event, b: Event)
    ensures !(KeyLt(a, b) && KeyLt(b, a))
  {
    if Below(a.eventId, b.eventId) { BelowAsymmetric(a.eventId, b.eventId); }
  }

  predicate Matches(f: Filter, e: Event) {
    && (f.kinds == {} || e.kind in f.kinds)
    && (f.user.None? || e.userId == f.user)
  }

  /** Rows past the cursor; by event id alone when the cursor's row is missing. */
  predicate IsAfter(events: Events, last: Option<string>, e: Event) {
    match last
    case None => true
    case Some(id) => if id in events then KeyLt(events[id], e) else Below(id, e.eventId)
  }

  function Pending(events: Events, last: Option<string>, f: Filter): set<Event> {
    set id | id in events && IsAfter(events, last, events[id]) && Matches(f, events[id]) :: events[id]
  }

  /** All rows a reader still has to see, in delivery order. */
  function PendingInOrder(events: Events, last: Option<string>, f: Filter): (r: seq<Event>)
    ensures Lists(KeyLt, Pending(events, last, f), r)
  {
    KeyLtIsTotal(events, Pending(events, last, f));
    InOrder(KeyLt, Pending(events, last, f))
  }

  /**
   What a reader still has to see, said of the rows themselves: those of the asked
   kinds and user that come after the cursor's row by (created_at, event_id), or
   after the cursor's id when its row is gone; earlier ones first.
   */
  lemma {:induction false} UnreadRows(events: Events, last: Option<string>, f: Filter, e: Event)
    ensures e in PendingInOrder(events, last, f) <==>
      && e.eventId in events && events[e.eventId] == e
      && (f.kinds != {} ==> e.kind in f.kinds)
      && (f.user.Some? ==> e.userId == f.user)
      && (last.Some? && last.value in events ==>
            var c := events[last.value].createdAt;
            c < e.createdAt || (c == e.createdAt && Below(last.value, e.eventId)))
      && (last.Some? && last.value !in events ==> Below(last.value, e.eventId))
    ensures
      var r := PendingInOrder(events, last, f);
      forall i, j | 0 <= i < j < |r| ::
        r[i].createdAt < r[j].createdAt || (r[i].createdAt == r[j].createdAt && Below(r[i].eventId, r[j].eventId))
  {
    assert e in PendingInOrder(events, last, f) <==> e in Pending(events, last, f);
  }

  function ReadAfter(events: Events, last: Option<string>, limit: nat, f: Filter): seq<Event> {
    Take(PendingInOrder(events, last, f), limit)
  }

  function CursorOf(log: Log, name: string): Option<string> {
    if name in log.offsets then log.offsets[name].lastEventId else None
  }

  function ReadForConsumer(log: Log, name: string, limit: nat, f: Filter): seq<Event> {
    ReadAfter(log.events, CursorOf(log, name), limit, f)
  }

  function AppendEvent(log: Log, e: Event): Result<Log, AppendError> {
    if "rank." <= e.kind && (e.rankId.None? || Get(e.payload, "rank_id") != Some(JStr(e.rankId.value))) then
      Err(RankMismatch)
    else if e.eventId in log.events then
      Err(DuplicateEventId)
    else
      Ok(log.(events := log.events[e.eventId := e]))
  }

  function AckCursor(log: Log, name: string, eventId: string, now: int): Log {
    log.(offsets := log.offsets[name := Offset(Some(eventId), now)])
  }

  /** The newest event of a user, by the descending query with limit 1. */
  function UserTail(events: Events, user: string): Option<string> {
    var mine := set id | id in events && events[id].userId == Some(user) :: events[id];
    KeyLtIsTotal(events, mine);
    var newest := Take(InOrder(KeyGt, mine), 1);
    if newest == [] then None else Some(newest[0].eventId)
  }

  /** The tail is the last of the user's own events, and is missing only when there are none. */
  lemma {:induction false} UserTailIsNewest(events: Events, user: string)
    ensures UserTail(events, user).None? <==> forall id | id in events :: events[id].userId != Some(user)
    ensures UserTail(events, user).Some? ==> IsNewestOf(events, user, UserTail(events, user).value)
  {
    var mine := set id | id in events && events[id].userId == Some(user) :: events[id];
    KeyLtIsTotal(events, mine);
    var order := InOrder(KeyGt, mine);
    forall id | id in events && events[id].userId == Some(user)
      ensures events[id] in order
    {
      assert events[id] in mine;
    }
    if order != [] {
      assert order[0] in mine;
      forall e | e in order ensures e == order[0] || KeyLt(e, order[0]) {
        var i :| 0 <= i < |order| && order[i] == e;
        assert i > 0 ==> KeyGt(order[0], order[i]);
      }
    }
  }

  /** An event of the user, with none of the user's events later by time, or at the same time by id. */
  ghost predicate IsNewestOf(events: Events, user: string, last: string) {
    && last in events && events[last].userId == Some(user)
    && forall id | id in events && events[id].userId == Some(user) && id != last ::
         events[id].createdAt < events[last].createdAt ||
           (events[id].createdAt == events[last].createdAt && Below(id, last))
  }

  function InitializeAtTail(log: Log, name: string, user: string, now: int): Log {
    if name in log.offsets then log
    else log.(offsets := log.offsets[name := Offset(UserTail(log.events, user), now)])
  }

  class PostgresEventLog {
    var events: Events
    var offsets: map<string, Offset>

    function State(): Log
      reads this
    {
      Log(events, offsets)
    }

    constructor ()
      ensures State() == Log(map[], map[])
    {
      events, offsets := map[], map[];
    }

    method Append(event: Event) returns (r: Result<string, AppendError>)
      modifies this`events
      ensures
        var rankFits := event.rankId.Some? && Get(event.payload, "rank_id") == Some(JStr(event.rankId.value));
        r == if "rank." <= event.kind && !rankFits then Err(RankMismatch)
             else if event.eventId in old(events) then Err(DuplicateEventId)
             else Ok(event.eventId)
      ensures events == if r.Ok? then old(events)[event.eventId := event] else old(events)
      ensures match AppendEvent(old(State()), event)
        case Ok(log) => r.Ok? && State() == log
        case Err(e) => r == Err(e) && State() == old(State())
    {
      if "rank." <= event.kind {
        if event.rankId.None? || Get(event.payload, "rank_id") != Some(JStr(event.rankId.value)) {
          return Err(RankMismatch);
        }
      }
      if event.eventId in events {
        return Err(DuplicateEventId);
      }
      events := events[event.eventId := event];
      return Ok(event.eventId);
    }

    /** Starts a new consumer after the user's history; an existing row is kept. */
    method InitializeConsumerAtUserTail(name: string, user: string, now: int)
      modifies this`offsets
      ensures name in old(offsets) ==> offsets == old(offsets)
      ensures name !in old(offsets) ==>
        && offsets == old(offsets)[name := Offset(CursorOf(State(), name), now)]
        && (CursorOf(State(), name).None? <==> forall id | id in events :: events[id].userId != Some(user))
        && (CursorOf(State(), name).Some? ==> IsNewestOf(events, user, CursorOf(State(), name).value))
      ensures State() == InitializeAtTail(old(State()), name, user, now)
    {
      if name in offsets { return; }
      UserTailIsNewest(events, user);
      var latest := UserTail(events, user);
      offsets := offsets[name := Offset(latest, now)];
    }

    method Ack(name: string, eventId: string, now: int)
      modifies this`offsets
      ensures offsets == old(offsets)[name := Offset(Some(eventId), now)]
      ensures State() == AckCursor(old(State()), name, eventId, now)
    {
      if name !in offsets {
        offsets := offsets[name := Offset(Some(eventId), now)];
      } else {
        var row := offsets[name];
        offsets := offsets[name := row.(lastEventId := Some(eventId), updatedAt := now)];
      }
    }
  }

  /**
   A consumer started at a user's tail has nothing of that user's history to
   read, whatever types it asks for.
   */
  lemma {:induction false} InitializedAtTail(log: Log, name: string, user: string, now: int, kinds: set<string>,
      limit: nat)
    requires name !in log.offsets
    ensures ReadForConsumer(InitializeAtTail(log, name, user, now), name, limit, Filter(kinds, Some(user))) == []
  {
    var events := log.events;
    var mine := set id | id in events && events[id].userId == Some(user) :: events[id];
    KeyLtIsTotal(events, mine);
    var tail := UserTail(events, user);
    var f := Filter(kinds, Some(user));
    forall id | id in events && Matches(f, events[id])
      ensures !IsAfter(events, tail, events[id])
    {
      assert events[id] in mine;
      var order := InOrder(KeyGt, mine);
      var i :| 0 <= i < |order| && order[i] == events[id];
      assert order[0] in mine;
      assert tail == Some(order[0].eventId) && events[order[0].eventId] == order[0];
      assert i > 0 ==> KeyGt(order[0], order[i]);
      KeyLtAsymmetric(order[0], events[id]);
      BelowIrreflexive(order[0].eventId);
    }
    assert Pending(events, tail, f) == {};
    if PendingInOrder(events, tail, f) != [] {
      ListsHead(KeyLt, Pending(events, tail, f), PendingInOrder(events, tail, f));
    }
  }
}
