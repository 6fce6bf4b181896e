/** What the reads of the evidence table return, said of the rows and their fields. */
module EvidenceReads {
  import opened Results
  import opened Ordering
  import opened Dicts
  import opened JsonValues
  import opened EvidenceStore

  /** A row of the user, as the table holds it. */
  predicate IsOwn(t: Table, user: string, x: Row) {
    x.rowId in t && t[x.rowId] == x && x.userId == user
  }

  lemma OwnRows(t: Table, user: string)
    ensures forall x :: x in UserRows(t, user) <==> IsOwn(t, user, x)
  {
    forall x | x in UserRows(t, user) ensures IsOwn(t, user, x) {
      var id :| id in t && t[id].userId == user && t[id] == x;
    }
  }

  /** The rows of a query: each once, by tick, then job, then rank. */
  ghost predicate InRowOrder(r: seq<Row>) {
    forall i, j | 0 <= i < j < |r| :: r[i] != r[j] && MayPrecede(r[i], r[j])
  }

  /** Exactly what the plain select may return. */
  lemma {:induction false} RowsForUserMeans(t: Table, user: string, r: seq<Row>)
    ensures IsRowsForUser(t, user, r) <==> (forall x :: x in r <==> IsOwn(t, user, x)) && InRowOrder(r)
  {
    OwnRows(t, user);
  }

  /** Exactly what the window query may return. */
  lemma {:induction false} RowsInWindowMeans(t: Table, user: string, start: int, end: int, r: seq<Row>)
    ensures IsRowsInWindow(t, user, start, end, r) <==>
      (forall x :: x in r <==> IsOwn(t, user, x) && start <= x.tick <= end) && InRowOrder(r)
  {
    OwnRows(t, user);
  }

  /** The ticks of the user's rows above a tick. */
  function TicksAbove(t: Table, user: string, tick: int): set<int> {
    set id | id in t && t[id].userId == user && t[id].tick > tick :: t[id].tick
  }

  lemma TickPlace(t: Table, user: string, i: nat)
    requires i < |NewestTicks(t, user)|
    ensures |TicksAbove(t, user, NewestTicks(t, user)[i])| == i
  {
    var all := NewestTicks(t, user);
    var above := TicksAbove(t, user, all[i]);
    OwnRows(t, user);
    forall tick | tick in above ensures tick in all[..i] {
      var id :| id in t && t[id].userId == user && t[id].tick > all[i] && t[id].tick == tick;
      assert t[id] in UserRows(t, user) && tick in Ticks(t, user);
      var k :| 0 <= k < |all| && all[k] == tick;
      assert k < i;
    }
    forall tick | tick in all[..i] ensures tick in above {
      var k :| 0 <= k < i && all[k] == tick;
      assert tick in Ticks(t, user);
      var x :| x in UserRows(t, user) && x.tick == tick;
    }
    DistinctLength(above, all[..i]);
  }

  /**
   The rows of the n newest ticks: a row of the user is one of them exactly when fewer than
   n of the user's ticks are above its own.
   */
  lemma {:induction false} RecentMeans(t: Table, user: string, n: nat, x: Row)
    requires n >= 1 && NewestTicks(t, user) != []
    ensures x in Window(t, user, NthNewest(t, user, n), CurrentTick(t, user)) <==>
      IsOwn(t, user, x) && |TicksAbove(t, user, x.tick)| < n
  {
    OwnRows(t, user);
    if IsOwn(t, user, x) {
      var all := NewestTicks(t, user);
      assert x.tick in Ticks(t, user);
      var i :| 0 <= i < |all| && all[i] == x.tick;
      TickPlace(t, user, i);
      TakenTicks(t, user, n, x.tick);
      if i < n { assert Take(all, n)[i] == x.tick; }
      if x.tick in Take(all, n) { var k :| 0 <= k < |Take(all, n)| && Take(all, n)[k] == x.tick; }
    }
  }

  /** The current tick is the largest of the user's rows, or 0 when there are none. */
  lemma {:induction false} CurrentTickMeans(t: Table, user: string)
    ensures (forall x :: !IsOwn(t, user, x)) ==> NewestTicks(t, user) == [] && CurrentTick(t, user) == 0
    ensures (exists x :: IsOwn(t, user, x)) ==>
      NewestTicks(t, user) != [] && exists x :: IsOwn(t, user, x) && x.tick == CurrentTick(t, user)
    ensures forall x | IsOwn(t, user, x) :: x.tick <= CurrentTick(t, user)
  {
    var all := NewestTicks(t, user);
    OwnRows(t, user);
    if all != [] {
      assert all[0] in Ticks(t, user);
      var x :| x in UserRows(t, user) && x.tick == all[0];
      assert IsOwn(t, user, x);
    }
    forall x | IsOwn(t, user, x) ensures x.tick in all && x.tick <= all[0] {
      assert x.tick in Ticks(t, user);
      var i :| 0 <= i < |all| && all[i] == x.tick;
    }
  }

  /** The newest rows: at most `limit` of them, and none left out comes after one of them. */
  lemma {:induction false} LatestMeans(t: Table, user: string, limit: int, r: seq<Row>)
    requires IsLatest(t, user, limit, r)
    ensures limit <= 0 ==> r == []
    ensures limit > 0 ==> IsEnd(MayPrecede, UserRows(t, user), limit, r)
  {
    if limit > 0 {
      var all :| IsRowsForUser(t, user, all) && r == LastN(all, limit);
      EndOfSorted(RowLt, MayPrecede, UserRows(t, user), all, limit);
    }
  }

  /** The availability of a row: the number stored, or what the database casts the stored text to. */
  lemma {:induction false} StampedMeans(row: Row, cast: string -> Option<real>)
    ensures
      var v := Get<Json>(row.payload, "evidence_available_timestamp_utc");
      && (row.Stamped(cast).Never? <==> v == None || v == Some(JNull))
      && (forall time ::
            row.Stamped(cast) == At(time) <==>
            || v == Some(JReal(time))
            || (exists n: int :: v == Some(JInt(n)) && time == n as real)
            || (exists text :: v == Some(JStr(text)) && cast(text) == Some(time)))
  {
  }

  /** A row of the user that was available before the cutoff. */
  predicate WasSeen(t: Table, q: Ask, x: Row) {
    IsOwn(t, q.user, x) && x.Stamped(q.cast).At? && x.Stamped(q.cast).time < q.cutoff
  }

  /** In the order of (availability, tick, job_id, rank_id), `a` may stand before `b`. */
  function MayPrecedeSeen(cast: string -> Option<real>): (Row, Row) -> bool {
    (a: Row, b: Row) =>
      a.Stamped(cast).At? && b.Stamped(cast).At? && a.Stamped(cast).time <= b.Stamped(cast).time &&
      (a.Stamped(cast).time == b.Stamped(cast).time ==> MayPrecede(a, b))
  }

  /**
   A point-in-time read: it raises exactly when the availability of one of the user's rows
   is no number; else it returns the newest rows seen before the cutoff, by availability.
   */
  lemma {:induction false} LatestBeforeMeans(t: Table, q: Ask, limit: int, r: Option<seq<Row>>)
    requires IsLatestBefore(t, q, limit, r)
    ensures limit <= 0 ==> r == Some([])
    ensures limit > 0 ==> (r.None? <==> exists x :: IsOwn(t, q.user, x) && x.Stamped(q.cast).Uncastable?)
    ensures limit > 0 && r.Some? ==> IsEnd(MayPrecedeSeen(q.cast), Visible(t, q), limit, r.value)
    ensures forall x :: x in Visible(t, q) <==> WasSeen(t, q, x)
  {
    OwnRows(t, q.user);
    if limit > 0 {
      if id :| id in t && Refused(t[id], q) { assert IsOwn(t, q.user, t[id]); }
      if r.Some? {
        var all :| Sorts(SeenLt(q.cast), Visible(t, q), all) && r.value == LastN(all, limit);
        EndOfSorted(SeenLt(q.cast), MayPrecedeSeen(q.cast), Visible(t, q), all, limit);
      }
    }
  }

  /** The workload type of features: the field "type" when it is truthy, else "workload_type" unless it is missing. */
  lemma {:induction false} WorkloadTypeMeans(lower: Json -> string, features: Dict<Json>)
    ensures !IsFalsy(Get(features, "type")) ==>
      WorkloadType(lower, features) == Some(lower(Get(features, "type").value))
    ensures IsFalsy(Get(features, "type")) ==>
      match Get<Json>(features, "workload_type")
      case Some(v) => WorkloadType(lower, features) == if v == JNull then None else Some(lower(v))
      case None => WorkloadType(lower, features) == None
  {
    var v := Get<Json>(features, "type");
    if v.Some? { FalsyValues(v.value); }
  }

  /** The features of a stored row are its field "X"; a falsy one is read as no features, and no other value can be. */
  lemma {:induction false} WorkloadOfMeans(lower: Json -> string, row: Row)
    ensures HasFeatures(row) <==>
      IsFalsy(Get(row.payload, "X")) || exists features :: Get(row.payload, "X") == Some(JObj(features))
    ensures IsFalsy(Get(row.payload, "X")) ==> WorkloadOf(lower, row) == None
    ensures forall features | Get(row.payload, "X") == Some(JObj(features)) ::
      WorkloadOf(lower, row) == WorkloadType(lower, features)
  {
    var v := Get<Json>(row.payload, "X");
    if v.Some? { FalsyValues(v.value); }
  }

  /** Python's `rows[-limit:]`: the last rows, all of them at zero, and all but the first ones below. */
  lemma {:induction false} ApplyLimitMeans(rows: seq<Row>, limit: Option<int>)
    ensures
      var r := ApplyLimit(rows, limit);
      && r <= rows[|rows| - |r|..]
      && |r| == match limit
                case None => |rows|
                case Some(n) =>
                  if n == 0 then |rows|
                  else if n > 0 then if n < |rows| then n else |rows|
                  else if |rows| + n > 0 then |rows| + n else 0
  {
  }
}
