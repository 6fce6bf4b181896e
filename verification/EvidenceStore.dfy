/** The evidence table: upserts, the sorted table of a user, and the fast reads over it. */
module EvidenceStore {
  import opened Results
  import opened Ordering
  import opened Text
  import opened Dicts
  import opened JsonValues

  /** A stored availability as the database casts it: absent or null, a time, or a text that is no number. */
  datatype Stamp = Never | At(time: real) | Uncastable

  datatype Row = Row(rowId: string, userId: string, tick: int, jobId: string, rankId: string, payload: Dict<Json>)
  {
    function Stamped(cast: string -> Option<real>): Stamp {
      match Get<Json>(payload, "evidence_available_timestamp_utc")
      case None => Never
      case Some(JNull) => Never
      case Some(JReal(x)) => At(x)
      case Some(JInt(n)) => At(n as real)
      case Some(JStr(text)) => (match cast(text) case Some(x) => At(x) case None => Uncastable)
      case Some(_) => Uncastable
    }
  }

  type Table = m: map<string, Row> | forall id | id in m :: m[id].rowId == id witness map[]

  /** Merge by primary key. */
  function Merge(t: Table, row: Row): Table {
    t[row.rowId := row]
  }

  function MergeAll(t: Table, rows: seq<Row>): Table {
    if rows == [] then t else Merge(MergeAll(t, rows[..|rows| - 1]), rows[|rows| - 1])
  }

  // Orders.

  /** The order (tick, job_id, rank_id). */
  predicate RowLt(a: Row, b: Row) {
    || a.tick < b.tick
    || (a.tick == b.tick && Below(a.jobId, b.jobId))
    || (a.tick == b.tick && a.jobId == b.jobId && Below(a.rankId, b.rankId))
  }

  predicate RowGt(a: Row, b: Row) { RowLt(b, a) }

  predicate SameKey(a: Row, b: Row) {
    a.tick == b.tick && a.jobId == b.jobId && a.rankId == b.rankId
  }

  /** Availability first, then (tick, job_id, rank_id). */
  function SeenLt(cast: string -> Option<real>): (Row, Row) -> bool {
    (a: Row, b: Row) =>
      a.Stamped(cast).At? && b.Stamped(cast).At? &&
      (a.Stamped(cast).time < b.Stamped(cast).time || (a.Stamped(cast) == b.Stamped(cast) && RowLt(a, b)))
  }

  function SeenGt(cast: string -> Option<real>): (Row, Row) -> bool {
    (a: Row, b: Row) => SeenLt(cast)(b, a)
  }

  function SameSeen(cast: string -> Option<real>): (Row, Row) -> bool {
    (a: Row, b: Row) => a.Stamped(cast) == b.Stamped(cast) && SameKey(a, b)
  }

  predicate IdLt(a: Row, b: Row) { Below(a.rowId, b.rowId) }
  predicate IdGt(a: Row, b: Row) { Below(b.rowId, a.rowId) }
  predicate IntGt(a: int, b: int) { a > b }

  function UserRows(t: Table, user: string): set<Row> {
    set id | id in t && t[id].userId == user :: t[id]
  }

  lemma RowLtTransitive(a: Row, b: Row, c: Row)
    requires RowLt(a, b) && RowLt(b, c)
    ensures RowLt(a, c)
  {
    if Below(a.jobId, b.jobId) && Below(b.jobId, c.jobId) { BelowTransitive(a.jobId, b.jobId, c.jobId); }
    if Below(a.rankId, b.rankId) && Below(b.rankId, c.rankId) { BelowTransitive(a.rankId, b.rankId, c.rankId); }
  }

  lemma RowLtOrSame(a: Row, b: Row)
    ensures RowLt(a, b) || RowLt(b, a) || SameKey(a, b)
    ensures SameKey(a, b) ==> !RowLt(a, b)
  {
    if a.jobId != b.jobId { BelowTotal(a.jobId, b.jobId); }
    if a.rankId != b.rankId { BelowTotal(a.rankId, b.rankId); }
    BelowIrreflexive(a.jobId);
    BelowIrreflexive(a.rankId);
  }

  lemma RowsAreWeaklyOrdered(s: set<Row>)
    ensures WeakOn(RowLt, SameKey, s)
    ensures forall x, y | x in s && y in s && SameKey(x, y) :: SameKey(y, x) && !RowLt(x, y)
  {
    forall a, b ensures RowLt(a, b) || RowLt(b, a) || SameKey(a, b) { RowLtOrSame(a, b); }
    forall a, b | SameKey(a, b) ensures !RowLt(a, b) { RowLtOrSame(a, b); }
    forall a, b, c | RowLt(a, b) && RowLt(b, c) ensures RowLt(a, c) { RowLtTransitive(a, b, c); }
  }

  lemma SeenRowsAreWeaklyOrdered(s: set<Row>, cast: string -> Option<real>)
    requires forall r | r in s :: r.Stamped(cast).At?
    ensures WeakOn(SeenLt(cast), SameSeen(cast), s)
    ensures forall x, y | x in s && y in s && SameSeen(cast)(x, y) :: SameSeen(cast)(y, x) && !SeenLt(cast)(x, y)
  {
    RowsAreWeaklyOrdered(s);
    var lt, same := SeenLt(cast), SameSeen(cast);
    forall x, y, z | x in s && y in s && z in s && (lt(x, y) || same(x, y)) && (lt(y, z) || same(y, z))
      ensures if same(x, y) && same(y, z) then same(x, z) else lt(x, z)
    {
      SeenChain(cast, x, y, z);
    }
  }

  lemma SeenChain(cast: string -> Option<real>, a: Row, b: Row, c: Row)
    requires SeenLt(cast)(a, b) || SameSeen(cast)(a, b)
    requires SeenLt(cast)(b, c) || SameSeen(cast)(b, c)
    ensures if SameSeen(cast)(a, b) && SameSeen(cast)(b, c) then SameSeen(cast)(a, c) else SeenLt(cast)(a, c)
  {
    if RowLt(a, b) && RowLt(b, c) { RowLtTransitive(a, b, c); }
    RowLtOrSame(a, b);
    RowLtOrSame(b, c);
  }

  lemma IdsAreOrdered(t: Table, user: string, s: set<Row>)
    requires s <= UserRows(t, user)
    ensures TotalOn(IdLt, s) && TotalOn(IdGt, s)
  {
    forall a: Row ensures !IdLt(a, a) { BelowIrreflexive(a.rowId); }
    forall a, b | a in s && b in s && a != b ensures IdLt(a, b) || IdLt(b, a) {
      assert a in UserRows(t, user) && b in UserRows(t, user);
      BelowTotal(a.rowId, b.rowId);
    }
    forall a: Row, b: Row, c: Row | IdLt(a, b) && IdLt(b, c)
      ensures IdLt(a, c)
    {
      BelowTransitive(a.rowId, b.rowId, c.rowId);
    }
  }

  /** One way to break the ties of a query over rows of a table. */
  lemma TiesCanBeBroken(t: Table, user: string, s: set<Row>, lt: (Row, Row) -> bool, same: (Row, Row) -> bool)
    requires s <= UserRows(t, user) && WeakOn(lt, same, s)
    requires forall x, y | x in s && y in s && same(x, y) :: same(y, x) && !lt(x, y)
    ensures TotalOn(ThenBy(lt, same, IdLt), s) && Sorts(lt, s, InOrder(ThenBy(lt, same, IdLt), s))
    ensures TotalOn(ThenBy(lt, same, IdGt), s) && Sorts(lt, s, InOrder(ThenBy(lt, same, IdGt), s))
  {
    IdsAreOrdered(t, user, s);
    ThenByIsTotal(lt, same, IdLt, s);
    ThenByIsTotal(lt, same, IdGt, s);
    BrokenTiesSort(lt, same, IdLt, s);
    BrokenTiesSort(lt, same, IdGt, s);
  }

  // The sorted table and windows of it: what each query may return.

  ghost predicate IsRowsForUser(t: Table, user: string, r: seq<Row>) {
    Sorts(RowLt, UserRows(t, user), r)
  }

  function Window(t: Table, user: string, start: int, end: int): set<Row> {
    set r | r in UserRows(t, user) && start <= r.tick <= end
  }

  ghost predicate IsRowsInWindow(t: Table, user: string, start: int, end: int, r: seq<Row>) {
    Sorts(RowLt, Window(t, user, start, end), r)
  }

  // Ticks.

  function Ticks(t: Table, user: string): set<int> {
    set r | r in UserRows(t, user) :: r.tick
  }

  /** The distinct ticks, newest first. */
  function NewestTicks(t: Table, user: string): (r: seq<int>)
    ensures Lists(IntGt, Ticks(t, user), r)
  {
    InOrder(IntGt, Ticks(t, user))
  }

  /** The largest tick, or 0 without evidence. */
  function CurrentTick(t: Table, user: string): int {
    var ticks := NewestTicks(t, user);
    if ticks == [] then 0 else ticks[0]
  }

  /** The rows that a second select on `t2` finds for the n newest ticks a first one found on `t1`. */
  function RecentAcross(t1: Table, t2: Table, user: string, n: nat): set<Row> {
    set r | r in UserRows(t2, user) && r.tick in Take(NewestTicks(t1, user), n)
  }

  /** The n-th newest tick, or the oldest when there are fewer. */
  function NthNewest(t: Table, user: string, n: nat): int
    requires n >= 1 && NewestTicks(t, user) != []
  {
    var ids := Take(NewestTicks(t, user), n);
    ids[|ids| - 1]
  }

  lemma TakenTicks(t: Table, user: string, n: nat, tick: int)
    requires n >= 1 && NewestTicks(t, user) != []
    ensures tick in Take(NewestTicks(t, user), n) ==> NthNewest(t, user, n) <= tick <= CurrentTick(t, user)
    ensures tick in Ticks(t, user) && NthNewest(t, user, n) <= tick ==> tick in Take(NewestTicks(t, user), n)
  {
    var all := NewestTicks(t, user);
    var ids := Take(all, n);
    if tick in ids { var i :| 0 <= i < |ids| && ids[i] == tick; }
    if tick in Ticks(t, user) {
      var i :| 0 <= i < |all| && all[i] == tick;
      if i < |ids| { assert ids[i] == tick; }
    }
  }

  /** No tick that the second select sees lies among the taken ones without being one of them. */
  predicate NoTickBetween(t1: Table, t2: Table, user: string, n: nat)
    requires n >= 1 && NewestTicks(t1, user) != []
  {
    forall tick | tick in Ticks(t2, user) && NthNewest(t1, user, n) <= tick <= CurrentTick(t1, user) ::
      tick in Take(NewestTicks(t1, user), n)
  }

  /**
   When the two selects see different tables: the rows found are the window of the taken
   ticks exactly when no tick came in between.
   */
  lemma {:induction false} RecentAcrossIff(t1: Table, t2: Table, user: string, n: nat)
    requires n >= 1 && NewestTicks(t1, user) != []
    ensures RecentAcross(t1, t2, user, n) == Window(t2, user, NthNewest(t1, user, n), CurrentTick(t1, user)) <==>
      NoTickBetween(t1, t2, user, n)
  {
    var found, window := RecentAcross(t1, t2, user, n), Window(t2, user, NthNewest(t1, user, n), CurrentTick(t1, user));
    forall r | r in UserRows(t2, user) ensures r.tick in Ticks(t2, user) && (r in found ==> r in window) {
      TakenTicks(t1, user, n, r.tick);
    }
    if found == window {
      forall tick | tick in Ticks(t2, user) && NthNewest(t1, user, n) <= tick <= CurrentTick(t1, user)
        ensures tick in Take(NewestTicks(t1, user), n)
      {
        var r :| r in UserRows(t2, user) && r.tick == tick;
        assert r in window && r in found;
      }
    }
  }

  /** On one table the most recent ticks are a window: from the n-th newest distinct tick to the current one. */
  lemma {:induction false} RecentIsAWindow(t: Table, user: string, n: nat)
    requires n >= 1
    ensures NewestTicks(t, user) == [] ==> UserRows(t, user) == {}
    ensures NewestTicks(t, user) != [] ==>
      RecentAcross(t, t, user, n) == Window(t, user, NthNewest(t, user, n), CurrentTick(t, user))
  {
    forall r | r in UserRows(t, user) ensures r.tick in NewestTicks(t, user) { assert r.tick in Ticks(t, user); }
    if NewestTicks(t, user) != [] {
      forall tick | tick in Ticks(t, user) && NthNewest(t, user, n) <= tick
        ensures tick in Take(NewestTicks(t, user), n)
      {
        TakenTicks(t, user, n, tick);
      }
      RecentAcrossIff(t, t, user, n);
    }
  }

  // Newest rows, and point-in-time reads.

  /** A point-in-time read: whose rows, available before when, and how the database casts a text to a number. */
  datatype Ask = Ask(user: string, cutoff: real, cast: string -> Option<real>)

  /** The row as the read sees it. */
  function Sight(row: Row, q: Ask): Option<Row> {
    var stamp := row.Stamped(q.cast);
    if row.userId == q.user && stamp.At? && stamp.time < q.cutoff then Some(row) else None
  }

  /** A row whose availability makes the cast fail, and with it the query. */
  predicate Refused(row: Row, q: Ask) {
    row.userId == q.user && row.Stamped(q.cast).Uncastable?
  }

  predicate Raises(t: Table, q: Ask) {
    exists id :: id in t && Refused(t[id], q)
  }

  /** The rows a point-in-time read may return. */
  function Visible(t: Table, q: Ask): set<Row> {
    set r | r in UserRows(t, q.user) && Sight(r, q).Some?
  }

  /** The last `limit` rows of the user's sorted table, ties in any order. */
  ghost predicate IsLatest(t: Table, user: string, limit: int, r: seq<Row>) {
    if limit <= 0 then r == [] else exists all :: IsRowsForUser(t, user, all) && r == LastN(all, limit)
  }

  /** The last `limit` visible rows by availability, ties in any order; None where the query raises. */
  ghost predicate IsLatestBefore(t: Table, q: Ask, limit: int, r: Option<seq<Row>>) {
    if limit <= 0 then r == Some([])
    else if Raises(t, q) then r == None
    else r.Some? && exists all :: Sorts(SeenLt(q.cast), Visible(t, q), all) && r.value == LastN(all, limit)
  }

  /** `str(value).lower()` of the first truthy workload field, else of the second one. */
  function WorkloadType(lower: Json -> string, features: Dict<Json>): Option<string> {
    if features == [] then None
    else
      match Get<Json>(features, "type")
      case Some(v) => if Truthy(v) then Some(lower(v)) else OtherType(lower, features)
      case None => OtherType(lower, features)
  }

  function OtherType(lower: Json -> string, features: Dict<Json>): Option<string> {
    match Get<Json>(features, "workload_type")
    case None => None
    case Some(JNull) => None
    case Some(v) => Some(lower(v))
  }

  /** The row's features can be read: they are an object, or falsy. */
  predicate HasFeatures(row: Row) {
    GetOr(row.payload, "X", JObj([])).JObj?
  }

  /** The workload type of a stored row with features. */
  function WorkloadOf(lower: Json -> string, row: Row): Option<string> {
    match GetOr(row.payload, "X", JObj([]))
    case JObj(features) => WorkloadType(lower, features)
    case _ => None
  }

  function OfWorkload(lower: Json -> string, rows: seq<Row>, workload: Option<string>): (r: seq<Row>)
    ensures forall x | x in r :: x in rows && WorkloadOf(lower, x) == workload
    ensures forall x | x in rows && WorkloadOf(lower, x) == workload :: x in r
  {
    if rows == [] then []
    else
      var last := rows[|rows| - 1];
      assert rows == rows[..|rows| - 1] + [last];
      OfWorkload(lower, rows[..|rows| - 1], workload) + (if WorkloadOf(lower, last) == workload then [last] else [])
  }

  predicate Ascending(rows: seq<Row>) {
    forall i, j | 0 <= i < j < |rows| :: rows[i] != rows[j] && !RowLt(rows[j], rows[i])
  }

  lemma {:induction false} OfWorkloadInOrder(lower: Json -> string, rows: seq<Row>, workload: Option<string>)
    requires Ascending(rows)
    ensures Ascending(OfWorkload(lower, rows, workload))
    decreases |rows|
  {
    if rows != [] {
      var n := |rows| - 1;
      var shorter := rows[..n];
      OfWorkloadInOrder(lower, shorter, workload);
      BehindAll(rows, n);
      InOrderSnoc(OfWorkload(lower, shorter, workload), rows[n]);
    }
  }

  lemma BehindAll(rows: seq<Row>, n: nat)
    requires n < |rows| && Ascending(rows)
    ensures forall x | x in rows[..n] :: x != rows[n] && !RowLt(rows[n], x)
  {
  }

  lemma InOrderSnoc(rows: seq<Row>, x: Row)
    requires Ascending(rows) && forall y | y in rows :: y != x && !RowLt(x, y)
    ensures Ascending(rows + [x])
  {
    assert forall i | 0 <= i < |rows| :: rows[i] in rows;
  }

  lemma SomeOfWorkload(lower: Json -> string, rows: seq<Row>, workload: Option<string>)
    ensures OfWorkload(lower, rows, workload) != [] <==> exists x :: x in rows && WorkloadOf(lower, x) == workload
  {
    if OfWorkload(lower, rows, workload) != [] { assert OfWorkload(lower, rows, workload)[0] in rows; }
  }

  /** The rows of the same workload type when it is known and there are any, else all of them. */
  function Similar(lower: Json -> string, rows: seq<Row>, workload: Option<string>): seq<Row> {
    var matched := OfWorkload(lower, rows, workload);
    if workload.Some? && matched != [] then matched else rows
  }

  /** In the order of (tick, job_id, rank_id), `a` may stand before `b`. */
  predicate MayPrecede(a: Row, b: Row) {
    a.tick <= b.tick &&
      (a.tick == b.tick ==>
         !Below(b.jobId, a.jobId) && (a.jobId == b.jobId ==> !Below(b.rankId, a.rankId)))
  }

  /**
   The end of the rows in an order: n of them or all when there are fewer, each once, in
   that order, and none left out has to stand behind one of them.
   */
  ghost predicate IsEnd(mayPrecede: (Row, Row) -> bool, rows: set<Row>, n: nat, r: seq<Row>) {
    && (forall x | x in r :: x in rows)
    && |r| == (if n < |rows| then n else |rows|)
    && (forall i, j | 0 <= i < j < |r| :: r[i] != r[j] && mayPrecede(r[i], r[j]))
    && (forall x, y | x in rows && x !in r && y in r :: mayPrecede(x, y))
  }

  lemma BeforeTheEnd(all: seq<Row>, cut: nat, x: Row, y: Row)
    requires cut <= |all| && x in all && x !in all[cut..] && y in all[cut..]
    ensures exists i, j :: 0 <= i < j < |all| && all[i] == x && all[j] == y
  {
    var i :| 0 <= i < |all| && all[i] == x;
    var j :| 0 <= j < |all[cut..]| && all[cut..][j] == y;
    assert forall k | cut <= k < |all| :: all[k] == all[cut..][k - cut];
    assert all[cut + j] == y;
  }

  lemma EndOfSorted(lt: (Row, Row) -> bool, may: (Row, Row) -> bool, rows: set<Row>, all: seq<Row>, n: nat)
    requires Sorts(lt, rows, all) && forall x, y | x in rows && y in rows && !lt(y, x) :: may(x, y)
    ensures IsEnd(may, rows, n, LastN(all, n))
  {
    var r := LastN(all, n);
    var cut := |all| - |r|;
    DistinctLength(rows, all);
    forall i, j | 0 <= i < j < |all| ensures all[i] != all[j] && may(all[i], all[j]) {
      assert all[i] in all && all[j] in all;
    }
    assert r == all[cut..];
    forall x, y | x in rows && x !in r && y in r ensures may(x, y) {
      BeforeTheEnd(all, cut, x, y);
    }
  }

  lemma SimilarAreSorted(lower: Json -> string, rows: set<Row>, all: seq<Row>, workload: Option<string>)
    requires Sorts(RowLt, rows, all)
    ensures workload.Some? && (exists x :: x in rows && WorkloadOf(lower, x) == workload) ==>
      Sorts(RowLt, (set x | x in rows && WorkloadOf(lower, x) == workload), Similar(lower, all, workload))
    ensures !(workload.Some? && exists x :: x in rows && WorkloadOf(lower, x) == workload) ==>
      Similar(lower, all, workload) == all
  {
    OfWorkloadInOrder(lower, all, workload);
    SomeOfWorkload(lower, all, workload);
  }

  /** The last of the similar rows, said of the table. */
  lemma EndOfSimilar(lower: Json -> string, rows: set<Row>, all: seq<Row>, workload: Option<string>, n: nat)
    requires Sorts(RowLt, rows, all)
    ensures
      var r := LastN(Similar(lower, all, workload), n);
      if workload.Some? && exists x :: x in rows && WorkloadOf(lower, x) == workload then
        IsEnd(MayPrecede, (set x | x in rows && WorkloadOf(lower, x) == workload), n, r)
      else IsEnd(MayPrecede, rows, n, r)
  {
    SimilarAreSorted(lower, rows, all, workload);
    if workload.Some? && exists x :: x in rows && WorkloadOf(lower, x) == workload {
      EndOfSorted(RowLt, MayPrecede, (set x | x in rows && WorkloadOf(lower, x) == workload),
        Similar(lower, all, workload), n);
    } else {
      EndOfSorted(RowLt, MayPrecede, rows, all, n);
    }
  }

  /** No later put of the batch goes under the same id. */
  predicate LastPut(rows: seq<Row>, i: nat)
    requires i < |rows|
  {
    forall j | i < j < |rows| :: rows[j].rowId != rows[i].rowId
  }

  predicate Puts(rows: seq<Row>, id: string) {
    exists i :: 0 <= i < |rows| && rows[i].rowId == id
  }

  /** The batch puts a row id twice that the table does not have. */
  predicate RepeatsNewId(t: Table, rows: seq<Row>) {
    exists i, j :: 0 <= i < j < |rows| && rows[i].rowId == rows[j].rowId && rows[i].rowId !in t
  }

  lemma PutsSnoc(rows: seq<Row>, n: nat)
    requires n < |rows|
    ensures forall id :: Puts(rows[..n + 1], id) <==> Puts(rows[..n], id) || rows[n].rowId == id
  {
    var longer, shorter := rows[..n + 1], rows[..n];
    forall id ensures Puts(longer, id) <==> Puts(shorter, id) || rows[n].rowId == id {
      if i :| 0 <= i < |longer| && longer[i].rowId == id { assert i < n ==> shorter[i].rowId == id; }
      if i :| 0 <= i < |shorter| && shorter[i].rowId == id { assert longer[i].rowId == id; }
      assert longer[n] == rows[n];
    }
  }

  /** Part-way through a batch: the session's rows, its pending new ids, and whether one was added twice. */
  ghost predicate Merging(before: Table, rows: seq<Row>, t: Table, pending: set<string>, clash: bool) {
    && t == MergeAll(before, rows)
    && (forall id :: id in pending <==> id !in before && Puts(rows, id))
    && clash == RepeatsNewId(before, rows)
  }

  lemma NothingMerged(t: Table)
    ensures Merging(t, [], t, {}, false)
  {
  }

  lemma MergingSnoc(before: Table, rows: seq<Row>, n: nat, t: Table, pending: set<string>, clash: bool)
    requires n < |rows| && Merging(before, rows[..n], t, pending, clash)
    ensures
      var row := rows[n];
      var isNew := row.rowId !in before;
      Merging(before, rows[..n + 1], t[row.rowId := row], if isNew then pending + {row.rowId} else pending,
        clash || (isNew && row.rowId in pending))
  {
    assert rows[..n + 1][..n] == rows[..n];
    PutsSnoc(rows, n);
    RepeatsSnoc(before, rows, n);
  }

  lemma RepeatsSnoc(t: Table, rows: seq<Row>, n: nat)
    requires n < |rows|
    ensures RepeatsNewId(t, rows[..n + 1]) <==>
      RepeatsNewId(t, rows[..n]) || (rows[n].rowId !in t && Puts(rows[..n], rows[n].rowId))
  {
    var longer, shorter := rows[..n + 1], rows[..n];
    assert longer == shorter + [rows[n]];
    if i, j :| 0 <= i < j < |longer| && longer[i].rowId == longer[j].rowId && longer[i].rowId !in t {
      assert shorter[i] == longer[i];
      if j < n { assert shorter[j] == longer[j]; }
    }
    if i, j :| 0 <= i < j < |shorter| && shorter[i].rowId == shorter[j].rowId && shorter[i].rowId !in t {
      assert longer[i] == shorter[i] && longer[j] == shorter[j];
    }
    if rows[n].rowId !in t && Puts(shorter, rows[n].rowId) {
      var i :| 0 <= i < |shorter| && shorter[i].rowId == rows[n].rowId;
      assert longer[i] == shorter[i] && longer[n] == rows[n];
    }
  }

  class Store {
    var table: Table

    constructor ()
      ensures table == map[]
    {
      table := map[];
    }

    method Put(row: Row)
      modifies this
      ensures table == old(table)[row.rowId := row] == Merge(old(table), row)
    {
      table := table[row.rowId := row];
    }

    /**
     All rows are merged in order, or none: a merge does not see one still pending, so a
     new row id that the batch repeats is inserted twice and refused at the commit.
     */
    method PutMany(rows: seq<Row>) returns (stored: Option<seq<Row>>)
      modifies this
      ensures stored == if RepeatsNewId(old(table), rows) then None else Some(rows)
      ensures table == if stored.Some? then MergeAll(old(table), rows) else old(table)
    {
      if rows == [] { return Some([]); }
      var before, pending, clash := table, {}, false;
      NothingMerged(table);
      for i := 0 to |rows|
        invariant before == old(table) && Merging(before, rows[..i], table, pending, clash)
      {
        var row := rows[i];
        MergingSnoc(before, rows, i, table, pending, clash);
        if row.rowId !in before {
          clash := clash || row.rowId in pending;
          pending := pending + {row.rowId};
        }
        table := table[row.rowId := row];
      }
      assert rows[..|rows|] == rows;
      if clash {
        table := before;
        return None;
      }
      return Some(rows);
    }

    /** A select ordered by (tick, job_id, rank_id). */
    method Select(user: string, rows: set<Row>) returns (r: seq<Row>)
      requires rows <= UserRows(table, user)
      ensures Sorts(RowLt, rows, r)
    {
      RowsAreWeaklyOrdered(rows);
      TiesCanBeBroken(table, user, rows, RowLt, SameKey);
      r := InOrder(ThenBy(RowLt, SameKey, IdLt), rows);
    }

    method RowsForUser(user: string) returns (r: seq<Row>)
      ensures IsRowsForUser(table, user, r)
    {
      r := Select(user, UserRows(table, user));
    }

    method RowsInWindow(user: string, start: int, end: int) returns (r: seq<Row>)
      ensures IsRowsInWindow(table, user, start, end, r)
    {
      r := Select(user, Window(table, user, start, end));
    }

    /** The newest distinct ticks, then the rows of those ticks. */
    method Recent(user: string, n: int) returns (r: seq<Row>)
      ensures n <= 0 || NewestTicks(table, user) == [] ==> r == []
      ensures n > 0 && NewestTicks(table, user) != [] ==>
        IsRowsInWindow(table, user, NthNewest(table, user, n), CurrentTick(table, user), r)
    {
      if n <= 0 { return []; }
      var ids := Take(NewestTicks(table, user), n);
      if ids == [] { return []; }
      RecentIsAWindow(table, user, n);
      r := Select(user, set x | x in UserRows(table, user) && x.tick in ids);
    }

    /** The same select descending. */
    method SelectDown(user: string, rows: set<Row>) returns (r: seq<Row>)
      requires rows <= UserRows(table, user)
      ensures Sorts(RowGt, rows, r)
    {
      RowsAreWeaklyOrdered(rows);
      WeakDown(RowLt, RowGt, SameKey, rows);
      TiesCanBeBroken(table, user, rows, RowGt, SameKey);
      r := InOrder(ThenBy(RowGt, SameKey, IdLt), rows);
    }

    /** The descending select by availability. */
    method SelectSeenDown(user: string, cast: string -> Option<real>, rows: set<Row>) returns (r: seq<Row>)
      requires rows <= UserRows(table, user) && forall x | x in rows :: x.Stamped(cast).At?
      ensures Sorts(SeenGt(cast), rows, r)
    {
      SeenRowsAreWeaklyOrdered(rows, cast);
      WeakDown(SeenLt(cast), SeenGt(cast), SameSeen(cast), rows);
      TiesCanBeBroken(table, user, rows, SeenGt(cast), SameSeen(cast));
      r := InOrder(ThenBy(SeenGt(cast), SameSeen(cast), IdLt), rows);
    }

    /** The descending query with its limit, reversed: the end of the sorted table. */
    method Latest(user: string, limit: int) returns (rows: seq<Row>)
      ensures IsLatest(table, user, limit, rows)
    {
      if limit <= 0 { return []; }
      var down := SelectDown(user, UserRows(table, user));
      SortsBackwards(RowLt, RowGt, UserRows(table, user), down);
      EndOfReversed(down, limit);
      rows := Reversed(Take(down, limit));
    }

    method LatestBefore(q: Ask, limit: int) returns (rows: Option<seq<Row>>)
      ensures IsLatestBefore(table, q, limit, rows)
    {
      if limit <= 0 { return Some([]); }
      if Raises(table, q) { return None; }
      var down := SelectSeenDown(q.user, q.cast, Visible(table, q));
      SortsBackwards(SeenLt(q.cast), SeenGt(q.cast), Visible(table, q), down);
      EndOfReversed(down, limit);
      return Some(Reversed(Take(down, limit)));
    }

    /**
     The last rows of the same workload type; the latest rows when there are none; None
     where reading features raises.
     */
    method RetrieveSimilarRows(user: string, lower: Json -> string, features: Dict<Json>, topK: int)
      returns (rows: Option<seq<Row>>)
      ensures topK <= 0 ==> rows == Some([])
      ensures topK > 0 ==>
        (rows.None? <==>
          WorkloadType(lower, features).Some? && exists x :: x in UserRows(table, user) && !HasFeatures(x))
      ensures topK > 0 && rows.Some? ==> exists all ::
        IsRowsForUser(table, user, all) && rows.value == LastN(Similar(lower, all, WorkloadType(lower, features)), topK)
      ensures topK > 0 && rows.Some? ==>
        var own, workload := UserRows(table, user), WorkloadType(lower, features);
        if workload.Some? && exists x :: x in own && WorkloadOf(lower, x) == workload then
          IsEnd(MayPrecede, (set x | x in own && WorkloadOf(lower, x) == workload), topK, rows.value)
        else IsLatest(table, user, topK, rows.value) && IsEnd(MayPrecede, own, topK, rows.value)
    {
      if topK <= 0 { return Some([]); }
      var all := RowsForUser(user);
      var kept := all;
      var workload := WorkloadType(lower, features);
      if workload.Some? {
        if exists x :: x in all && !HasFeatures(x) { return None; }
        var matched := OfWorkload(lower, all, workload);
        if matched != [] {
          assert matched[0] in all;
          kept := matched;
        }
      }
      EndOfSimilar(lower, UserRows(table, user), all, workload, topK);
      SimilarAreSorted(lower, UserRows(table, user), all, workload);
      return Some(LastN(kept, topK));
    }
  }

  lemma WeakDown(lt: (Row, Row) -> bool, gt: (Row, Row) -> bool, same: (Row, Row) -> bool, s: set<Row>)
    requires WeakOn(lt, same, s) && forall x, y :: gt(x, y) <==> lt(y, x)
    requires forall x, y | x in s && y in s && same(x, y) :: same(y, x) && !lt(x, y)
    ensures WeakOn(gt, same, s)
    ensures forall x, y | x in s && y in s && same(x, y) :: same(y, x) && !gt(x, y)
  {
  }

  lemma EndOfReversed(down: seq<Row>, n: nat)
    ensures Reversed(Take(down, n)) == LastN(Reversed(down), n)
  {
    assert Reversed(Reversed(down)) == down;
    ReversedTake(Reversed(down), n);
  }

  /**
   Python's `rows[-limit:]` when a limit is given; zero keeps everything and a negative
   limit drops from the front.
   */
  function ApplyLimit(rows: seq<Row>, limit: Option<int>): seq<Row> {
    if limit.None? then rows
    else if limit.value > 0 then LastN(rows, limit.value)
    else if -limit.value <= |rows| then rows[-limit.value..]
    else []
  }

  /** The limit bounds the number of rows exactly for limits of at least one. */
  lemma {:induction false} LimitBoundsIff(limit: int)
    ensures limit >= 1 <==> forall rows: seq<Row> :: |ApplyLimit(rows, Some(limit))| <= limit
  {
    if limit <= 0 {
      var row := Row("", "", 0, "", "", []);
      var rows := seq(1 - limit, i => row);
      assert |ApplyLimit(rows, Some(limit))| > limit;
    }
  }

  // When the order of a read is determined.

  /** Each user has at most one row for a (tick, job, rank). */
  predicate Keyed(t: Table, user: string) {
    forall i, j | i in t && j in t && t[i].userId == user && t[j].userId == user && SameKey(t[i], t[j]) :: i == j
  }

  lemma KeyedIsTotal(t: Table, user: string)
    requires Keyed(t, user)
    ensures TotalOn(RowLt, UserRows(t, user))
  {
    RowsAreWeaklyOrdered(UserRows(t, user));
    forall a, b | a in UserRows(t, user) && b in UserRows(t, user) && a != b ensures RowLt(a, b) || RowLt(b, a) {
      assert t[a.rowId] == a && t[b.rowId] == b;
    }
    forall a: Row, b: Row, c: Row | RowLt(a, b) && RowLt(b, c) ensures RowLt(a, c) { RowLtTransitive(a, b, c); }
  }

  lemma TieEitherWay(a: Row, b: Row)
    requires IdLt(a, b) && SameKey(a, b)
    ensures ThenBy(RowLt, SameKey, IdLt)(a, b) && ThenBy(RowLt, SameKey, IdGt)(b, a)
  {
    assert SameKey(b, a) && IdGt(b, a);
  }

  lemma TiesShow(t: Table, user: string, a: Row, b: Row) returns (r1: seq<Row>, r2: seq<Row>)
    requires a in UserRows(t, user) && b in UserRows(t, user) && IdLt(a, b) && SameKey(a, b)
    ensures IsRowsForUser(t, user, r1) && IsRowsForUser(t, user, r2) && r1 != r2
  {
    var s := UserRows(t, user);
    var lo, hi := ThenBy(RowLt, SameKey, IdLt), ThenBy(RowLt, SameKey, IdGt);
    RowsAreWeaklyOrdered(s);
    TiesCanBeBroken(t, user, s, RowLt, SameKey);
    TieEitherWay(a, b);
    OppositeOrdersDiffer(lo, hi, s, a, b);
    r1, r2 := InOrder(lo, s), InOrder(hi, s);
  }

  /** The query order fixes the result if and only if the user has at most one row for a (tick, job, rank). */
  lemma {:induction false} ReadsAreDeterminedIff(t: Table, user: string)
    ensures Keyed(t, user) <==>
      forall r1, r2 | IsRowsForUser(t, user, r1) && IsRowsForUser(t, user, r2) :: r1 == r2
  {
    if Keyed(t, user) {
      KeyedIsTotal(t, user);
      forall r1, r2 | IsRowsForUser(t, user, r1) && IsRowsForUser(t, user, r2) ensures r1 == r2 {
        SortedOnce(RowLt, UserRows(t, user), r1);
        SortedOnce(RowLt, UserRows(t, user), r2);
      }
    } else {
      var i, j :| i in t && j in t && t[i].userId == user && t[j].userId == user && SameKey(t[i], t[j]) && i != j;
      BelowTotal(i, j);
      var a, b := if Below(i, j) then t[i] else t[j], if Below(i, j) then t[j] else t[i];
      var r1, r2 := TiesShow(t, user, a, b);
    }
  }

  // No look-ahead.

  /** The row under `id` as a point-in-time read of the user sees it. */
  function VisibleUnder(t: Table, id: string, q: Ask): Option<Row> {
    if id in t then Sight(t[id], q) else None
  }

  lemma SeenThroughIds(t: Table, q: Ask, r: Row)
    ensures r in Visible(t, q) <==> VisibleUnder(t, r.rowId, q) == Some(r)
  {
    if VisibleUnder(t, r.rowId, q) == Some(r) { assert t[r.rowId] in UserRows(t, q.user); }
  }

  /** Two tables show the same rows exactly when they show the same under every id. */
  lemma VisibleThroughIds(t: Table, t': Table, q: Ask)
    ensures Visible(t, q) == Visible(t', q) <==>
      forall id :: VisibleUnder(t, id, q) == VisibleUnder(t', id, q)
  {
    var a, b := Visible(t, q), Visible(t', q);
    if a == b {
      forall id ensures VisibleUnder(t, id, q) == VisibleUnder(t', id, q) {
        var x, y := VisibleUnder(t, id, q), VisibleUnder(t', id, q);
        if x.Some? { SeenThroughIds(t, q, x.value); SeenThroughIds(t', q, x.value); }
        if y.Some? { SeenThroughIds(t, q, y.value); SeenThroughIds(t', q, y.value); }
      }
    } else if x :| x in a && x !in b {
      SeenThroughIds(t, q, x);
      SeenThroughIds(t', q, x);
    } else {
      var y :| y in b && y !in a;
      SeenThroughIds(t, q, y);
      SeenThroughIds(t', q, y);
    }
  }

  lemma {:induction false} UntouchedId(t: Table, rows: seq<Row>, id: string)
    requires !Puts(rows, id)
    ensures id in MergeAll(t, rows) <==> id in t
    ensures id in t ==> MergeAll(t, rows)[id] == t[id]
    decreases |rows|
  {
    if rows != [] {
      assert rows[|rows| - 1].rowId != id;
      UntouchedId(t, rows[..|rows| - 1], id);
    }
  }

  lemma {:induction false} LastPutStays(t: Table, rows: seq<Row>, i: nat)
    requires i < |rows| && LastPut(rows, i)
    ensures rows[i].rowId in MergeAll(t, rows) && MergeAll(t, rows)[rows[i].rowId] == rows[i]
    decreases |rows|
  {
    var n := |rows| - 1;
    if i < n {
      assert LastPut(rows[..n], i);
      assert rows[n].rowId != rows[i].rowId;
      LastPutStays(t, rows[..n], i);
    }
  }

  lemma {:induction false} SomeLastPut(rows: seq<Row>, id: string) returns (i: nat)
    requires Puts(rows, id)
    ensures i < |rows| && rows[i].rowId == id && LastPut(rows, i)
    decreases |rows|
  {
    var n := |rows| - 1;
    if rows[n].rowId == id {
      i := n;
    } else {
      var k :| 0 <= k < |rows| && rows[k].rowId == id;
      assert rows[..n][k].rowId == id;
      i := SomeLastPut(rows[..n], id);
      forall j | i < j < |rows| ensures rows[j].rowId != rows[i].rowId {
        if j < n { assert rows[..n][j].rowId != rows[..n][i].rowId; }
      }
    }
  }

  /** What each id of the batch shows at the end is what it showed before. */
  predicate KeepsSight(t: Table, rows: seq<Row>, q: Ask) {
    forall i | 0 <= i < |rows| && LastPut(rows, i) ::
      VisibleUnder(t, rows[i].rowId, q) == Sight(rows[i], q)
  }

  lemma SightsAfterPuts(t: Table, rows: seq<Row>, q: Ask)
    ensures KeepsSight(t, rows, q) <==>
      forall id :: VisibleUnder(t, id, q) == VisibleUnder(MergeAll(t, rows), id, q)
  {
    var t' := MergeAll(t, rows);
    if KeepsSight(t, rows, q) {
      forall id ensures VisibleUnder(t, id, q) == VisibleUnder(t', id, q) {
        if Puts(rows, id) {
          var i := SomeLastPut(rows, id);
          LastPutStays(t, rows, i);
        } else {
          UntouchedId(t, rows, id);
        }
      }
    } else {
      var i :| 0 <= i < |rows| && LastPut(rows, i) &&
        VisibleUnder(t, rows[i].rowId, q) != Sight(rows[i], q);
      LastPutStays(t, rows, i);
      assert VisibleUnder(t', rows[i].rowId, q) == Sight(rows[i], q);
    }
  }

  /** The query raises once the batch is stored. */
  predicate RaisesAfter(t: Table, rows: seq<Row>, q: Ask) {
    || (exists i :: 0 <= i < |rows| && LastPut(rows, i) && Refused(rows[i], q))
    || RaisesElsewhere(t, rows, q)
  }

  /** A stored row that the batch does not touch makes the query raise. */
  predicate RaisesElsewhere(t: Table, rows: seq<Row>, q: Ask) {
    exists id :: id in t && !Puts(rows, id) && Refused(t[id], q)
  }

  lemma RaisesAfterPuts(t: Table, rows: seq<Row>, q: Ask)
    ensures Raises(MergeAll(t, rows), q) <==> RaisesAfter(t, rows, q)
  {
    var t' := MergeAll(t, rows);
    if Raises(t', q) {
      var id :| id in t' && Refused(t'[id], q);
      if Puts(rows, id) {
        var i := SomeLastPut(rows, id);
        LastPutStays(t, rows, i);
      } else {
        UntouchedId(t, rows, id);
      }
    }
    if i :| 0 <= i < |rows| && LastPut(rows, i) && Refused(rows[i], q) { LastPutStays(t, rows, i); }
    if id :| id in t && !Puts(rows, id) && Refused(t[id], q) { UntouchedId(t, rows, id); }
  }

  /** Tables that show different rows, and on which the query does not raise, answer some read differently. */
  lemma DifferenceShows(t: Table, t': Table, q: Ask) returns (limit: int, r: Option<seq<Row>>)
    requires !Raises(t, q) && !Raises(t', q) && Visible(t, q) != Visible(t', q)
    ensures IsLatestBefore(t, q, limit, r) && !IsLatestBefore(t', q, limit, r)
  {
    var s, s' := Visible(t, q), Visible(t', q);
    var lt := SeenLt(q.cast);
    var lex := ThenBy(lt, SameSeen(q.cast), IdLt);
    SeenRowsAreWeaklyOrdered(s, q.cast);
    TiesCanBeBroken(t, q.user, s, lt, SameSeen(q.cast));
    var all := InOrder(lex, s);
    limit := |s| + |s'| + 1;
    r := Some(all);
    DistinctLength(s, all);
    assert LastN(all, limit) == all;
    forall other | Sorts(lt, s', other) ensures all != LastN(other, limit) {
      DistinctLength(s', other);
      assert LastN(other, limit) == other;
      if all == other { SameMembers(lt, s, s', all); }
    }
  }

  /** The query raised before and does after, or did not and does not and every id of the batch shows what it showed. */
  predicate KeepsPast(t: Table, rows: seq<Row>, q: Ask) {
    if Raises(t, q) then RaisesAfter(t, rows, q) else !RaisesAfter(t, rows, q) && KeepsSight(t, rows, q)
  }

  ghost predicate SameReads(t: Table, t': Table, q: Ask) {
    forall limit: int, r: Option<seq<Row>> :: IsLatestBefore(t', q, limit, r) <==> IsLatestBefore(t, q, limit, r)
  }

  lemma SameReadsIff(t: Table, t': Table, q: Ask)
    ensures SameReads(t, t', q) <==> Raises(t, q) == Raises(t', q) && (Raises(t, q) || Visible(t, q) == Visible(t', q))
  {
    if Raises(t, q) != Raises(t', q) {
      assert IsLatestBefore(t', q, 1, None) != IsLatestBefore(t, q, 1, None);
    } else if !Raises(t, q) && Visible(t, q) != Visible(t', q) {
      var limit, r := DifferenceShows(t, t', q);
    }
  }

  /**
   Exactly which batches of puts leave the past alone: every point-in-time read
   may return, or raise, what it might before if and only if `KeepsPast` holds of
   the table and the batch.
   */
  lemma {:induction false} PutsKeepPastIff(t: Table, rows: seq<Row>, q: Ask)
    ensures KeepsPast(t, rows, q) <==>
      forall limit: int, r: Option<seq<Row>> ::
        IsLatestBefore(MergeAll(t, rows), q, limit, r) <==> IsLatestBefore(t, q, limit, r)
  {
    SightsAfterPuts(t, rows, q);
    VisibleThroughIds(t, MergeAll(t, rows), q);
    RaisesAfterPuts(t, rows, q);
    SameReadsIff(t, MergeAll(t, rows), q);
    assert SameReads(t, MergeAll(t, rows), q) <==> KeepsPast(t, rows, q);
  }

  lemma OnePut(t: Table, row: Row, q: Ask)
    ensures MergeAll(t, [row]) == Merge(t, row)
    ensures KeepsSight(t, [row], q) <==> VisibleUnder(t, row.rowId, q) == Sight(row, q)
    ensures RaisesAfter(t, [row], q) <==>
      Refused(row, q) || exists id :: id in t && id != row.rowId && Refused(t[id], q)
  {
    assert [row][..0] == [];
    assert LastPut([row], 0);
    forall id ensures Puts([row], id) <==> row.rowId == id {
      if row.rowId == id { assert [row][0].rowId == id; }
    }
  }

  /**
   A single put keeps the past exactly when the query raises both times, or neither, and
   then the row shows what its id showed.
   */
  lemma {:induction false} PutKeepsPastIff(t: Table, row: Row, q: Ask)
    ensures
      var raises := Refused(row, q) || exists id :: id in t && id != row.rowId && Refused(t[id], q);
      (if Raises(t, q) then raises else !raises && VisibleUnder(t, row.rowId, q) == Sight(row, q)) <==>
      forall limit: int, r: Option<seq<Row>> ::
        IsLatestBefore(Merge(t, row), q, limit, r) <==> IsLatestBefore(t, q, limit, r)
  {
    OnePut(t, row, q);
    PutsKeepPastIff(t, [row], q);
  }

  /** A row that a read of this user before the cutoff must not see, and that its cast accepts. */
  predicate InTheFuture(row: Row, q: Ask) {
    var stamp := row.Stamped(q.cast);
    row.userId != q.user || stamp.Never? || (stamp.At? && stamp.time >= q.cutoff)
  }

  /** These are exactly the rows that the read neither shows nor raises on. */
  lemma FutureIsNotSeen(row: Row, q: Ask)
    ensures InTheFuture(row, q) <==> Sight(row, q) == None && !Refused(row, q)
  {
  }

  lemma FutureKeepsPast(t: Table, rows: seq<Row>, q: Ask)
    requires forall i | 0 <= i < |rows| ::
      InTheFuture(rows[i], q) && (rows[i].rowId in t ==> InTheFuture(t[rows[i].rowId], q))
    ensures KeepsPast(t, rows, q)
  {
    forall i | 0 <= i < |rows|
      ensures Sight(rows[i], q) == None && !Refused(rows[i], q) && VisibleUnder(t, rows[i].rowId, q) == None
    {
      FutureIsNotSeen(rows[i], q);
      if rows[i].rowId in t { FutureIsNotSeen(t[rows[i].rowId], q); }
    }
    forall id | id in t && Refused(t[id], q) ensures !Puts(rows, id) {
      if i :| 0 <= i < |rows| && rows[i].rowId == id { FutureIsNotSeen(t[rows[i].rowId], q); }
    }
  }

  /**
   No look-ahead: any sequence of puts of rows that become available at or after
   the cutoff, or never, changes no point-in-time read, as long as it replaces only
   such rows; ids may be new or old, and be put any number of times.
   */
  lemma {:induction false} NoLookAhead(t: Table, rows: seq<Row>, q: Ask, limit: int, r: Option<seq<Row>>)
    requires forall i | 0 <= i < |rows| ::
      InTheFuture(rows[i], q) && (rows[i].rowId in t ==> InTheFuture(t[rows[i].rowId], q))
    ensures IsLatestBefore(MergeAll(t, rows), q, limit, r) <==> IsLatestBefore(t, q, limit, r)
  {
    FutureKeepsPast(t, rows, q);
    PutsKeepPastIff(t, rows, q);
  }
}
