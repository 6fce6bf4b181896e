/** Grouping active ranks under the running jobs they serve. */
module RunningJobs {
  import opened Results
  import opened Folds
  import opened Ordering
  import opened Text
  import opened JsonValues
  import opened Jobs

  datatype RankAllocation = RankAllocation(
    rankId: string,
    planId: Option<string>,
    role: RankRole,
    status: RankStatus,
    shape: Json,
    nReplicas: int,
    reasonCode: Option<string>)

  datatype RunningJob = RunningJob(job: Job, ranks: seq<RankAllocation>)

  function Allocation(r: Rank): RankAllocation {
    RankAllocation(r.rankId, r.planId, r.role, r.status, r.shape, r.nReplicas, r.reasonCode)
  }

  function AllocationAt(): Rank -> seq<RankAllocation> { (r: Rank) => [Allocation(r)] }

  function Allocations(rows: seq<Rank>): seq<RankAllocation> {
    Collect(rows, AllocationAt())
  }

  function AllocationFor(jobId: string): Rank -> seq<RankAllocation> {
    (r: Rank) => if r.jobId == jobId then [Allocation(r)] else []
  }

  /** A job's own ranks, in the order the query returned them. */
  function Serving(rows: seq<Rank>, jobId: string): seq<RankAllocation> {
    Collect(rows, AllocationFor(jobId))
  }

  /** The nested-loop join of the two row lists. */
  function Join(jobs: seq<Job>, rows: seq<Rank>): (r: seq<RunningJob>)
    ensures |r| == |jobs|
    ensures forall i | 0 <= i < |jobs| :: r[i] == RunningJob(jobs[i], Serving(rows, jobs[i].jobId))
  {
    if jobs == [] then []
    else Join(jobs[..|jobs| - 1], rows) + [RunningJob(jobs[|jobs| - 1], Serving(rows, jobs[|jobs| - 1].jobId))]
  }

  lemma ServingSnoc(rows: seq<Rank>, r: Rank, jobId: string)
    ensures Serving(rows + [r], jobId) == Serving(rows, jobId) + (if r.jobId == jobId then [Allocation(r)] else [])
  {
    assert (rows + [r])[..|rows|] == rows;
  }

  /** The list kept for a job so far; a job without an entry has none. */
  function Kept(ranksByJob: map<string, seq<RankAllocation>>, id: string): seq<RankAllocation> {
    if id in ranksByJob then ranksByJob[id] else []
  }

  ghost predicate Groups(ranksByJob: map<string, seq<RankAllocation>>, rows: seq<Rank>) {
    forall id :: Kept(ranksByJob, id) == Serving(rows, id)
  }

  lemma GroupsSnoc(before: map<string, seq<RankAllocation>>, rows: seq<Rank>, r: Rank)
    requires Groups(before, rows)
    ensures Groups(before[r.jobId := Kept(before, r.jobId) + [Allocation(r)]], rows + [r])
  {
    var after := before[r.jobId := Kept(before, r.jobId) + [Allocation(r)]];
    forall id ensures Kept(after, id) == Serving(rows + [r], id) {
      ServingSnoc(rows, r, id);
      assert Kept(before, id) == Serving(rows, id);
    }
  }

  lemma GroupsStep(before: map<string, seq<RankAllocation>>, rows: seq<Rank>, i: nat)
    requires i < |rows| && Groups(before, rows[..i])
    ensures var r := rows[i]; Groups(before[r.jobId := Kept(before, r.jobId) + [Allocation(r)]], rows[..i + 1])
  {
    GroupsSnoc(before, rows[..i], rows[i]);
    assert rows[..i + 1] == rows[..i] + [rows[i]];
  }

  /** The allocation reports the rank row, field by field. */
  predicate Carries(a: RankAllocation, r: Rank) {
    && a.rankId == r.rankId && a.planId == r.planId && a.role == r.role && a.status == r.status
    && a.shape == r.shape && a.nReplicas == r.nReplicas && a.reasonCode == r.reasonCode
  }

  /** The places of a job's own rows, in order. */
  ghost predicate PicksOwn(at: seq<nat>, rows: seq<Rank>, jobId: string) {
    && (forall k | 0 <= k < |at| :: at[k] < |rows| && rows[at[k]].jobId == jobId)
    && (forall k, m | 0 <= k < m < |at| :: at[k] < at[m])
    && (forall i: nat | i < |rows| && rows[i].jobId == jobId :: i in at)
  }

  /** The list reports exactly the job's own rows, in row order, the k-th from the k-th. */
  ghost predicate ReportsOwn(ranks: seq<RankAllocation>, rows: seq<Rank>, jobId: string) {
    exists at: seq<nat> :: PicksOwn(at, rows, jobId) && ReportsAt(ranks, rows, at)
  }

  ghost predicate ReportsAt(ranks: seq<RankAllocation>, rows: seq<Rank>, at: seq<nat>) {
    |ranks| == |at| && forall k | 0 <= k < |at| :: at[k] < |rows| && Carries(ranks[k], rows[at[k]])
  }

  lemma {:induction false} ServingReportsOwn(rows: seq<Rank>, jobId: string) returns (at: seq<nat>)
    ensures PicksOwn(at, rows, jobId) && ReportsAt(Serving(rows, jobId), rows, at)
    decreases |rows|
  {
    at := [];
    if rows != [] {
      var n := |rows| - 1;
      var before := rows[..n];
      assert rows == before + [rows[n]];
      at := ServingReportsOwn(before, jobId);
      ServingSnoc(before, rows[n], jobId);
      if rows[n].jobId == jobId { at := at + [n]; }
    }
  }

  /** One pass over the rank rows that appends each allocation to its job's list. */
  method BuildGroups(rankRows: seq<Rank>) returns (ranksByJob: map<string, seq<RankAllocation>>)
    ensures Groups(ranksByJob, rankRows)
  {
    ranksByJob := map[];
    for i := 0 to |rankRows|
      invariant Groups(ranksByJob, rankRows[..i])
    {
      var rank := rankRows[i];
      GroupsStep(ranksByJob, rankRows, i);
      ghost var next := ranksByJob[rank.jobId := Kept(ranksByJob, rank.jobId) + [Allocation(rank)]];
      if rank.jobId !in ranksByJob {
        ranksByJob := ranksByJob[rank.jobId := []];
      }
      ranksByJob := ranksByJob[rank.jobId := ranksByJob[rank.jobId] + [Allocation(rank)]];
      assert ranksByJob == next;
    }
    assert rankRows[..|rankRows|] == rankRows;
  }

  /** The running jobs of the job rows, each with its list; no rank is looked at when there are no jobs. */
  method GroupRunning(jobRows: seq<Job>, rankRows: seq<Rank>) returns (r: seq<RunningJob>)
    ensures r == Join(jobRows, rankRows)
    ensures |r| == |jobRows|
    ensures forall i | 0 <= i < |r| ::
      r[i].job == jobRows[i] && ReportsOwn(r[i].ranks, rankRows, jobRows[i].jobId)
  {
    forall i | 0 <= i < |jobRows| ensures ReportsOwn(Serving(rankRows, jobRows[i].jobId), rankRows, jobRows[i].jobId) {
      var at := ServingReportsOwn(rankRows, jobRows[i].jobId);
    }
    if jobRows == [] { return []; }
    var ranksByJob := BuildGroups(rankRows);
    r := [];
    for i := 0 to |jobRows|
      invariant |r| == i
      invariant forall k | 0 <= k < i :: r[k] == RunningJob(jobRows[k], Serving(rankRows, jobRows[k].jobId))
    {
      var id := jobRows[i].jobId;
      assert Kept(ranksByJob, id) == Serving(rankRows, id);
      r := r + [RunningJob(jobRows[i], if id in ranksByJob then ranksByJob[id] else [])];
    }
  }

  function RanksOf(): RunningJob -> seq<RankAllocation> { (j: RunningJob) => j.ranks }

  function AllRanks(js: seq<RunningJob>): seq<RankAllocation> {
    Collect(js, RanksOf())
  }

  function ReplicasOf(): RankAllocation -> int { (a: RankAllocation) => a.nReplicas }
  function JobReplicas(): RunningJob -> int { (j: RunningJob) => Sum(j.ranks, ReplicasOf()) }

  ghost predicate DistinctJobs(jobs: seq<Job>) {
    forall i, j | 0 <= i < j < |jobs| :: jobs[i].jobId != jobs[j].jobId
  }

  predicate NamesJob(jobs: seq<Job>, id: string) {
    exists i :: 0 <= i < |jobs| && jobs[i].jobId == id
  }

  lemma NamesJobSnoc(jobs: seq<Job>, id: string)
    requires jobs != []
    ensures NamesJob(jobs, id) <==> jobs[|jobs| - 1].jobId == id || NamesJob(jobs[..|jobs| - 1], id)
  {
    var shorter := jobs[..|jobs| - 1];
    if i :| 0 <= i < |jobs| && jobs[i].jobId == id {
      assert i < |shorter| ==> shorter[i].jobId == id;
    }
    if i :| 0 <= i < |shorter| && shorter[i].jobId == id { assert jobs[i].jobId == id; }
  }

  lemma AllRanksOfJoin(jobs: seq<Job>, rows: seq<Rank>)
    requires jobs != []
    ensures AllRanks(Join(jobs, rows)) ==
      AllRanks(Join(jobs[..|jobs| - 1], rows)) + Serving(rows, jobs[|jobs| - 1].jobId)
  {
    assert Join(jobs, rows)[..|jobs| - 1] == Join(jobs[..|jobs| - 1], rows);
  }

  lemma NotNamedTwice(jobs: seq<Job>)
    requires DistinctJobs(jobs) && jobs != []
    ensures !NamesJob(jobs[..|jobs| - 1], jobs[|jobs| - 1].jobId)
  {
  }

  /** One more rank row lands under exactly one job, the one that owns it. */
  lemma {:induction false} JoinAddsOnce(jobs: seq<Job>, rows: seq<Rank>, r: Rank)
    requires DistinctJobs(jobs)
    ensures multiset(AllRanks(Join(jobs, rows + [r]))) ==
      multiset(AllRanks(Join(jobs, rows))) + (if NamesJob(jobs, r.jobId) then multiset{Allocation(r)} else multiset{})
    decreases |jobs|
  {
    if jobs != [] {
      var n := |jobs| - 1;
      var shorter := jobs[..n];
      JoinAddsOnce(shorter, rows, r);
      NamesJobSnoc(jobs, r.jobId);
      NotNamedTwice(jobs);
      AllRanksOfJoin(jobs, rows);
      AllRanksOfJoin(jobs, rows + [r]);
      ServingSnoc(rows, r, jobs[n].jobId);
    }
  }

  lemma {:induction false} JoinOfNoRanks(jobs: seq<Job>)
    ensures AllRanks(Join(jobs, [])) == []
    decreases |jobs|
  {
    if jobs != [] {
      assert Join(jobs, [])[..|jobs| - 1] == Join(jobs[..|jobs| - 1], []);
      JoinOfNoRanks(jobs[..|jobs| - 1]);
    }
  }

  /** Every rank row appears under some job exactly once: nothing is dropped or repeated. */
  lemma {:induction false} JoinKeepsEveryRank(jobs: seq<Job>, rows: seq<Rank>)
    requires DistinctJobs(jobs)
    requires forall i | 0 <= i < |rows| :: NamesJob(jobs, rows[i].jobId)
    ensures multiset(AllRanks(Join(jobs, rows))) == multiset(Allocations(rows))
    decreases |rows|
  {
    if rows == [] {
      JoinOfNoRanks(jobs);
    } else {
      var n := |rows| - 1;
      assert rows == rows[..n] + [rows[n]];
      JoinKeepsEveryRank(jobs, rows[..n]);
      JoinAddsOnce(jobs, rows[..n], rows[n]);
    }
  }

  function RowReplicas(): Rank -> int { (r: Rank) => r.nReplicas }

  lemma SumOfAllocations(rows: seq<Rank>)
    ensures Sum(Allocations(rows), ReplicasOf()) == Sum(rows, RowReplicas())
  {
    forall i | 0 <= i < |rows| ensures Sum(AllocationAt()(rows[i]), ReplicasOf()) == RowReplicas()(rows[i]) {
      SumOne(Allocation(rows[i]), ReplicasOf());
    }
    SumCollect(rows, AllocationAt(), ReplicasOf(), RowReplicas());
  }

  /** Grouping conserves the replicas: those of all running jobs are those of the rank rows themselves. */
  lemma {:induction false} ReplicasConserved(jobs: seq<Job>, rows: seq<Rank>)
    requires DistinctJobs(jobs)
    requires forall i | 0 <= i < |rows| :: NamesJob(jobs, rows[i].jobId)
    ensures Sum(Join(jobs, rows), JobReplicas()) == Sum(rows, RowReplicas())
  {
    JoinKeepsEveryRank(jobs, rows);
    SumCollect(Join(jobs, rows), RanksOf(), ReplicasOf(), JobReplicas());
    SumRearranged(AllRanks(Join(jobs, rows)), Allocations(rows), ReplicasOf());
    SumOfAllocations(rows);
  }

  // The two queries behind the row lists.

  predicate Active(r: Rank) {
    r.status == Launching || r.status == RankRunning
  }

  predicate OlderRank(a: Rank, b: Rank) {
    a.createdAt < b.createdAt || (a.createdAt == b.createdAt && Below(a.rankId, b.rankId))
  }

  function ActiveOf(ranks: RankTable, jobId: string): set<Rank> {
    set id | id in ranks && ranks[id].jobId == jobId && Active(ranks[id]) :: ranks[id]
  }

  lemma OlderRankIsTotal(ranks: RankTable, s: set<Rank>)
    requires forall r | r in s :: r.rankId in ranks && ranks[r.rankId] == r
    ensures TotalOn(OlderRank, s)
  {
    forall a: Rank ensures !OlderRank(a, a) { BelowIrreflexive(a.rankId); }
    forall a, b | a in s && b in s && a != b
      ensures OlderRank(a, b) || OlderRank(b, a)
    {
      BelowTotal(a.rankId, b.rankId);
    }
    forall a: Rank, b: Rank, c: Rank | OlderRank(a, b) && OlderRank(b, c) ensures OlderRank(a, c) {
      if Below(a.rankId, b.rankId) && Below(b.rankId, c.rankId) { BelowTransitive(a.rankId, b.rankId, c.rankId); }
    }
  }

  /** A job's launching or running ranks, oldest first. */
  function ActiveRanks(ranks: RankTable, jobId: string): (r: seq<Rank>)
    ensures Lists(OlderRank, ActiveOf(ranks, jobId), r)
  {
    OlderRankIsTotal(ranks, ActiveOf(ranks, jobId));
    InOrder(OlderRank, ActiveOf(ranks, jobId))
  }

  /** Said of the table: a job's ranks that are launching or running, by creation time and then by id. */
  lemma {:induction false} ActiveRanksMeans(ranks: RankTable, jobId: string, r: Rank)
    ensures r in ActiveRanks(ranks, jobId) <==>
      && r.rankId in ranks && ranks[r.rankId] == r && r.jobId == jobId
      && (r.status == Launching || r.status == RankRunning)
    ensures
      var a := ActiveRanks(ranks, jobId);
      forall i, j | 0 <= i < j < |a| ::
        a[i].createdAt < a[j].createdAt || (a[i].createdAt == a[j].createdAt && Below(a[i].rankId, a[j].rankId))
  {
    assert r in ActiveRanks(ranks, jobId) <==> r in ActiveOf(ranks, jobId);
  }

  ghost predicate CarriesAll(a: seq<RankAllocation>, rows: seq<Rank>) {
    |a| == |rows| && forall k | 0 <= k < |a| :: Carries(a[k], rows[k])
  }

  lemma {:induction false} AllocationsCarry(rows: seq<Rank>)
    ensures CarriesAll(Allocations(rows), rows)
    decreases |rows|
  {
    if rows != [] { AllocationsCarry(rows[..|rows| - 1]); }
  }

  /** What the rank query may return: the jobs' active ranks, each once, by creation time with ties in any order. */
  ghost predicate IsActiveRankResult(ranks: RankTable, jobs: seq<Job>, rows: seq<Rank>) {
    && (forall i | 0 <= i < |rows| ::
          rows[i].rankId in ranks && ranks[rows[i].rankId] == rows[i] && Active(rows[i]) &&
            NamesJob(jobs, rows[i].jobId))
    && (forall id | id in ranks && Active(ranks[id]) && NamesJob(jobs, ranks[id].jobId) :: ranks[id] in rows)
    && (forall i, j | 0 <= i < j < |rows| :: rows[i] != rows[j] && rows[i].createdAt <= rows[j].createdAt)
  }

  function Own(rows: seq<Rank>, jobId: string): seq<Rank> {
    if rows == [] then []
    else
      var last := rows[|rows| - 1];
      Own(rows[..|rows| - 1], jobId) + (if last.jobId == jobId then [last] else [])
  }

  lemma {:induction false} ServingIsOwn(rows: seq<Rank>, jobId: string)
    ensures Serving(rows, jobId) == Allocations(Own(rows, jobId))
    decreases |rows|
  {
    if rows != [] {
      ServingIsOwn(rows[..|rows| - 1], jobId);
      var own := Own(rows[..|rows| - 1], jobId);
      CollectConcat(own, [rows[|rows| - 1]], AllocationAt());
      CollectOne(rows[|rows| - 1], AllocationAt());
      assert own + [] == own;
    }
  }

  lemma {:induction false} OwnMembers(rows: seq<Rank>, jobId: string)
    ensures forall r :: r in Own(rows, jobId) <==> r in rows && r.jobId == jobId
    decreases |rows|
  {
    if rows != [] {
      var n := |rows| - 1;
      OwnMembers(rows[..n], jobId);
      assert rows == rows[..n] + [rows[n]];
    }
  }

  lemma {:induction false} OwnOnce(rows: seq<Rank>, jobId: string)
    requires forall i, j | 0 <= i < j < |rows| :: rows[i] != rows[j]
    ensures forall i, j | 0 <= i < j < |Own(rows, jobId)| :: Own(rows, jobId)[i] != Own(rows, jobId)[j]
    decreases |rows|
  {
    if rows != [] {
      var n := |rows| - 1;
      OwnOnce(rows[..n], jobId);
      OwnMembers(rows[..n], jobId);
      assert rows[n] !in rows[..n];
    }
  }

  lemma {:induction false} SameMembersOnce(a: seq<Rank>, b: seq<Rank>)
    requires forall r :: r in a <==> r in b
    requires forall i, j | 0 <= i < j < |a| :: a[i] != a[j]
    requires forall i, j | 0 <= i < j < |b| :: b[i] != b[j]
    ensures multiset(a) == multiset(b)
  {
    forall r ensures multiset(a)[r] == multiset(b)[r] {
      CountOnce(a, r);
      CountOnce(b, r);
    }
  }

  lemma {:induction false} CountOnce(a: seq<Rank>, r: Rank)
    requires forall i, j | 0 <= i < j < |a| :: a[i] != a[j]
    ensures multiset(a)[r] == if r in a then 1 else 0
    decreases |a|
  {
    if a != [] {
      var n := |a| - 1;
      assert a == a[..n] + [a[n]];
      CountOnce(a[..n], r);
      assert a[n] !in a[..n];
    }
  }

  lemma {:induction false} OwnKeepsOrder(rows: seq<Rank>, jobId: string)
    requires forall i, j | 0 <= i < j < |rows| :: rows[i].createdAt <= rows[j].createdAt
    ensures forall i, j | 0 <= i < j < |Own(rows, jobId)| ::
      Own(rows, jobId)[i].createdAt <= Own(rows, jobId)[j].createdAt
    decreases |rows|
  {
    if rows != [] {
      var n := |rows| - 1;
      OwnKeepsOrder(rows[..n], jobId);
      forall r | r in Own(rows[..n], jobId) ensures r.createdAt <= rows[n].createdAt {
        OwnMembers(rows[..n], jobId);
        assert r in rows[..n];
      }
    }
  }

  lemma ActiveOnce(ranks: RankTable, jobId: string)
    ensures forall a, b | 0 <= a < b < |ActiveRanks(ranks, jobId)| ::
      ActiveRanks(ranks, jobId)[a] != ActiveRanks(ranks, jobId)[b]
  {
    OlderRankIsTotal(ranks, ActiveOf(ranks, jobId));
    ListsDistinct(OlderRank, ActiveOf(ranks, jobId), ActiveRanks(ranks, jobId));
  }

  lemma OwnAreActive(ranks: RankTable, jobs: seq<Job>, rows: seq<Rank>, jobId: string)
    requires IsActiveRankResult(ranks, jobs, rows) && NamesJob(jobs, jobId)
    ensures multiset(Own(rows, jobId)) == multiset(ActiveRanks(ranks, jobId))
  {
    var own, active := Own(rows, jobId), ActiveRanks(ranks, jobId);
    OwnMembers(rows, jobId);
    OwnOnce(rows, jobId);
    ActiveOnce(ranks, jobId);
    forall r ensures r in own <==> r in active { ActiveRanksMeans(ranks, jobId, r); }
    SameMembersOnce(own, active);
  }

  /**
   When both selects see the same table, each running job carries the
   allocations of exactly the ranks that asking for that job's active ranks
   returns, oldest first; only the order among ranks created at the same time may differ.
   */
  lemma {:induction false} RunningAgreesWithActive(ranks: RankTable, jobs: seq<Job>, rows: seq<Rank>, i: nat)
    requires IsActiveRankResult(ranks, jobs, rows) && i < |jobs|
    ensures exists own: seq<Rank> ::
      && CarriesAll(Join(jobs, rows)[i].ranks, own)
      && multiset(own) == multiset(ActiveRanks(ranks, jobs[i].jobId))
      && (forall a, b | 0 <= a < b < |own| :: own[a].createdAt <= own[b].createdAt)
  {
    var id := jobs[i].jobId;
    ServingIsOwn(rows, id);
    AllocationsCarry(Own(rows, id));
    OwnKeepsOrder(rows, id);
    assert NamesJob(jobs, id);
    OwnAreActive(ranks, jobs, rows, id);
  }
}
