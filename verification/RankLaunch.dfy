/** The closed form of the rank upsert loop, and what it never changes. */
module RankLaunch {
  import opened Results
  import opened Jobs
  import opened Lifecycle

  predicate Mentions(batch: seq<Rank>, id: string) {
    exists i :: 0 <= i < |batch| && batch[i].rankId == id
  }

  lemma MentionsSnoc(batch: seq<Rank>, id: string)
    requires batch != []
    ensures Mentions(batch, id) <==> batch[|batch| - 1].rankId == id || Mentions(batch[..|batch| - 1], id)
  {
    var shorter := batch[..|batch| - 1];
    if Mentions(batch, id) && batch[|batch| - 1].rankId != id {
      var i :| 0 <= i < |batch| && batch[i].rankId == id;
      assert shorter[i].rankId == id;
    }
    if i :| 0 <= i < |shorter| && shorter[i].rankId == id { assert batch[i].rankId == id; }
  }

  /** The batch's last word on a rank. */
  function LastOf(batch: seq<Rank>, id: string): (r: Rank)
    requires Mentions(batch, id)
    ensures r.rankId == id
  {
    var n := |batch| - 1;
    MentionsSnoc(batch, id);
    if batch[n].rankId == id then batch[n] else LastOf(batch[..n], id)
  }

  /** The batch's first word on a rank. */
  function FirstOf(batch: seq<Rank>, id: string): (r: Rank)
    requires Mentions(batch, id)
    ensures r.rankId == id
  {
    var n := |batch| - 1;
    MentionsSnoc(batch, id);
    if Mentions(batch[..n], id) then FirstOf(batch[..n], id) else batch[n]
  }

  lemma {:induction false} LastOfIsLast(batch: seq<Rank>, id: string) returns (i: nat)
    requires Mentions(batch, id)
    ensures i < |batch| && batch[i] == LastOf(batch, id) && batch[i].rankId == id
    ensures forall k | i < k < |batch| :: batch[k].rankId != id
    decreases |batch|
  {
    i := |batch| - 1;
    if batch[i].rankId != id {
      MentionsSnoc(batch, id);
      i := LastOfIsLast(batch[..i], id);
    }
  }

  lemma {:induction false} FirstOfIsFirst(batch: seq<Rank>, id: string) returns (i: nat)
    requires Mentions(batch, id)
    ensures i < |batch| && batch[i] == FirstOf(batch, id) && batch[i].rankId == id
    ensures forall k | 0 <= k < i :: batch[k].rankId != id
    decreases |batch|
  {
    i := |batch| - 1;
    if Mentions(batch[..i], id) {
      i := FirstOfIsFirst(batch[..i], id);
    } else {
      MentionsSnoc(batch, id);
      forall k | 0 <= k < i ensures batch[k].rankId != id { assert batch[..i][k] == batch[k]; }
    }
  }

  /** Nothing in the batch meets a row, old or written earlier by the batch, of another job. */
  predicate OwnersAgree(ranks: RankTable, batch: seq<Rank>) {
    && (forall i | 0 <= i < |batch| && batch[i].rankId in ranks :: ranks[batch[i].rankId].jobId == batch[i].jobId)
    && (forall i, j | 0 <= i < j < |batch| && batch[i].rankId == batch[j].rankId :: batch[i].jobId == batch[j].jobId)
  }

  /** The table's own checks: positive replica counts, and a job for every fresh row. */
  predicate RowsAllowed(jobs: JobTable, ranks: RankTable, batch: seq<Rank>) {
    forall i | 0 <= i < |batch| ::
      batch[i].nReplicas > 0 && (batch[i].rankId in ranks || batch[i].jobId in jobs)
  }

  function BirthOf(ranks: RankTable, batch: seq<Rank>, id: string): int
    requires Mentions(batch, id)
  {
    if id in ranks then ranks[id].createdAt else FirstOf(batch, id).createdAt
  }

  /** `after` knows the ranks of `before` and those mentioned, and leaves the others alone. */
  ghost predicate AddsMentioned(before: RankTable, batch: seq<Rank>, after: RankTable) {
    && (forall id | id in after :: id in before || Mentions(batch, id))
    && (forall id | id in before && !Mentions(batch, id) :: id in after && after[id] == before[id])
    && (forall i | 0 <= i < |batch| :: batch[i].rankId in after)
  }

  /** Each mentioned rank has the batch's last word, born when the rank was first known. */
  ghost predicate IsMerge(before: RankTable, batch: seq<Rank>, after: RankTable) {
    && AddsMentioned(before, batch, after)
    && (forall id | id in after && Mentions(batch, id) ::
          after[id] == LastOf(batch, id).(createdAt := BirthOf(before, batch, id)))
  }

  lemma ConditionsSnoc(jobs: JobTable, ranks: RankTable, batch: seq<Rank>)
    requires batch != []
    ensures
      var shorter, r := batch[..|batch| - 1], batch[|batch| - 1];
      OwnersAgree(ranks, batch) && RowsAllowed(jobs, ranks, batch) <==>
        && OwnersAgree(ranks, shorter) && RowsAllowed(jobs, ranks, shorter)
        && r.nReplicas > 0
        && (if r.rankId in ranks then ranks[r.rankId].jobId == r.jobId
            else r.jobId in jobs && forall i | 0 <= i < |shorter| &&
              shorter[i].rankId == r.rankId :: shorter[i].jobId == r.jobId)
  {
    var shorter, r := batch[..|batch| - 1], batch[|batch| - 1];
    assert batch == shorter + [r];
    if OwnersAgree(ranks, batch) && RowsAllowed(jobs, ranks, batch) {
      assert forall i | 0 <= i < |shorter| :: shorter[i] == batch[i];
    }
  }

  /**
   The upsert loop has a closed form: it succeeds exactly when owners agree and
   the rows are allowed, and then its result is the merge.
   */
  lemma {:induction false} LaunchClosedForm(jobs: JobTable, ranks: RankTable, batch: seq<Rank>)
    ensures LaunchRanks(jobs, ranks, batch).Ok? <==> OwnersAgree(ranks, batch) && RowsAllowed(jobs, ranks, batch)
    ensures LaunchRanks(jobs, ranks, batch).Ok? ==> IsMerge(ranks, batch, LaunchRanks(jobs, ranks, batch).value)
    decreases |batch|
  {
    if batch != [] {
      var shorter, r := batch[..|batch| - 1], batch[|batch| - 1];
      LaunchClosedForm(jobs, ranks, shorter);
      ConditionsSnoc(jobs, ranks, batch);
      if LaunchRanks(jobs, ranks, shorter).Ok? {
        var soFar := LaunchRanks(jobs, ranks, shorter).value;
        OwnerSoFar(ranks, shorter, soFar, r);
        if LaunchRanks(jobs, ranks, batch).Ok? { MergeSnoc(jobs, ranks, batch, soFar); }
      }
    }
  }

  /** Who owns a rank part-way through the batch. */
  lemma OwnerSoFar(ranks: RankTable, shorter: seq<Rank>, soFar: RankTable, r: Rank)
    requires OwnersAgree(ranks, shorter) && IsMerge(ranks, shorter, soFar)
    ensures r.rankId in soFar <==> r.rankId in ranks || Mentions(shorter, r.rankId)
    ensures r.rankId in ranks ==> soFar[r.rankId].jobId == ranks[r.rankId].jobId
    ensures Mentions(shorter, r.rankId) ==>
      (soFar[r.rankId].jobId == r.jobId <==> forall i | 0 <= i < |shorter| && shorter[i].rankId == r.rankId ::
        shorter[i].jobId == r.jobId)
  {
    if Mentions(shorter, r.rankId) {
      var i := LastOfIsLast(shorter, r.rankId);
      assert r.rankId in soFar && soFar[r.rankId].jobId == shorter[i].jobId;
    }
  }

  lemma MergedRowSnoc(jobs: JobTable, ranks: RankTable, batch: seq<Rank>, soFar: RankTable, after: RankTable,
      id: string)
    requires batch != [] && IsMerge(ranks, batch[..|batch| - 1], soFar)
    requires Upsert(jobs, soFar, batch[|batch| - 1]) == Ok(after)
    requires id in after && Mentions(batch, id)
    ensures after[id] == LastOf(batch, id).(createdAt := BirthOf(ranks, batch, id))
  {
    var shorter, r := batch[..|batch| - 1], batch[|batch| - 1];
    MentionsSnoc(batch, id);
    if id == r.rankId && Mentions(shorter, id) {
      var i :| 0 <= i < |shorter| && shorter[i].rankId == id;
      assert id in soFar;
    }
  }

  lemma MergedKeysSnoc(jobs: JobTable, ranks: RankTable, batch: seq<Rank>, soFar: RankTable, after: RankTable)
    requires batch != [] && AddsMentioned(ranks, batch[..|batch| - 1], soFar)
    requires Upsert(jobs, soFar, batch[|batch| - 1]) == Ok(after)
    ensures AddsMentioned(ranks, batch, after)
  {
    var shorter, r := batch[..|batch| - 1], batch[|batch| - 1];
    assert after.Keys == soFar.Keys + {r.rankId};
    forall id ensures Mentions(batch, id) <==> r.rankId == id || Mentions(shorter, id) { MentionsSnoc(batch, id); }
    forall i | 0 <= i < |batch| ensures batch[i].rankId in after {
      if i < |shorter| { assert shorter[i] == batch[i]; }
    }
  }

  lemma MergeSnoc(jobs: JobTable, ranks: RankTable, batch: seq<Rank>, soFar: RankTable)
    requires batch != [] && IsMerge(ranks, batch[..|batch| - 1], soFar)
    requires Upsert(jobs, soFar, batch[|batch| - 1]).Ok?
    ensures IsMerge(ranks, batch, Upsert(jobs, soFar, batch[|batch| - 1]).value)
  {
    var after := Upsert(jobs, soFar, batch[|batch| - 1]).value;
    MergedKeysSnoc(jobs, ranks, batch, soFar, after);
    forall id | id in after && Mentions(batch, id)
      ensures after[id] == LastOf(batch, id).(createdAt := BirthOf(ranks, batch, id))
    {
      MergedRowSnoc(jobs, ranks, batch, soFar, after, id);
    }
  }

  /** The merge is one table: the closed form leaves no freedom. */
  lemma {:induction false} MergeIsUnique(before: RankTable, batch: seq<Rank>, a: RankTable, b: RankTable)
    requires IsMerge(before, batch, a) && IsMerge(before, batch, b)
    ensures a == b
  {
    forall id | id in a ensures id in b && a[id] == b[id] { InMerge(before, batch, a, b, id); }
    forall id | id in b ensures id in a { InMerge(before, batch, b, a, id); }
  }

  lemma InMerge(before: RankTable, batch: seq<Rank>, a: RankTable, b: RankTable, id: string)
    requires IsMerge(before, batch, a) && IsMerge(before, batch, b) && id in a
    ensures id in b && a[id] == b[id]
  {
    if Mentions(batch, id) {
      var i :| 0 <= i < |batch| && batch[i].rankId == id;
      assert batch[i].rankId in b;
    }
  }

  /** Launching a batch that just succeeded changes nothing. */
  lemma {:induction false} RelaunchChangesNothing(jobs: JobTable, ranks: RankTable, batch: seq<Rank>, after: RankTable)
    requires LaunchRanks(jobs, ranks, batch) == Ok(after)
    ensures LaunchRanks(jobs, after, batch) == Ok(after)
  {
    LaunchClosedForm(jobs, ranks, batch);
    forall i | 0 <= i < |batch| ensures batch[i].rankId in after && after[batch[i].rankId].jobId == batch[i].jobId {
      OwnerSoFar(ranks, batch, after, batch[i]);
      assert Mentions(batch, batch[i].rankId);
      forall j | 0 <= j < |batch| && batch[j].rankId == batch[i].rankId ensures batch[j].jobId == batch[i].jobId {
        assert i < j || j < i || i == j;
      }
    }
    LaunchClosedForm(jobs, after, batch);
    var again := LaunchRanks(jobs, after, batch).value;
    forall id | id in after && Mentions(batch, id)
      ensures after[id] == LastOf(batch, id).(createdAt := BirthOf(after, batch, id))
    {
    }
    assert IsMerge(after, batch, after);
    MergeIsUnique(after, batch, again, after);
  }

  lemma {:induction false} LaunchKeepsRankIdentity(jobs: JobTable, ranks: RankTable, batch: seq<Rank>,
      after: RankTable, id: string)
    requires LaunchRanks(jobs, ranks, batch) == Ok(after) && id in ranks
    ensures id in after && after[id].jobId == ranks[id].jobId && after[id].createdAt == ranks[id].createdAt
  {
    LaunchClosedForm(jobs, ranks, batch);
    if Mentions(batch, id) {
      var i := LastOfIsLast(batch, id);
      assert batch[i].rankId in after;
    }
  }

  lemma StepKeepsRankIdentity(store: Store, call: Call, id: string)
    requires id in store.ranks
    ensures id in Next(store, call).ranks
    ensures Next(store, call).ranks[id].jobId == store.ranks[id].jobId
    ensures Next(store, call).ranks[id].createdAt == store.ranks[id].createdAt
  {
    if call.Launch? {
      if LaunchRanks(store.jobs, store.ranks, call.batch).Ok? {
        LaunchKeepsRankIdentity(store.jobs, store.ranks, call.batch, Next(store, call).ranks, id);
      }
    } else if !call.SetRankStatus? {
      OnlyRankCallsTouchRanks(store, call);
    }
  }

  lemma OnlyRankCallsTouchRanks(store: Store, call: Call)
    requires !call.Launch? && !call.SetRankStatus?
    ensures Next(store, call).ranks == store.ranks
  {
  }

  /** A rank keeps its owning job and its creation time through every run of job-store calls. */
  lemma {:induction false} RankIdentityIsFixed(store: Store, calls: seq<Call>, id: string)
    requires id in store.ranks
    ensures id in Run(store, calls).ranks
    ensures Run(store, calls).ranks[id].jobId == store.ranks[id].jobId
    ensures Run(store, calls).ranks[id].createdAt == store.ranks[id].createdAt
    decreases |calls|
  {
    if calls != [] {
      StepKeepsRankIdentity(store, calls[0], id);
      RankIdentityIsFixed(Next(store, calls[0]), calls[1..], id);
    }
  }
}
