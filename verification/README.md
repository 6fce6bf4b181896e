# Verified model of the tandemn data layer

A Dafny model of the parts of the Postgres-backed data layer in which tables,
cursors, trees and byte buffers change step by step, with proofs of what holds
over every run or every input. `dafny verify dfyconfig.toml` checks all of it.

Each store is a class whose fields are its tables; each `begin()` block is one
atomic method that commits or leaves the tables as they were. Each such method
is proved equal to a specification function on the table values and says outright
what it does to its tables; the laws are lemmas about those functions. What a
function computes from a row or a document is stated a second time, field by field,
in lemmas that spell its result out. A query with distinct sort keys is a function,
the unique listing of its rows; an evidence query, whose keys may tie, may return
any listing that its order allows.

- `EventLog`, `Delivery`, `Draining`, `Producers`: the event log with consumer
  cursors; it is read, acked and appended to by any number of parties that may
  crash, among them the job and plan stores.
- `Jobs`, `Lifecycle`, `RankLaunch`, `RunningJobs`, `Plans`, `PlanLoop`:
  compare-and-set status changes, the all-or-nothing rank upsert, the join behind
  `running_jobs`, and the plan handoff with the loop of workers around it.
- `ResourceMaps`, `SummaryLaws`, `TreeWalk`, `ResourceMapStore`, `ResourceMapLaws`,
  `StoredMaps`, `LegacyPools`, `LegacyLaws`: the five-level capacity tree, its traversal
  and flat summary, its stored JSON form under reordering of object members, and the
  legacy form.
- `Lines`, `Jsonl`, `Connectors`: chunked byte ranges and JSON lines, in local
  files and in object storage. Range requests follow section 14.1.2 of RFC 9110.
- `EvidenceStore`, `EvidenceReads`, `EvidenceIds`, `JsonSafe`, `EvidenceCodec`: windowed
  and point-in-time evidence reads, row ids, the payload normaliser, and the row codec
  around it.
- `Results`, `Text`, `Ordering`, `Folds`, `Dicts`, `JsonValues`, `Shuffles`: the
  shared vocabulary, among it insertion-ordered dicts and the theory of sorted
  listings.

## Where the code promises less than its documentation

- The event log keeps every event only for consumers whose producers append above
  the cursor and above the batch in flight (`Delivery.AppendIsSafeIff`). Two
  producers that commit out of key order lose an event
  (`Delivery.LateEventExample`).
- Submitting a job or creating a plan is such an append, stamped with the row's own
  `created_at` (`clients/jobs.py` line 58, `clients/plans.py` line 60), so submitting
  out of creation order can lose events (`Producers.CreationTimeDecides`,
  `Producers.OvertakenSubmitExample`).
- A cursor whose row is gone is compared by id alone. That is exact only under the
  conditions of `Draining.FallbackAgreesIff` and `Draining.DrainIsExactIff`.
- `clients/jobs.py` lines 12-15 say that concurrent writers cannot clobber a
  terminal state or double-fire a transition. This depends on the set the caller
  expects: see `Lifecycle.TransitionKeepsEndingsIff`,
  `Lifecycle.FailKeepsEndingsIff` and `Lifecycle.TransitionFiresOnceIff`.
- `clients/jobs.py` lines 15-16 say that reads are one consistent snapshot.
  `running_jobs` issues two selects and no isolation level is set, so the grouping
  is proved for any two row lists, and agreement with `active_ranks` on the rank table
  that the second select sees.
- `clients/plans.py` lines 5-6 say that two workers cannot apply a plan twice. The
  loop it documents applies before it marks, and then they can
  (`PlanLoop.ApplyFirstAppliesManyTimes`); marking first would exclude it, at the
  price that a plan may never be applied (`PlanLoop.AppliedAtMostOnceIff`,
  `PlanLoop.AppliedAtLeastOnceIff`).
- Summary keys are joined with `|` without escaping. Totals are conserved anyway
  (`SummaryLaws.SummaryConserves`); entries are separate exactly for names without
  the separator (`SummaryLaws.KeysDistinctIff`).
- A map published with no market is read back with `["reserved"]`, which changes
  its summary unless it has no pools (`ResourceMapLaws.SummarySurvivesIff`).
- A row limit of zero or less does not bound the evidence rows returned by
  `_apply_limit` (`EvidenceStore.LimitBoundsIff`).
- `recent` issues two selects as well; on different tables its rows are a window only
  under the condition of `EvidenceStore.RecentAcrossIff`.
- Evidence row ids join tick, job and rank with `_` and leave out the user, so a put can
  replace another key's row (`EvidenceIds.PutsKeepOtherKeysIff`) or another user's
  (`EvidenceIds.AnotherUsersRowIsLost`).
- Evidence reads are sorted by (tick, job, rank), which the schema does not make
  unique; their order is fixed only when it is (`EvidenceStore.ReadsAreDeterminedIff`).
- `_json_safe` does not look inside what `tolist` returns, so a second pass can
  change the result (`JsonSafe.UnsettledExample`); it does not exactly on the inputs of
  `JsonSafe.SafeIsIdempotentIff`, and a second trip of a row exactly as in
  `EvidenceCodec.SecondTripChangesNothingIff`.

## Model

| member | source | states |
|---|---|---|
| `EventLog.PostgresEventLog.Append` | src/tandemn_system_data/clients/event_log.py:27-45 | a rank event needs its rank id in the payload and a fresh key; then exactly that row is added, otherwise nothing changes and the error says which check failed; all said of the event and the table |
| `EventLog.PostgresEventLog.Ack` | src/tandemn_system_data/clients/event_log.py:123-138 | the consumer's cursor is overwritten, forwards or backwards, or its row created; no other consumer and no event changes |
| `EventLog.PostgresEventLog.InitializeConsumerAtUserTail` | src/tandemn_system_data/clients/event_log.py:102-121 | an existing row is left alone; a new consumer starts at an event of the user with none of the user's events ordered above it by (created_at, event_id), and unset exactly when the user has none |
| `EventLog.InitializedAtTail` | src/tandemn_system_data/clients/event_log.py:102-121 | a consumer started at a user's tail reads nothing of that user's history, for any types and limit |
| `EventLog.PendingInOrder` | src/tandemn_system_data/clients/event_log.py:47-80 | the unread rows are listed each once, strictly increasing in (created_at, event_id), and are exactly the rows after the cursor that pass the filter |
| `EventLog.UnreadRows` | src/tandemn_system_data/clients/event_log.py:47-80 | the same, field by field: what is unread are the rows of the asked kinds and user later than the cursor row by time, or at the same time by id, or above its id when that row is gone; earlier ones first |
| `EventLog.UserTailIsNewest` | src/tandemn_system_data/clients/event_log.py:102-115 | the tail query finds the newest of the user's own events, and nothing exactly when there are none |
| `Delivery.NoEventIsLost` | src/tandemn_system_data/clients/event_log.py:27-138 | no loss: over every interleaving of increasing appends, reads, processing, acks of processed events, crashes, a start at a user's tail and other consumers, each matching event the cursor has reached was processed or was at or below that tail when the consumer started there, and every other matching event is still unread |
| `Delivery.StepKeepsInv` | src/tandemn_system_data/clients/event_log.py:27-138 | every single step of the protocol keeps the inductive invariant behind it; a tail start of a live consumer is a step, and it is the guard of the operation that makes it harmless |
| `Delivery.RunKeepsInv` | src/tandemn_system_data/clients/event_log.py:27-138 | every lawful run from any state that satisfies the invariant keeps it, so the no-loss guarantee holds at each reachable state |
| `Delivery.IncreasingKeysAreLawful` | src/tandemn_system_data/clients/event_log.py:27-45 | producers that append above every stored key never append below the cursor or the batch in flight |
| `Delivery.AppendIsSafeIff` | src/tandemn_system_data/clients/event_log.py:47-138 | after an append no lawful run ever loses an event if and only if the append was refused, its event is unwanted, or its key is above the consumer's cursor and above the end of the batch it holds |
| `Delivery.LateAppendIsLost` | src/tandemn_system_data/clients/event_log.py:47-138 | for every other append there is a schedule of reads and acks that skips the event |
| `Delivery.LateEventExample` | src/tandemn_system_data/clients/event_log.py:47-80 | such an append exists: a run from the empty log with two producers committing out of order, and the continuation that skips the event |
| `Producers.SubmitIsSafeIff` | src/tandemn_system_data/clients/jobs.py:49-73 | submitting a job appends its event with the job's created_at: no later run loses an event if and only if the consumer does not want it or (created_at, event id) is above its cursor and batch |
| `Producers.CreateIsSafeIff` | src/tandemn_system_data/clients/plans.py:51-75 | the same for creating a plan |
| `Producers.CreationTimeDecides` | src/tandemn_system_data/clients/jobs.py:58 | a job created after everything the consumer passed or holds is submitted safely; a wanted one created before the latest of it can be lost, whatever its event id |
| `Producers.OvertakenSubmitExample` | src/tandemn_system_data/clients/jobs.py:49-73 | three jobs submitted out of creation order in a run from the empty log: the overtaken one's event can be lost |
| `Draining.BacklogAfterAck` | src/tandemn_system_data/clients/event_log.py:61-138 | acking the k-th unread row leaves exactly the rows behind it, in order |
| `Draining.AckMakesProgress` | src/tandemn_system_data/clients/event_log.py:61-138 | every read-then-ack of a non-empty batch decreases the number of rows left, from any cursor, so draining ends |
| `Draining.DrainIsExact` | src/tandemn_system_data/clients/event_log.py:61-138 | from an unset or present cursor, repeated read-then-ack delivers exactly the unread rows in order, each once, in full batches but the last, and leaves nothing |
| `Draining.DrainIgnoresLimit` | src/tandemn_system_data/clients/event_log.py:61-100 | what is delivered does not depend on the batch size |
| `Draining.DrainIsExactIff` | src/tandemn_system_data/clients/event_log.py:62-100 | for any cursor, also one whose row is gone: draining is exact if and only if the cursor is usable, nothing is unread, or no wanted row skipped by the id comparison is ordered above the first batch |
| `Draining.DanglingDrainExample` | src/tandemn_system_data/clients/event_log.py:62-80 | a log on which draining from a missing cursor is not exact: a row skipped by the first read is returned after the first ack |
| `Draining.FallbackAgreesIff` | src/tandemn_system_data/clients/event_log.py:62-80 | deleting the cursor's row leaves every filtered, limited read after it unchanged if and only if order by id agrees with (created_at, event_id) around that row |
| `Draining.TimeSortableIdsAgree` | src/tandemn_system_data/clients/event_log.py:62-80 | ids that sort like their timestamps give that agreement at every row |
| `Draining.FallbackIsInvisible` | src/tandemn_system_data/clients/event_log.py:62-80 | with time-sortable ids the missing-cursor fallback is invisible to every read |
| `Draining.FallbackDisagreesExample` | src/tandemn_system_data/clients/event_log.py:62-80 | two rows on which the fallback is visible |
| `Jobs.JobStore.Submit` | src/tandemn_system_data/clients/jobs.py:49-73 | job row and job.submitted event are stored together or not at all; the event is stamped with the job's created_at and names the job and its user, in columns and payload |
| `Jobs.JobStore.Transition` | src/tandemn_system_data/clients/jobs.py:75-102 | compare-and-set: answers True exactly when the job exists in an expected status, and then sets status, clears the error on RUNNING, stamps time and reason on FINISHED, and touches nothing else |
| `Jobs.JobStore.Fail` | src/tandemn_system_data/clients/jobs.py:104-124 | compare-and-set into FINISHED with reason, message and time |
| `Jobs.JobStore.SetError` | src/tandemn_system_data/clients/jobs.py:126-132 | changes the error message only; True exactly when the job exists |
| `Jobs.JobStore.UpsertRank` | src/tandemn_system_data/clients/jobs.py:138-155 | one statement of the batch: the replica check, then insert for a known job, or update keeping created_at when the stored owner is the same; otherwise nothing changes |
| `Jobs.JobStore.Launch` | src/tandemn_system_data/clients/jobs.py:136-159 | the upsert loop with rollback equals the fold of single upserts, and reports the first error with the table unchanged |
| `Jobs.JobStore.SetRankStatus` | src/tandemn_system_data/clients/jobs.py:161-176 | compare-and-set on one rank |
| `Lifecycle.LifecyclesStayOk` | src/tandemn_system_data/clients/jobs.py:49-132 | in every run of calls that submit WAITING jobs and never expect FINISHED, finished_at is set exactly in FINISHED and finish_reason only there |
| `Lifecycle.FinishedIsAbsorbing` | src/tandemn_system_data/clients/jobs.py:75-132 | in such runs a finished job keeps status, reason and time for ever |
| `Lifecycle.IdentityIsFixed` | src/tandemn_system_data/clients/jobs.py:49-176 | no run of calls at all changes a job's id, user, kind, spec, source, target or creation time, or removes it |
| `Lifecycle.RunStaysAudited` | src/tandemn_system_data/clients/jobs.py:49-73 | over every run in which other writers of the shared events table store other kinds of events, jobs and job.submitted events correspond one to one, each event matching its row |
| `Lifecycle.JobIsAnnounced` | src/tandemn_system_data/clients/jobs.py:49-73 | on such a table each job has an event of kind job.submitted with its ids, user and time in columns and payload |
| `Lifecycle.SubmissionAnnounces` | src/tandemn_system_data/clients/jobs.py:49-73 | and each such event names a job of the table in that way |
| `Lifecycle.AnnouncedOnce` | src/tandemn_system_data/clients/jobs.py:49-73 | and no two of them name the same job |
| `Lifecycle.ForeignEventKeepsAuditIff` | src/tandemn_system_data/clients/event_log.py:33-44 | a write of another store keeps that correspondence if and only if its event is not of the kind job.submitted |
| `Lifecycle.TransitionKeepsEndingsIff` | src/tandemn_system_data/clients/jobs.py:12-15 | transitions leave the ending of every finished job alone if and only if the caller does not expect FINISHED |
| `Lifecycle.FailKeepsEndingsIff` | src/tandemn_system_data/clients/jobs.py:104-124 | the same condition for fail |
| `Lifecycle.TransitionFiresOnceIff` | src/tandemn_system_data/clients/jobs.py:12-15 | of n racing writers exactly one is answered True if and only if the target is not itself expected, or n is 1 |
| `RankLaunch.LaunchClosedForm` | src/tandemn_system_data/clients/jobs.py:136-159 | launch succeeds exactly when no rank meets an old or earlier-in-batch row of another job and the table's own checks pass; the result is then the merge of table and batch |
| `RankLaunch.MergeIsUnique` | src/tandemn_system_data/clients/jobs.py:136-159 | that merge (last word of the batch, created_at of the old row or of the first word) is one table |
| `RankLaunch.LastOfIsLast` | src/tandemn_system_data/clients/jobs.py:136-159 | the row kept for a rank is the last occurrence in the batch |
| `RankLaunch.FirstOfIsFirst` | src/tandemn_system_data/clients/jobs.py:136-159 | the creation time of a new rank is taken from its first occurrence |
| `RankLaunch.RelaunchChangesNothing` | src/tandemn_system_data/clients/jobs.py:136-159 | launching a batch that just succeeded succeeds and changes nothing |
| `RankLaunch.LaunchKeepsRankIdentity` | src/tandemn_system_data/clients/jobs.py:136-159 | a launch never moves an existing rank to another job or creation time |
| `RankLaunch.RankIdentityIsFixed` | src/tandemn_system_data/clients/jobs.py:136-176 | the same over every run of job-store calls |
| `RunningJobs.BuildGroups` | src/tandemn_system_data/clients/jobs.py:261-273 | after the append loop every job id holds exactly its own allocations, in row order |
| `RunningJobs.GroupRunning` | src/tandemn_system_data/clients/jobs.py:241-278 | the grouping pass equals the nested-loop join of the two row lists: the k-th running job has the fields of the k-th job row, and its allocations report its own rank rows in row order |
| `RunningJobs.ServingReportsOwn` | src/tandemn_system_data/clients/jobs.py:261-273 | the k-th allocation of a job carries the seven values of its k-th own rank row, and every own row is reported |
| `RunningJobs.Join` | src/tandemn_system_data/clients/jobs.py:275-278 | one running job per job row, in order, each with its own ranks |
| `RunningJobs.JoinKeepsEveryRank` | src/tandemn_system_data/clients/jobs.py:261-278 | with distinct jobs that own all rank rows, every rank row appears under some job exactly once |
| `RunningJobs.ReplicasConserved` | src/tandemn_system_data/clients/jobs.py:261-278 | the total of the replicas reported over all running jobs is the sum of n_replicas over the rank rows themselves |
| `RunningJobs.ActiveRanks` | src/tandemn_system_data/clients/jobs.py:222-233 | the launching or running ranks of a job, each once, strictly increasing in (created_at, rank_id) |
| `RunningJobs.ActiveRanksMeans` | src/tandemn_system_data/clients/jobs.py:222-233 | the same said of the rows: status launching or running, earlier created_at first, rank_id breaking ties |
| `RunningJobs.RunningAgreesWithActive` | src/tandemn_system_data/clients/jobs.py:222-278 | whatever table the job rows came from, each running job carries, value by value, exactly the ranks active_ranks returns for it on the rank table of the second select, oldest first, up to ties in creation time |
| `Plans.PlanStore.Create` | src/tandemn_system_data/clients/plans.py:51-75 | plan row and plan.created event are stored together, the event with the plan's ids, time and the last action per job; a clash of either key stores neither |
| `Plans.PlanStore.MarkApplied` | src/tandemn_system_data/clients/plans.py:105-113 | compare-and-set from created to applied; the answer says whether this call did it |
| `Plans.PlanStore.Waiting` | src/tandemn_system_data/clients/plans.py:95-103 | unapplied lists the user's plans in status created, each once, oldest first |
| `Plans.WaitingPlanIsWonOnce` | src/tandemn_system_data/clients/plans.py:105-113 | over any run of any workers, a waiting plan is won exactly once if it is marked at all, and ends applied with its other fields unchanged |
| `Plans.WonAtMostOnce` | src/tandemn_system_data/clients/plans.py:105-113 | from any state, at most one mark of a plan is ever answered True |
| `Plans.WonPlanIsGone` | src/tandemn_system_data/clients/plans.py:95-113 | after that True the plan is applied and in no user's unapplied list at the end of any run |
| `Plans.LaterMarksLose` | src/tandemn_system_data/clients/plans.py:105-113 | every later mark of a won plan is answered False |
| `Plans.DecidedPlansStay` | src/tandemn_system_data/clients/plans.py:105-113 | a plan that is not waiting keeps its row for ever and is never won |
| `PlanLoop.MarkFirstAppliesOnce` | src/tandemn_system_data/clients/plans.py:95-113 | in every run of any workers that apply a plan only after their own mark was answered True, no plan is applied twice |
| `PlanLoop.ApplyFirstAppliesAtLeastOnce` | src/tandemn_system_data/clients/plans.py:3-6 | in every run of workers that apply before they mark, as documented, a waiting plan is never marked before someone applied it |
| `PlanLoop.ApplyFirstAppliesManyTimes` | src/tandemn_system_data/clients/plans.py:3-6 | in that order n racing workers can apply one plan n times, for every n |
| `PlanLoop.MarkFirstMayLose` | src/tandemn_system_data/clients/plans.py:95-113 | in the other order a plan can be marked and never applied |
| `PlanLoop.AppliedAtMostOnceIff` | src/tandemn_system_data/clients/plans.py:3-6 | over all runs a waiting plan is applied at most once if and only if workers mark first |
| `PlanLoop.AppliedAtLeastOnceIff` | src/tandemn_system_data/clients/plans.py:3-6 | over all runs no plan is marked and unapplied if and only if workers apply first |
| `ResourceMaps.AddOffer` | src/tandemn_system_data/models/resource_map.py:92-129 | one turn of the summary loop: a new entry, or three updates of the one present |
| `ResourceMaps.SchedulingSummary` | src/tandemn_system_data/models/resource_map.py:81-130 | the nested loops compute the fold over all (pool, market) turns in order |
| `SummaryLaws.SummaryClosedForm` | src/tandemn_system_data/models/resource_map.py:90-130 | the keys are exactly those that occur; each entry lists the details under its key in loop order, and its totals are the sums over that list |
| `SummaryLaws.SummaryConserves` | src/tandemn_system_data/models/resource_map.py:62-130 | for every tree and market list, with or without clashing keys, GPUs and instances over all entries are the tree's totals times the number of listed markets |
| `SummaryLaws.SummaryIgnoresOrder` | src/tandemn_system_data/models/resource_map.py:62-130 | walking the same pools in another order gives the same keys and totals, and the same pools up to order |
| `SummaryLaws.JoinKeyInjective` | src/tandemn_system_data/models/resource_map.py:92-98 | the joined key determines all five names when the first four contain no separator |
| `SummaryLaws.KeysDistinctIff` | src/tandemn_system_data/models/resource_map.py:92-98 | over an alphabet of component characters the key is injective if and only if the separator is not one of them |
| `SummaryLaws.KeySpellsLabels` | src/tandemn_system_data/models/resource_map.py:92-113 | every key of a summary is the market, cloud, region, zone and GPU type of its entry, in this order, with a separator between |
| `SummaryLaws.KeyCutsIntoLabels` | src/tandemn_system_data/models/resource_map.py:92-113 | cutting the key of an entry with separator-free names at the separators gives exactly these five labels |
| `SummaryLaws.SummaryEntriesMean` | src/tandemn_system_data/models/resource_map.py:81-130 | a detail stands under a key exactly when some pool of the tree and some listed market spell that key and the detail shows that pool, field by field |
| `SummaryLaws.SummaryMeaning` | src/tandemn_system_data/models/resource_map.py:81-130 | for separator-free names and distinct markets, a (market, cloud, region, zone, gpu) tuple has an entry exactly when the market is listed and the zone has such a pool; the entry aggregates exactly those pools |
| `TreeWalk.TraversalFindsPools` | src/tandemn_system_data/models/resource_map.py:62-79 | the traversal yields a pool with a place exactly when the nested dicts hold it there |
| `TreeWalk.TraversalVisitsOnce` | src/tandemn_system_data/models/resource_map.py:62-79 | in a tree whose dicts have unique keys it yields each of them once |
| `ResourceMapStore.Store.Load` | src/tandemn_system_data/clients/resource_map.py:87-92 | the stored map, an empty one with market reserved when nothing was published, a failure when the row does not validate |
| `ResourceMapStore.Store.Replace` | src/tandemn_system_data/clients/resource_map.py:94-118 | the user's row gets the next version and the document; no other row changes; what is returned is what a read returns |
| `ResourceMapLaws.BodyReadsBack` | src/tandemn_system_data/clients/resource_map.py:15-34 | whatever order the store gives object members at any depth, a published body reads back as an equal tree with its market list, an empty list as ["reserved"] |
| `ResourceMapLaws.PoolReadsBack` | src/tandemn_system_data/models/resource_map.py:24-35 | a pool survives encoding, member reordering and decoding unchanged |
| `Shuffles.DictReadsBack` | src/tandemn_system_data/clients/resource_map.py:18-31 | a dict of children reads back as the same dict when its values do |
| `ResourceMapLaws.BodyIsProper` | src/tandemn_system_data/clients/resource_map.py:15-22 | the document of every map with unique keys is one the store may keep, so the round trip is about all of them |
| `StoredMaps.DocumentHoldsPools` | src/tandemn_system_data/clients/resource_map.py:15-22 | the published document has every pool under its cloud, region, zone, fabric and instance type, each field under its documented name |
| `StoredMaps.DocumentHoldsMarkets` | src/tandemn_system_data/clients/resource_map.py:15-22 | and the market list under its own name |
| `StoredMaps.PoolReadsIff` | src/tandemn_system_data/models/resource_map.py:24-35 | exactly which documents are read as a given pool, field by field |
| `StoredMaps.FabricReadsIff` | src/tandemn_system_data/models/resource_map.py:38-41 | the same for a network fabric |
| `StoredMaps.LevelsReadIff` | src/tandemn_system_data/models/resource_map.py:44-53 | the same for zone, region and cloud |
| `StoredMaps.BodyReadsIff` | src/tandemn_system_data/clients/resource_map.py:25-34 | and for a whole body: its market list or ["reserved"], and its clouds or, without any, what the legacy form converts to |
| `ResourceMapLaws.SameTreePools` | src/tandemn_system_data/models/resource_map.py:62-79 | equal trees hold the same pools at the same places, whatever their dict order |
| `ResourceMapLaws.PublishedSummary` | src/tandemn_system_data/clients/resource_map.py:15-77 | a published map reads back with the given version and time, an equal tree, and the summary of the market-normalised map: same keys, totals and pools up to order |
| `ResourceMapLaws.SummarySurvivesIff` | src/tandemn_system_data/clients/resource_map.py:25-34 | a map keeps its own summary through the store if and only if it lists a market or has no pools |
| `ResourceMapLaws.SecondTripIsStable` | src/tandemn_system_data/clients/resource_map.py:15-34 | after one trip, market list and summary are stable under further trips |
| `LegacyPools.FloorDiv` | src/tandemn_system_data/clients/resource_map.py:51 | Python floor division: quotient and remainder of the divisor's sign |
| `LegacyPools.GrowProvider` | src/tandemn_system_data/clients/resource_map.py:42-65 | the inner loop inserts exactly the well-formed entries of one provider, and fails where the source raises |
| `LegacyPools.LegacyFlatPoolsToClouds` | src/tandemn_system_data/clients/resource_map.py:37-67 | the nested loops convert the whole document, or fail where the source raises |
| `LegacyPools.GrowEntriesSplits` | src/tandemn_system_data/clients/resource_map.py:42-65 | converting while inserting equals converting everything first |
| `LegacyLaws.GrowAddsOne` | src/tandemn_system_data/clients/resource_map.py:52-65 | an insertion under a fresh instance type adds that pool to the tree's traversal and changes nothing else |
| `LegacyLaws.GrowAllKeepsEach` | src/tandemn_system_data/clients/resource_map.py:52-65 | entries with distinct (provider, instance type) become exactly one pool each |
| `LegacyLaws.ConversionKeepsEveryPool` | src/tandemn_system_data/clients/resource_map.py:37-67 | the pools of the converted tree are exactly the well-formed entries of the document; none overwrites another |
| `LegacyLaws.LegacyEntryIsFound` | src/tandemn_system_data/clients/resource_map.py:37-67 | each well-formed entry of the document is found in the converted tree under its provider, region, zone and instance type in the fabric default, with the names, GPU type and counts read from its metadata or their defaults |
| `LegacyLaws.FirstEntryNamesFabric` | src/tandemn_system_data/clients/resource_map.py:52-65 | the first entry placed in a zone decides its fabric's attributes |
| `LegacyLaws.ConvertedGpus` | src/tandemn_system_data/clients/resource_map.py:49-51 | a converted pool has the entry's total minus total mod gpus-per-instance GPUs, for positive gpus-per-instance |
| `LegacyLaws.RoundingIsBounded` | src/tandemn_system_data/clients/resource_map.py:49-51 | whole instances never exceed the raw total and fall short by less than one instance per entry, for negative totals too |
| `LegacyLaws.LegacySummaryGpus` | src/tandemn_system_data/clients/resource_map.py:37-67 | the summary of the converted map counts exactly the whole instances: never more GPUs than the document, short by less than the sum of gpus-per-instance |
| `Connectors.ReadLineEnd` | tests/local_connector.py:41 | readline: advances past exactly one line, to just after a line feed or to the end |
| `Connectors.Index` | tests/local_connector.py:25-52 | rejects a bad chunk size, then a missing file; otherwise the ranges are non-empty and contiguous, cover the file, start after line feeds, and hold chunk-size lines each, the last one at most that |
| `Lines.SplitAfterLineFeed` | tests/local_connector.py:64 | cutting after a line feed never changes the lines of splitlines, which also breaks at CR and CR LF |
| `Lines.TilesKeepLines` | tests/local_connector.py:37-67 | reading such ranges in order gives the line sequence of the file |
| `Lines.SplitLinesMeans` | tests/local_connector.py:64 | the lines and the breaks between them make up the text again; no line holds a break character, and each break is LF, CR or CR LF |
| `Jsonl.TilesReadLikeTheFile` | tests/local_connector.py:37-67 | chunking is invisible: range by range a reader yields the same records, and raises at the same place, as on the whole file |
| `Jsonl.ReadLinesConcat` | tests/local_connector.py:64-67 | reading is sequential: records of one run of lines, then of the next unless the first raised |
| `Jsonl.ReadingStopsWhereItRaises` | src/tandemn_user_data/connectors/s3.py:133-138 | reading goes on after a line that gives a record or nothing and ends at the first that raises |
| `Jsonl.RecordReadsBack` | src/tandemn_user_data/connectors/jsonl.py:19-51 | a written record is read as itself and never mistaken for an OpenAI batch row |
| `Jsonl.BatchRowMeans` | src/tandemn_user_data/connectors/jsonl.py:25-48 | a row with an object body reads, from its own fields: ids as the trimmed text of the first truthy one, the prompt as the last user message with text, or the compact body when that is missing or empty, and the request in the metadata |
| `Jsonl.PlainRowMeans` | src/tandemn_user_data/connectors/jsonl.py:44-51 | exactly when a row without an object body reads, and as which ids, prompt and metadata |
| `Jsonl.LastUserMeans` | src/tandemn_user_data/connectors/jsonl.py:54-62 | the message found is the last one with role user and a text |
| `Jsonl.LineMeans` | src/tandemn_user_data/connectors/s3.py:133-138 | a line of ASCII white space is skipped; any other gives its record or raises |
| `Jsonl.FramingRoundTrip` | src/tandemn_user_data/connectors/s3.py:133-169 | framed records read back in order, provided each of their documents prints as one non-blank line that parses back to it |
| `Jsonl.SomeEnvironmentWrites` | src/tandemn_user_data/connectors/s3.py:163-169 | every list of records meets that condition in some printer and parser |
| `Connectors.ReadRecords` | src/tandemn_user_data/connectors/s3.py:133-138 | the reading loop: blank lines skipped, the rest decoded, ends at the first that raises |
| `Connectors.Frame` | src/tandemn_user_data/connectors/s3.py:163-169 | the writing loop: one line per record, and the count |
| `Connectors.S3Connector.Read` | src/tandemn_user_data/connectors/s3.py:112-138 | type and format errors, missing objects, refused ranges, or the records of the requested bytes |
| `Connectors.S3Connector.Write` | src/tandemn_user_data/connectors/s3.py:140-179 | stores the framed records under the exact key, or under prefix and part name as written out; an empty write stores nothing |
| `Connectors.WriteThenRead` | src/tandemn_user_data/connectors/s3.py:112-179 | the two operations composed: a non-empty write of such records read back returns them |
| `Connectors.FetchesAgreeIff` | src/tandemn_user_data/connectors/s3.py:127-131 | for all integer ranges, the inclusive range request and the local seek have the same outcome: where the seek or the count raises, if and only if the server refuses; on other proper ranges, if and only if they start inside the object; on the rest, only when the server answers with the whole object and the seek reads it all |
| `Connectors.LocalBytesMeans` | tests/local_connector.py:54-63 | the local seek returns, byte by byte, the file from start up to end or its length; a count of -1 reads to the end, and a negative start or a lower count raises |
| `Connectors.ObjectBytesMeans` | src/tandemn_user_data/connectors/s3.py:127-131 | the inclusive range request returns the bytes from start up to end or the object's length; a start beyond the object is refused |
| `Connectors.FetchedPieces` | src/tandemn_user_data/connectors/s3.py:127-131 | both connectors fetch each piece of an aligned split exactly |
| `Connectors.FetchedIsPieces` | src/tandemn_user_data/connectors/s3.py:127-131 | requesting the ranges of an aligned split one after the other never fails and yields its pieces in order |
| `Connectors.RangedRoundTrip` | src/tandemn_user_data/connectors/s3.py:127-179 | such records, once written, come back in order through any newline-aligned split of the object into requested ranges |
| `Connectors.LocalFileConnector.Read` | tests/local_connector.py:54-67 | a missing file, a negative seek or a count below -1 raises; else the records of the bytes sought |
| `Connectors.LocalFileConnector.Write` | tests/local_connector.py:69-83 | appends the framed records to the file, or creates it; no other file changes |
| `Connectors.AppendAddsRecords` | tests/local_connector.py:69-83 | appending such records to a file that is empty or ends its line adds exactly them to what is read |
| `EvidenceStore.Store.Put` | src/tandemn_system_data/clients/evidence_store.py:58-61 | merge of one row by its primary key |
| `EvidenceStore.Store.PutMany` | src/tandemn_system_data/clients/evidence_store.py:63-70 | all rows are merged in order or none: a batch that repeats a row id not yet stored is refused and changes nothing |
| `EvidenceStore.Store.RowsForUser` | src/tandemn_system_data/clients/evidence_store.py:244-252 | a user's rows, each once, none before one that sorts earlier by (tick, job, rank), ties in any order |
| `EvidenceReads.RowsForUserMeans` | src/tandemn_system_data/clients/evidence_store.py:244-252 | exactly what the query may return, said of the table: the rows of the user, each once, with ticks ascending, then job ids, then rank ids |
| `EvidenceStore.Store.RowsInWindow` | src/tandemn_system_data/clients/evidence_store.py:162-174 | the same for the rows with a tick inside the inclusive window |
| `EvidenceReads.RowsInWindowMeans` | src/tandemn_system_data/clients/evidence_store.py:162-174 | the same for the window |
| `EvidenceStore.RecentIsAWindow` | src/tandemn_system_data/clients/evidence_store.py:77-109 | on one table the rows of the n newest distinct ticks are those from the n-th newest tick, or the oldest, to the current tick; without ticks there are no rows |
| `EvidenceStore.RecentAcrossIff` | src/tandemn_system_data/clients/evidence_store.py:77-101 | when the two selects see different tables, the rows found are the window of the taken ticks if and only if no tick of the second table lies among them without being one of them |
| `EvidenceStore.Store.Recent` | src/tandemn_system_data/clients/evidence_store.py:77-101 | recent(n) returns what the window query from the n-th newest tick to the current one may return |
| `EvidenceReads.RecentMeans` | src/tandemn_system_data/clients/evidence_store.py:77-101 | a row of the user is among the recent ones exactly when fewer than n of the user's ticks are above its own |
| `EvidenceReads.CurrentTickMeans` | src/tandemn_system_data/clients/evidence_store.py:103-109 | the current tick is the largest of the user's rows, 0 without any |
| `EvidenceStore.ReadsAreDeterminedIff` | src/tandemn_system_data/clients/evidence_store.py:244-252 | the query order fixes its result if and only if the user has at most one row for a (tick, job, rank) |
| `EvidenceIds.DerivedIdsKeepKeyed` | src/tandemn_system_data/models/evidence.py:28-30 | on every table built by puts of rows whose ids are made from (tick, job, rank), each user has at most one row for a (tick, job, rank) |
| `EvidenceIds.RowIdsDistinctIff` | src/tandemn_system_data/models/evidence.py:28-30 | row ids determine tick, job and rank if and only if the underscore cannot occur in job ids or cannot occur in rank ids |
| `EvidenceIds.PutsKeepOtherKeysIff` | src/tandemn_system_data/clients/evidence_store.py:58-61 | under the same condition, and only then, no put takes away the row of another (tick, job, rank) |
| `EvidenceIds.AnotherUsersRowIsLost` | src/tandemn_system_data/clients/evidence_store.py:58-61 | the id does not name the user: a put takes away exactly the row that another user has for the same (tick, job, rank) |
| `EvidenceStore.Store.Latest` | src/tandemn_system_data/clients/evidence_store.py:111-129 | the limited descending query, reversed, is the end of a listing of the sorted table |
| `EvidenceReads.LatestMeans` | src/tandemn_system_data/clients/evidence_store.py:111-129 | as many rows as asked or as there are, in order, and no row left out comes after one of them |
| `EvidenceStore.Store.LatestBefore` | src/tandemn_system_data/clients/evidence_store.py:131-160 | the same for the rows available strictly before the cutoff, by availability first; raises when the availability of one of the user's rows cannot be cast to a number |
| `EvidenceReads.LatestBeforeMeans` | src/tandemn_system_data/clients/evidence_store.py:131-160 | the rows returned are the newest of those stamped below the cutoff, by stamp, then tick, job and rank; the read raises exactly when a row of the user has a stamp that is no number |
| `EvidenceStore.Store.RetrieveSimilarRows` | src/tandemn_system_data/clients/evidence_store.py:226-242 | when the type is known and some row of the user has it, the answer holds the newest of exactly those rows, as many as asked or as there are; else what latest may return; raises when it looks at features that are no object |
| `EvidenceReads.WorkloadTypeMeans` | src/tandemn_system_data/clients/evidence_store.py:274-279 | the field type when it is truthy, else workload_type unless it is missing or null |
| `EvidenceReads.WorkloadOfMeans` | src/tandemn_system_data/clients/evidence_store.py:234-272 | a stored row's features are its payload field X; a falsy one is no features, and only an object or a falsy one can be read |
| `EvidenceStore.LimitBoundsIff` | src/tandemn_system_data/clients/evidence_store.py:254-256 | the row limit is a bound if and only if it is at least one |
| `EvidenceStore.NoLookAhead` | src/tandemn_system_data/clients/evidence_store.py:58-160 | any sequence of puts of rows available at or after the cutoff, or never, replacing only such rows, each id put any number of times, leaves unchanged what every point-in-time read may return |
| `EvidenceStore.PutsKeepPastIff` | src/tandemn_system_data/clients/evidence_store.py:58-160 | a batch of puts leaves all point-in-time reads at a cutoff unchanged if and only if the query raises before and after, or neither, and then the last row put under each id shows what that id showed before; all said of the table and the batch |
| `EvidenceStore.PutKeepsPastIff` | src/tandemn_system_data/clients/evidence_store.py:58-160 | the same for one put |
| `JsonSafe.SafeYieldsJson` | src/tandemn_system_data/models/evidence.py:33-45 | the normaliser yields JSON whenever tolist does |
| `JsonSafe.SafeStandsFor` | src/tandemn_system_data/models/evidence.py:33-45 | value by value: scalars stay, tuples and lists become lists, an array its tolist, any other object its text, and a dict keeps one entry per key text, with the last value under it |
| `JsonSafe.SafeFixesJson` | src/tandemn_system_data/models/evidence.py:33-45 | its fixed points are exactly the JSON values |
| `JsonSafe.SafeIsIdempotentIff` | src/tandemn_system_data/models/evidence.py:33-45 | a second pass changes nothing if and only if every array lists JSON, save under dict keys whose text a later key repeats |
| `JsonSafe.SafeReachesJsonIff` | src/tandemn_system_data/models/evidence.py:33-45 | the same condition on the input says when one pass yields JSON |
| `JsonSafe.CleanSettles` | src/tandemn_system_data/models/evidence.py:33-45 | values whose arrays all list JSON meet it |
| `JsonSafe.UnsettledExample` | src/tandemn_system_data/models/evidence.py:42-44 | an array that lists a tuple does not: the second pass changes it |
| `EvidenceCodec.EvidenceRowToPayload` | src/tandemn_system_data/models/evidence.py:48-53 | the popping loop leaves exactly the normalised non-indexed fields |
| `EvidenceCodec.TupleDict` | src/tandemn_system_data/models/evidence.py:101-106 | the loop turns two-element lists into pairs and drops every other entry |
| `EvidenceCodec.DecodedMeans` | src/tandemn_system_data/models/evidence.py:56-106 | when a payload decodes, and each field of the row it gives: the label or five blanks, the opaque fields or their defaults, the CUSUM pairs in order, the two numbers or zero |
| `EvidenceCodec.CusumSurvivesIff` | src/tandemn_system_data/models/evidence.py:87 | the CUSUM dict survives a trip if and only if it holds JSON pairs under distinct text keys |
| `EvidenceCodec.RoundTripIff` | src/tandemn_system_data/models/evidence.py:48-106 | decode after encode returns the same row if and only if it has five JSON label parts, JSON in every opaque field and JSON pairs in CUSUM |
| `EvidenceCodec.TripIsCanonicalIff` | src/tandemn_system_data/models/evidence.py:33-106 | a row that decodes at all decodes to such a row if and only if its first five label parts, its opaque fields and the CUSUM pairs that are kept settle in one pass |
| `EvidenceCodec.SecondTripChangesNothingIff` | src/tandemn_system_data/models/evidence.py:33-106 | a second encode-decode trip changes nothing if and only if the row settles in that sense |
| `EvidenceCodec.CleanRowSettles` | src/tandemn_system_data/models/evidence.py:48-106 | rows whose arrays all list JSON settle |

## Left out

- Draining.DrainIsExact: asks for an unset or present cursor; the other cursors are covered by Draining.DrainIsExactIff.
- Delivery.NoEventIsLost: assumes increasing keys; Delivery.AppendIsSafeIff says exactly what a single append needs.
- EvidenceStore.Store.Recent: is one step on one table; EvidenceStore.RecentAcrossIff covers two selects that see different tables.
- EvidenceStore.Store.LatestBefore: the cast of a text to a number is a parameter, and whether another user's row can make the query raise, which the source leaves to the order in which the database checks conditions, is not modelled: it does not.
- EvidenceStore.Store.RetrieveSimilarRows: a feature field that is a list raises; the source accepts a list of pairs.
- Lifecycle.RunStaysAudited: asks that other writers do not store events of the kind job.submitted; Lifecycle.ForeignEventKeepsAuditIff says that this is needed.
- LegacyPools.LegacyFlatPoolsToClouds: the tree is a value that each insertion replaces; the source grows nested dicts in place, and their aliasing is not captured.
- LegacyLaws.LegacySummaryGpus: asks for positive gpus-per-instance; the conversion itself is modelled for all integers.
- ResourceMapStore.Store.Replace: the order in which the table keeps object members is a parameter.
- EvidenceCodec.RoundTripIff: the payload is handed over in memory; reordering of its object members by the database is not modelled here.
- Connectors.S3Connector.Write: the random part of a fresh key is a parameter, and two writes may be given the same one.
- Database sessions, connection pools, migrations and ORM declarations; isolation between transactions beyond atomic commits.
- The users table, its foreign keys, and cascades of job deletion.
- Credential, user, catalog, GPU metric and causal graph stores: single-row access or sorted queries that would only add easy members.
- Listing, indexing and credentials of the S3 connector, the credentials server and its resolver: network access.
- Clocks, and generation of ids and part names: times and ids are parameters, times are integers.
- JSON text: an abstract printer and parser; a round trip asks only that the records written print as one line each and parse back; `str`, `int`, whitespace trimming and the compact prompt text are parameters.
- Lenient conversions of the validation library: only values of the declared type are accepted, and names inside dicts are not trimmed.
- Text order is by character code; database collations are not part of this model.
- The order of rows created at the same time in `running_jobs` and `unapplied`: any order is allowed.
- `float` of a text in an evidence payload: modelled as a failure to decode.
- `rows_for_job`, `rows_for_rank`, `rows_for_edge`, `rows_for_mechanism`, `rows_for_environment`, `recently_decided`, `get` and the `list` methods: filters over reads that are modelled.
- Parsing of URIs and of payload references: bucket, key and range are given.
- The effects of a plan's actions: an application is counted, not carried out.
- Floating point: prices, timestamps and realised values are real numbers, without rounding or NaN.
