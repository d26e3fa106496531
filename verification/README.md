# Commerce batches, customer history and table maintenance

A Dafny model of how commerce snapshots travel from landing to checkpoint, with proofs about every
run. Landings are write-once objects whose manifest is the commit marker. A planner discovers them,
reserves one, resolves whether the customer history is applied forward or rebuilt, and advances a
checkpoint after all stages and a gold check. The stages keep bronze, silver, daily gold, the current
mart and a type-2 customer history. Three neighbours of that protocol are modelled too: snapshot
expiration, warehouse byte accounting, and Ranger policy synchronisation.

The main results:

- Over every interleaving of arrivals, runner steps and crashes the published tables are those of
  exactly the checkpointed batches (`BatchRuns.Convergence`, `MartRuns.MartShowsLatest`), and from
  every reachable state every undisturbed continuation checkpoints everything
  (`BatchRuns.AlwaysRecovers`).
- The incremental MERGE and the full rebuild of the customer history compute one and the same table,
  the only one that answers every point-in-time question (`HistoryTheorems.FoldEqualsRebuild`,
  `HistorySpec.HistoryIsUnique`).
- A visible manifest is always complete, whatever writers do (`LandingZone.VisibleManifestIsComplete`).
- A read that is abandoned when the time budget ends neither leaks nor closes twice
  (`BudgetedRead.ReturnedOrClosedOnce`).

Some expected properties are false of the code; for each the project has a concrete case and the
exact condition:

- The target check of the history job does not exclude overlapping periods
  (`HistoryTheorems.ValidTargetAllowsOverlap`, `HistoryTheorems.NoOverlapExactly`).
- The order guard of forward mode compares with the start of the current version, so it lets some
  late batches through and forward mode then gets them wrong (`LateBatches.GuardMissesLateBatch`,
  `LateBatches.GuardMissesEarlierStart`, `LateBatches.LateBatchExactly`). What protects the table is
  the choice of rebuild mode from the checkpoint, which `BatchRuns.Convergence` relies on.
- Two snapshots at one time leave whichever came first in the mart
  (`CurrentMart.TwoIdentitiesAtOneTime`, `CurrentMart.OrderMattersExactly`).
- Expiration never reaches a healthy plan while the current snapshot is itself eligible
  (`SnapshotExpiration.RollbackNeverDrains`, `SnapshotExpiration.DrainsExactly`).
- A policy synchronisation can lose a desired policy that an earlier resource match claimed
  (`RangerPolicies.DoubleClaimLosesAPolicy`, `RangerPolicies.SynchronizesExactly`).

## Layout

| files | subject |
|---|---|
| `Types`, `Frames`, `Sums`, `Paths`, `MergeStatement` | shared values, bags of rows, sums, step relations, insert-only MERGE |
| `HistorySpec`, `HistoryJob`, `HistoryTheorems`, `HistoryInvariant`, `LateBatches`, `HistoryTable`, `ProfileOracle` | customer history |
| `BatchPlanner`, `BatchRunner`, `BatchProtocol`, `BatchConvergence`, `BatchRuns`, `MartRuns` | planning, reservation, checkpoint, whole runs |
| `LandingZone`, `BudgetedRead` | concurrent landing, abandoned reads |
| `BronzeCommerce`, `SilverJob`, `SilverOrders`, `SilverPayments`, `SilverCustomers`, `DailyGold`, `CurrentMart` | table jobs |
| `SnapshotExpiration`, `Warehouse`, `RangerPolicies` | maintenance and governance |

Jobs that write a table are classes. Their methods state what the new table means, mostly through a
function of the old table that the theorems are about; a ghost argument such as `known` or `shown`
names what the old table stands for. Protocols with several actors are state machines, and a run is
any finite sequence of their steps.

## Model

| member | source | states |
|---|---|---|
| BatchRuns.Convergence | src/lakehouse_ops/ingestion/commerce_batches.py:141-289 | Over every interleaving of landings, runner steps and crashes of declared full snapshots with distinct times: without an unfinished reservation the history table is the history of exactly the checkpointed batches and the identity of the mart is that of their latest; with one, each table is that or that plus the reserved batch |
| BatchRuns.ConvergedHistoryIsTheRebuild | jobs/spark/commerce_customer_scd2.py:13-70 | In such a state the history table is, as a bag of rows, what one rebuild over the checkpointed batches would compute, in any listing order |
| BatchRuns.ConvergedHistoryAnswers | jobs/spark/commerce_customer_scd2.py:36-48 | In such a state every customer and instant with an observation is answered by exactly one row with the digest of the latest checkpointed observation |
| BatchRuns.ReservationStays | src/lakehouse_ops/ingestion/commerce_batches.py:198-241 | From begin to checkpoint, over any steps and crashes, the reservation, the intent and the checkpoint do not change |
| BatchRuns.ReservationPinsTheRetry | src/lakehouse_ops/ingestion/commerce_batches.py:141-289 | Meanwhile every plan starts with the reserved batch, begin accepts it again, its mode is the one first given, commit advances it and refuses every other unprocessed batch |
| BatchRuns.CheckpointOnlyGrows | src/lakehouse_ops/ingestion/commerce_batches.py:252-289 | No entry of the checkpoint is ever lost or changed |
| BatchRuns.CheckpointIsLanded | src/lakehouse_ops/ingestion/commerce_batches.py:531-547 | Every entry is of a landed batch and carries its manifest hash and time |
| BatchRuns.AdvanceFollowsFullRun | src/lakehouse_ops/commerce_pipeline.py:232-288 | Every addition is one in-time replace of the held batch; before it the runner finished every stage exactly once, current gold exactly for a declared full snapshot, each after the stages whose tables it reads, and then passed the gold check |
| BatchProtocol.StagesAreWhole | src/lakehouse_ops/commerce_pipeline.py:25-35 | The stages of a run are each of the eight once, current gold exactly when a mode is set, from input over bronze, silver and history to daily gold and the mart |
| BatchRuns.StageSucceeds | src/lakehouse_ops/commerce_pipeline.py:251-261 | In every reachable state no table stage rejects a full snapshot with a valid customer, first time or retried, in whatever order it reads the bronze rows |
| BatchRuns.AlwaysRecovers | src/lakehouse_ops/commerce_pipeline.py:221-300 | From every reachable state, after a crash every undisturbed continuation (nothing lands, dies, fails or runs out of time) of at least fifteen steps for each unprocessed batch has checkpointed everything landed, with the tables of all landed batches |
| BatchRuns.UndisturbedGoesOn | src/lakehouse_ops/commerce_pipeline.py:221-300 | Such continuations exist at every length: an undisturbed runner is never stuck |
| BatchConvergence.StepKeeps | src/lakehouse_ops/commerce_pipeline.py:221-300 | Every step of landing, runner or crash keeps the protocol invariant |
| BatchConvergence.Reachable | src/lakehouse_ops/commerce_pipeline.py:221-300 | The invariant holds in every state of every run |
| BatchConvergence.CustomerSilverStage | jobs/spark/silver_commerce_customers.py:93-190 | On a held batch the valid MERGE adds exactly the missing valid rows of the landing, all or none, and its count check passes; it fails only on an empty batch |
| BatchConvergence.AllSource | jobs/spark/commerce_customer_scd2.py:13-22 | When silver has the held batch, the rebuild reads exactly the observations of the checkpointed batches and of that batch |
| BatchConvergence.BatchSource | jobs/spark/commerce_customer_scd2.py:142-153 | Forward mode reads exactly the observations of the selected batch, at one time and one a customer |
| BatchConvergence.ForwardStage | jobs/spark/commerce_customer_scd2.py:156-275 | In forward mode the stage leaves the history with the batch added, first time or retried, or reports an empty batch and writes nothing |
| BatchConvergence.RebuildStage | jobs/spark/commerce_customer_scd2.py:13-70 | In rebuild mode likewise, and it fails only on empty silver |
| BatchConvergence.CurrentGoldStage | src/lakehouse_ops/commerce_snapshot.py:46-57 | On full snapshots with distinct times the identity of the mart never conflicts with the held batch and becomes that of the latest of checkpointed and held batches; the rows are the subject of MartRuns |
| MartRuns.PublicationFollows | jobs/spark/gold_commerce_current.py:27-83 | Publishing the daily rows of a batch succeeds exactly when the identities allow it, and leaves the rows of the snapshot that the identity names |
| MartRuns.MartRowsFollow | jobs/spark/gold_commerce_current.py:27-83 | After every step of every run the mart has exactly the daily rows of the snapshot that the state of the protocol names, whatever order they were read in |
| MartRuns.MartShowsLatest | jobs/spark/gold_commerce_current.py:27-83 | In a state without an unfinished reservation the mart has exactly the daily rows of the latest checkpointed batch |
| BatchConvergence.ReplaceKeeps | src/lakehouse_ops/ingestion/commerce_batches.py:279-288 | The replace of a verified, held batch advances exactly it and keeps the invariant |
| BatchConvergence.ArrivalIsNew | src/lakehouse_ops/ingestion/commerce_batches.py:377-419 | A landing that arrives at any moment has no reservation, checkpoint entry or progress of the runner, and changes none |
| BatchPlanner.CommerceBatchPlanner.Begin | src/lakehouse_ops/ingestion/commerce_batches.py:198-217 | Reserves the next batch before any compute; only the intent file changes, and every refusal leaves it |
| BatchPlanner.CommerceBatchPlanner.Commit | src/lakehouse_ops/ingestion/commerce_batches.py:252-289 | Advances the checkpoint by the one permitted batch and clears its reservation; every refusal, a spent budget included, leaves both files |
| BatchPlanner.DiscoversByTime | src/lakehouse_ops/ingestion/commerce_batches.py:419 | Discovery keeps exactly the listed batches, the earliest effective time first and equal times by identifier |
| BatchPlanner.DiscoverIgnoresListing | src/lakehouse_ops/ingestion/commerce_batches.py:377-419 | Discovery does not depend on the order of the listing |
| BatchPlanner.ChecksPass | src/lakehouse_ops/ingestion/commerce_batches.py:219-241 | Files that agree with the manifests pass the checks, and the active batch is the reserved one unless it is checkpointed |
| BatchPlanner.ReservationPins | src/lakehouse_ops/ingestion/commerce_batches.py:141-289 | What plan, begin, execution options and commit decide while a batch is reserved |
| BatchPlanner.StaleIntentIsHarmless | src/lakehouse_ops/ingestion/commerce_batches.py:240-241 | An intent left by a crash between checkpoint and cleanup changes no decision of plan, begin or commit |
| BatchPlanner.RecommitIsNoOp | src/lakehouse_ops/ingestion/commerce_batches.py:269-271 | Committing a checkpointed batch again changes nothing |
| BatchPlanner.EarliestIsNext | src/lakehouse_ops/ingestion/commerce_batches.py:272-278 | Without a reservation a batch can be reserved or committed if and only if no unprocessed batch has an earlier time, or the same time and a smaller identifier |
| BatchPlanner.PlanIsEarliest | src/lakehouse_ops/ingestion/commerce_batches.py:182-196 | Without a reservation the plan is the earliest unprocessed batches by time and identifier, as many as allowed, and leaves out none that is earlier than one of its own |
| BatchPlanner.ReservedThenEarliest | src/lakehouse_ops/ingestion/commerce_batches.py:182-196 | With a reservation the plan is the reserved batch and then the earliest of the others |
| BatchPlanner.PlanExactly | src/lakehouse_ops/ingestion/commerce_batches.py:158-196 | An incremental plan is made if and only if every checkpointed batch is still committed with its time and manifest and the batch of the intent is still as it was |
| BatchPlanner.OptionsExactly | src/lakehouse_ops/ingestion/commerce_batches.py:141-156 | A mode is given if and only if the checkpoint agrees and the batch is committed with the manifest: none unless it is a full snapshot, forward if and only if no checkpointed batch is later |
| BatchPlanner.ReserveExactly | src/lakehouse_ops/ingestion/commerce_batches.py:198-217 | begin accepts if and only if the files agree and the batch, committed with the manifest, is the reserved one or else the earliest unprocessed one; it writes the intent of that batch |
| BatchPlanner.DecideExactly | src/lakehouse_ops/ingestion/commerce_batches.py:252-289 | commit accepts if and only if the files agree and the batch, committed with the expected manifest, is checkpointed already or is the reserved or else the earliest unprocessed one; only in the last two cases is there something to advance |
| BatchPlanner.ReplayExactly | src/lakehouse_ops/ingestion/commerce_batches.py:161-180 | A replay is granted if and only if it names distinct committed batches, at most the maximum; then it has them in the order named |
| BatchPlanner.PlannedCanBegin | src/lakehouse_ops/ingestion/commerce_batches.py:182-213 | While anything is unprocessed the planner selects a committed, unprocessed batch that begin accepts |
| BatchPlanner.ReserveReserves | src/lakehouse_ops/ingestion/commerce_batches.py:206-215 | A successful begin reserves the selected batch and never takes over another reservation |
| BatchPlanner.OptionsPin | src/lakehouse_ops/ingestion/commerce_batches.py:141-156 | The mode depends on the batch and the checkpoint alone: rebuild exactly for a declared full snapshot older than some checkpointed batch |
| BatchRunner.CommerceRunner.Prepare | src/lakehouse_ops/commerce_pipeline.py:232-242 | Plans, reserves and resolves the mode of the batch that may run, or does nothing exactly when every committed batch is processed |
| BatchRunner.PreparesExactly | src/lakehouse_ops/commerce_pipeline.py:232-242 | Whatever the planner gives it also accepts, so preparing succeeds if and only if the files agree and time is left |
| BatchRunner.CommerceRunner.RunStages | src/lakehouse_ops/commerce_pipeline.py:251-261 | Runs the stages in order with a budget check before each; succeeds exactly when every check has time left and every stage succeeds |
| BatchRunner.CommerceRunner.Checkpoint | src/lakehouse_ops/commerce_pipeline.py:283-288 | Commits the reserved batch if and only if commit accepts it and time is left directly before the replace |
| BatchRunner.CommerceRunner.VerifyAndCheckpoint | src/lakehouse_ops/commerce_pipeline.py:262-288 | Succeeds if and only if the gold check passes, time is left at all three checks, and commit accepts the batch; a failed gold check and only that is reported as such |
| BatchRunner.CommerceRunner.RunBatch | src/lakehouse_ops/commerce_pipeline.py:221-300 | Ends ready if and only if the planner gives a batch, every stage finds time and succeeds, the gold check passes, time is left for the checkpoint and commit still accepts the batch among later landings; then every stage ran once in order, the log is that run and the checkpoint gained that batch alone; idle if and only if nothing is unprocessed; otherwise the checkpoint is unchanged |
| BatchRunner.PlannedIsReserved | src/lakehouse_ops/ingestion/commerce_batches.py:207-215 | Reserving the planned batch makes the intent file name it |
| BatchRunner.CommitsReserved | src/lakehouse_ops/ingestion/commerce_batches.py:262-279 | With that intent, commit over any later listing either fails or advances that batch with that manifest and time |
| HistorySpec.PointInTime | jobs/spark/commerce_customer_scd2.py:36-48 | An instant is covered exactly when something was observed by then, by one row, with the digest of the latest observation |
| HistorySpec.HistoryAnswers | jobs/spark/commerce_customer_scd2.py:36-48 | The lag and lead windows give rows from observations, of positive periods, never overlapping, with differing neighbours, that answer every instant |
| HistorySpec.HistoryIsUnique | jobs/spark/commerce_customer_scd2.py:36-48 | No other table does |
| HistorySpec.ForwardHistory | jobs/spark/commerce_customer_scd2.py:186-241 | Kept, closed and new rows of a strictly later batch are exactly the history of everything known |
| HistoryTable.CustomerHistory.ApplyBatch | jobs/spark/commerce_customer_scd2.py:156-275 | Keeps a well-formed table well formed; there it succeeds if and only if the batch is not empty, of one time, of unique customers and not out of order, closing and appending exactly the changed customers, and otherwise writes nothing; on a table that is the history of what is known the result is the history with the batch added if and only if every row of the batch fits |
| HistoryTable.CustomerHistory.Rebuild | jobs/spark/commerce_customer_scd2.py:13-70 | Whatever the table held: succeeds if and only if the source checks pass, then the table is the history of the source, rewritten only if it was not already; a failure writes nothing |
| HistoryTable.SelectedExactly | jobs/spark/commerce_customer_scd2.py:146-152 | A row is in the source of forward mode if and only if silver has it and it names the selected batch, and as often |
| HistoryTable.CustomerHistory.Run | jobs/spark/commerce_customer_scd2.py:278-295 | When the table is the history of what is known, and the rows that name the selected batch or the whole silver table are in step with it, the job succeeds in either mode and leaves the history of the whole silver table; a forward run only closes rows and appends open versions of silver rows that name the batch |
| HistoryTheorems.HoldsIsWellFormed | jobs/spark/commerce_customer_scd2.py:116-139 | A table that holds a history has one current row a customer, the current row last, positive contiguous periods and distinct starts |
| HistoryTheorems.ValidTargetAllowsOverlap | jobs/spark/commerce_customer_scd2.py:129-137 | The target check alone allows overlap: rows from 1 on and from 2 to 3 pass it |
| HistoryTheorems.NoOverlapExactly | jobs/spark/commerce_customer_scd2.py:116-139 | On a table that passes the check periods never overlap if and only if starts are distinct and the current row is last |
| HistoryTheorems.MergeFits | jobs/spark/commerce_customer_scd2.py:216-241 | For changed rows with unique customers no target row is matched twice, no closing row goes unmatched, and every version is inserted |
| HistoryTheorems.ForwardHolds | jobs/spark/commerce_customer_scd2.py:186-241 | Forward refines rebuild: the MERGE of a strictly later batch into the history of what was known gives the history of everything known |
| HistoryTheorems.LaterBatchIsInOrder | jobs/spark/commerce_customer_scd2.py:174-184 | The order guard never fires on a strictly later batch |
| HistoryTheorems.PostChecksPass | jobs/spark/commerce_customer_scd2.py:247-264 | The checks after the MERGE pass when the source is the last word on its customers |
| HistoryTheorems.ApplySucceeds | jobs/spark/commerce_customer_scd2.py:156-275 | A strictly later batch with unique customers always succeeds and leaves the longer history |
| HistoryTheorems.ApplyReplays | jobs/spark/commerce_customer_scd2.py:156-275 | Applying the batch again succeeds, finds no change and writes nothing |
| HistoryTheorems.RebuildHolds | jobs/spark/commerce_customer_scd2.py:36-48 | The lag and lead computation over unambiguous rows is the history of those rows |
| HistoryTheorems.RebuildExactly | jobs/spark/commerce_customer_scd2.py:13-70 | For every target and source: the rebuild succeeds if and only if its source checks pass, then holds the history of the source, and writes only if it did not already |
| HistoryTheorems.CoverageNeverRejects | jobs/spark/commerce_customer_scd2.py:50-55 | The coverage guard never rejects a table made from part of the source |
| HistoryTheorems.RebuildIgnoresOrder | jobs/spark/commerce_customer_scd2.py:36-48 | The rebuild does not depend on the order of its source |
| HistoryTheorems.FoldEqualsRebuild | jobs/spark/commerce_customer_scd2.py:13-275 | Folding any ascending run of batches forward gives the bag of rows of one rebuild over all of them |
| HistoryTheorems.AttributesAtInstant | jobs/spark/commerce_customer_scd2.py:73-83 | If the hash tells the observed attributes apart, the row that covers an instant carries the attributes of the latest silver row |
| HistoryInvariant.MergeKeepsWellFormed | jobs/spark/commerce_customer_scd2.py:216-243 | A forward MERGE in order keeps any well-formed table well formed: one current row a customer, the last, contiguous positive periods |
| HistoryInvariant.ApplyExactly | jobs/spark/commerce_customer_scd2.py:156-275 | On any well-formed table forward mode succeeds if and only if the batch is not empty, of one time, of unique customers and not out of order; then the table is that of the MERGE, else unchanged |
| HistoryInvariant.AnyRunKeepsWellFormed | jobs/spark/commerce_customer_scd2.py:13-275 | Whatever is applied or rebuilt, in any order and however late, the table stays well formed and its periods never overlap |
| LateBatches.LateBatchExactly | jobs/spark/commerce_customer_scd2.py:174-184 | A batch that passes the guards always succeeds, and the result is right if and only if each row that changes its customer is later than everything observed of them and each row that does not is already answered by the table at its own time |
| LateBatches.GuardMissesLateBatch | jobs/spark/commerce_customer_scd2.py:174-184 | A concrete change between two equal observations that the guard lets through and forward mode gets wrong |
| LateBatches.GuardMissesEarlierStart | jobs/spark/commerce_customer_scd2.py:174-184 | A concrete unchanged row from before the first observation: forward mode succeeds, writes nothing, and the table is wrong |
| LandingZone.CommerceS3LandingZone.PutOnce | src/lakehouse_ops/ingestion/commerce_s3_landing.py:93-128 | Creates an absent object, accepts an agreeing one, refuses a conflicting one, and never changes one that is there |
| LandingZone.CommerceS3LandingZone.Write | src/lakehouse_ops/ingestion/commerce_s3_landing.py:49-91 | Succeeds if and only if the four files and the manifest are those of the verified manifest and every object already there agrees; then customers, orders, payments and products are there with the checksums of their own entries; adds objects of its batch only, counts them, and on failure does not add the manifest |
| LandingZone.StepKeeps | src/lakehouse_ops/ingestion/commerce_s3_landing.py:61-85 | Every step of any of the writers keeps manifests complete, progress backed by stored objects, and the created counts equal to the store |
| LandingZone.VisibleManifestIsComplete | src/lakehouse_ops/ingestion/commerce_s3_landing.py:59-85 | With any number of writers, interleavings and crashes a visible manifest is whole and its four tables are there with the checksums it names |
| LandingZone.ObjectsNeverChange | src/lakehouse_ops/ingestion/commerce_s3_landing.py:103-128 | No visible object ever changes or disappears |
| LandingZone.FinishedWritersAgree | src/lakehouse_ops/ingestion/commerce_s3_landing.py:118-128 | Two writers that finish one batch have the four table checksums and the hash of the manifest in common, and the store shows them |
| LandingZone.LandingAgainCreatesNothing | src/lakehouse_ops/ingestion/commerce_s3_landing.py:118-128 | Landing a landed manifest again finds every object in agreement and writes nothing |
| BudgetedRead.StepKeeps | src/lakehouse_ops/ingestion/commerce_batches.py:88-139 | Every step of reader and caller keeps the exact account of who has closed the response |
| BudgetedRead.ReturnedOrClosedOnce | src/lakehouse_ops/ingestion/commerce_batches.py:88-139 | In every interleaving a response is closed at most once and never when returned; when both threads are done it is returned open or closed exactly once |
| BudgetedRead.ReturnsOnlyValues | src/lakehouse_ops/ingestion/commerce_batches.py:121-139 | A caller that returns has the value of a read that was not abandoned |
| BudgetedRead.FinalCheckDecides | src/lakehouse_ops/ingestion/commerce_batches.py:121-139 | A caller returns, its response open, exactly after a final check in time; after a late one it has raised and its response is closed; after a timeout or an exception it raises |
| BudgetedRead.EveryRunEnds | src/lakehouse_ops/ingestion/commerce_batches.py:95-139 | No interleaving has more than ten steps |
| BudgetedRead.CallerNeverStuck | src/lakehouse_ops/ingestion/commerce_batches.py:103-129 | The caller can always get closer to its end without the blocked action, at most after the reader leaves the guard |
| BudgetedRead.ReaderNeverStuck | src/lakehouse_ops/ingestion/commerce_batches.py:110-119 | Nor is the reader stuck once its action has come back |
| BronzeCommerce.BronzeTable.MergeTable | jobs/spark/bronze_commerce.py:107-211 | A wrong row count or a missing value is refused and writes nothing; a batch that is not there yet gets exactly the bag of rows and the keys of the file, in whatever order it was read, and a batch that holds the file is left as it is; rows that were there stay |
| BronzeCommerce.KeysOfFile | jobs/spark/bronze_commerce.py:126-139 | The keys of a file are distinct and are exactly each hash with the occurrences from one to its count |
| BronzeCommerce.KeysIgnoreOrder | jobs/spark/bronze_commerce.py:137-139 | The key set is the same for every physical order of the file, even if hashes collide |
| BronzeCommerce.ReplaysKeepTheFile | jobs/spark/bronze_commerce.py:193-211 | Any number of runs, each in its own order, leave exactly the bag of rows of the file and no other change |
| MergeStatement.RunsPublish | jobs/spark/bronze_commerce.py:194-203 | However often a batch is merged, only the first MERGE writes, and other batches are untouched |
| MergeStatement.MergeCompletes | jobs/spark/gold_commerce_daily.py:147-160 | A MERGE into a table that has some of the source rows of the batch adds exactly the missing ones |
| SilverJob.FirstExists | jobs/spark/silver_commerce_orders.py:68-74 | Every partition of the window has a row ranked first |
| SilverJob.FirstIsUnique | jobs/spark/silver_commerce_orders.py:68-74 | and only one |
| SilverJob.RowNumberIgnoresOrder | jobs/spark/silver_commerce_orders.py:68-74 | The rank does not depend on the physical order of the rows |
| SilverJob.JoinKeepsRows | jobs/spark/silver_commerce_orders.py:73-84 | A left join with distinct references keeps every row once, with its reference or null |
| SilverJob.AttemptsPublish | jobs/spark/silver_commerce_orders.py:228-261 | Over any runs, some dying between the two MERGEs, once one survives both tables hold the whole batch, the counts agree and other batches are untouched |
| SilverJob.SameRowsPublish | jobs/spark/silver_commerce_orders.py:228-261 | If the runs publish the same rows in any orders, the batch ends up with exactly those valid and rejected rows, one valid row a key |
| SilverJob.SilverTables.WriteSelectedBatch | jobs/spark/silver_commerce_orders.py:217-261 | The writing half of a silver job: its guards write nothing, otherwise both MERGEs run and the counts decide |
| SilverOrders.WriteSelectedBatch | jobs/spark/silver_commerce_orders.py:153-261 | One run publishes the classified batch and never trips over its own counts |
| SilverOrders.EveryRowIsClassified | jobs/spark/silver_commerce_orders.py:55-90 | Ranking and both reference joins neither multiply nor drop a row |
| SilverOrders.ErrorsExactly | jobs/spark/silver_commerce_orders.py:10-52 | Each of the fifteen errors is in the list of a row if and only if its condition on the columns holds, in the order of the checks |
| SilverOrders.CleanMeans | jobs/spark/silver_commerce_orders.py:10-52 | A row has no quality error if and only if it is complete, positive, consistent, of known references and the newest copy of its order |
| SilverOrders.ValidRowMeans | jobs/spark/silver_commerce_orders.py:166-181 | A valid order carries its bronze columns, a positive total that is quantity times price, and the thirty-day late flag |
| SilverOrders.FirstIsNewest | jobs/spark/silver_commerce_orders.py:68-74 | A row is ranked first if and only if no copy of its order has a later ingestion time, nulls counting as earliest, or at the same time a greater hash, or with the same hash a smaller occurrence |
| SilverOrders.OneNewestRow | jobs/spark/silver_commerce_orders.py:68-74 | Every order has exactly one row that is not a duplicate |
| SilverOrders.SplitIsComplete | jobs/spark/silver_commerce_orders.py:217-220 | Valid and rejected rows add up to bronze |
| SilverOrders.PublicationHasKeys | jobs/spark/silver_commerce_orders.py:166-216 | A publication has one valid row an order and one reject a bronze row |
| SilverOrders.OrdersReplaySafely | jobs/spark/silver_commerce_orders.py:153-261 | After any runs of which one survives, the valid rows of the batch carry exactly the acceptable bronze rows, the newest copy of each order, and its rejects are exactly the others with exactly their errors |
| SilverPayments.ErrorsExactly | jobs/spark/silver_commerce_payments.py:12-43 | Each of the eight errors is in the list of a row if and only if its condition on the columns holds, in the order of the checks |
| SilverPayments.OnlyCopyExactly | jobs/spark/silver_commerce_payments.py:46-50 | The count over the identifier is at most one if and only if no other bronze row has it |
| SilverPayments.CleanMeans | jobs/spark/silver_commerce_payments.py:12-43 | A payment row has no quality error if and only if it is complete, positive, of a known status and the only copy of its identifier |
| SilverPayments.DuplicatesAllRejected | jobs/spark/silver_commerce_payments.py:46-50 | Every copy of a duplicated identifier is rejected |
| SilverPayments.ValidRowMeans | jobs/spark/silver_commerce_payments.py:118-129 | A valid payment carries its bronze columns and a positive amount |
| SilverPayments.PaymentsReplaySafely | jobs/spark/silver_commerce_payments.py:105-203 | Replay safety of the payment job, with contents |
| SilverCustomers.ValidRowsFeedHistory | jobs/spark/silver_commerce_customers.py:106-119 | Valid customer rows are of the batch and its time, complete, and one a customer |
| SilverCustomers.ErrorsExactly | jobs/spark/silver_commerce_customers.py:11-30 | Each of the five errors is in the list of a row if and only if its condition on the columns holds, in the order of the checks |
| SilverCustomers.FirstIsPreferred | jobs/spark/silver_commerce_customers.py:33-40 | A row is ranked first if and only if no copy of its identifier has a greater hash, or the same hash and a smaller occurrence |
| SilverCustomers.CleanMeans | jobs/spark/silver_commerce_customers.py:11-30 | A customer row has no quality error if and only if it is complete, its email is null or well formed, and it is the preferred copy of its identifier |
| SilverCustomers.ValidRowMeans | jobs/spark/silver_commerce_customers.py:106-117 | A valid customer carries its bronze columns; only a null email counts as missing |
| SilverCustomers.CustomersReplaySafely | jobs/spark/silver_commerce_customers.py:93-190 | Replay safety of the customer job, with contents |
| DailyGold.EnrichedIsReference | jobs/spark/gold_commerce_daily.py:46-82 | Aggregating payments before the joins causes no fan-out: enriched row i is order i with the sums that a nested loop finds |
| DailyGold.SummaryIsReference | jobs/spark/gold_commerce_daily.py:43-93 | The summary has one row for each calendar day, of 86,400 seconds, on which the batch has an order, and every column of it is what a nested loop over the orders of that day and the payments that name them finds, buyers counted as a set |
| DailyGold.DailyGoldConserves | jobs/spark/gold_commerce_daily.py:43-138 | Over all days orders, captured revenue and payment counts equal those of the batch |
| DailyGold.ValidateExactly | jobs/spark/gold_commerce_daily.py:96-138 | The source checks pass if and only if both tables are there, reconcile with bronze, orders are distinct and every reference is to the batch |
| DailyGold.ValidatedSources | jobs/spark/gold_commerce_daily.py:96-138 | The source checks establish what the conservation needs |
| DailyGold.DailyTable.WriteSelectedBatch | jobs/spark/gold_commerce_daily.py:141-180 | On sources of the batch that pass their checks it is refused if and only if the table has a row of the batch that the summary has not; otherwise the rows of the batch are the summary, account for all orders, captured revenue and bronze payments, and no other row changes; a failed source check writes nothing |
| DailyGold.DailyReplaysSafely | jobs/spark/gold_commerce_daily.py:141-180 | On validated sources the first run publishes the summary, every later one changes nothing, and both account for all orders and bronze payments |
| CurrentMart.CurrentTable.PublishSnapshot | jobs/spark/gold_commerce_current.py:27-83 | On a mart that shows a snapshot, or none, it is refused if and only if the new one is incomplete or conflicts with it, and otherwise shows the later of the two; a failure writes nothing, and the stored time never decreases |
| CurrentMart.LatestSnapshotShown | jobs/spark/gold_commerce_current.py:51-77 | Any sequence of coherent snapshots, in any order with any repeats, succeeds and leaves the rows of the effective-latest one |
| CurrentMart.StoredTimeNeverDecreases | src/lakehouse_ops/commerce_snapshot.py:46-57 | The stored time never decreases, and an older or equal snapshot changes no row |
| CurrentMart.OrderMattersExactly | src/lakehouse_ops/commerce_snapshot.py:53-56 | Two complete snapshots published in either order leave the same bag of rows if and only if their times differ or they are the same identity with the same bag of rows |
| CurrentMart.TwoIdentitiesAtOneTime | src/lakehouse_ops/commerce_snapshot.py:53-56 | Two concrete batches of one time: the mart keeps whichever came first |
| ProfileOracle.ExpectedPeriods | src/lakehouse_ops/commerce_pipeline_profile.py:278-286 | The loop lists one period a run of equal revisions, each ending where the next begins |
| ProfileOracle.RunsAreRebuilt | jobs/spark/commerce_customer_scd2.py:36-48 | The runs of one customer in time order are the rows of the rebuild |
| ProfileOracle.OracleIsTheRebuild | src/lakehouse_ops/commerce_pipeline_profile.py:278-286 | For every sequence of dated revisions the loop lists exactly the periods of the rebuilt versions |
| SnapshotExpiration.SnapshotPlanner.CheckSnapshots | src/lakehouse_ops/iceberg/planner.py:250-343 | Defers without a history or with other references, errs if and only if an identifier is listed twice, is healthy if and only if no snapshot may expire, and otherwise proposes up to the maximum of those that may, none newer than one left out |
| SnapshotExpiration.IcebergTable.Expire | src/lakehouse_ops/iceberg/executor.py:223-239 | Succeeds if and only if plan, approval and live table fit; then exactly the listed snapshots are gone and the result reconciles; otherwise nothing changes; the current snapshot is never lost |
| SnapshotExpiration.CandidatesAreOldest | src/lakehouse_ops/iceberg/planner.py:297-308 | The candidates are the oldest snapshots before the cutoff that are not among the newest kept ones |
| SnapshotExpiration.PlanIsOldest | src/lakehouse_ops/iceberg/planner.py:292-343 | The plan names the oldest eligible snapshots, at most the maximum, and is healthy exactly when none is eligible |
| SnapshotExpiration.ExecutorRefusesExactly | src/lakehouse_ops/iceberg/executor.py:228-236 | A faithful plan is refused if and only if it names the current snapshot; otherwise it reconciles |
| SnapshotExpiration.RoundRemovesOldest | src/lakehouse_ops/iceberg/executor.py:223-239 | A round removes the oldest eligible prefix unless that has the current snapshot, and keeps the newest ones and the eligibility of the current one |
| SnapshotExpiration.DrainsExactly | src/lakehouse_ops/iceberg/planner.py:292-343 | After n rounds the table is healthy if and only if the current snapshot is not eligible and n reaches the eligible count over the maximum, rounded up |
| SnapshotExpiration.RollbackNeverDrains | src/lakehouse_ops/iceberg/planner.py:297-308 | A concrete table rolled back to its oldest snapshot: whatever the number of rounds it stays as it is and never becomes healthy, with three snapshots that may expire |
| Warehouse.WarehouseInventory | src/lakehouse_ops/warehouse_inventory.py:17-57 | Succeeds exactly on a listing in scope, with sizes and without repeats; then has every version, the sum of their bytes, and counters of the latest and noncurrent versions and of those under a metadata folder, else under a data folder, else under neither |
| Warehouse.InventoryConserves | src/lakehouse_ops/warehouse_inventory.py:42-57 | Latest and noncurrent, and the three layouts, each add up to all objects and bytes |
| Warehouse.GroupVersions | src/lakehouse_ops/warehouse_references.py:84-99 | Each group counts the objects and bytes of its versions: noncurrent, in the current references, only in the retained ones, or in neither, data and delete files apart |
| Warehouse.GroupsPartition | src/lakehouse_ops/warehouse_references.py:84-101 | The six groups cover every version once |
| Warehouse.AgreeingExactly | src/lakehouse_ops/warehouse_references.py:70-78 | Collecting references succeeds if and only if every path is in scope and equal paths carry equal size and content, and then holds exactly what the references say |
| Warehouse.Reconcile | src/lakehouse_ops/warehouse_references.py:65-104 | Succeeds if and only if current and retained references each agree, every current one is also retained, every retained one is stored in its size, and the total is that of the versions; then the groups count the versions |
| Warehouse.ObserveStorage | src/lakehouse_ops/commerce_pipeline_profile.py:455-460 | After an inventory the totals always reconcile: the observation fails only on the listing or the references |
| Warehouse.GroupsWeighReferences | src/lakehouse_ops/warehouse_references.py:80-99 | With at most one latest version a key, each of the four reference groups weighs exactly its distinct references |
| RangerPolicies.MergeMatchingResources | src/lakehouse_ops/ranger.py:544-575 | A user has an access to a resource after merging exactly when before; one policy a resource, one item a set of accesses |
| RangerPolicies.RangerAdmin.Synchronize | src/lakehouse_ops/ranger.py:204-258 | The loop claims, rewrites or creates each desired policy in turn, then deletes the obsolete ones, and counts them all; the managed policies become the desired ones if and only if they are not contested |
| RangerPolicies.NoDoubleClaimExactly | src/lakehouse_ops/ranger.py:210-223 | No desired policy claims what an earlier one has claimed if and only if, on the listing and the desired policies alone, no newcomer is to find the policy of a later name before an orphan |
| RangerPolicies.ContestedSimply | src/lakehouse_ops/ranger.py:211-223 | With one managed policy a resource that is: no policy of a later name is on the resource of an earlier newcomer |
| RangerPolicies.SynchronizesExactly | src/lakehouse_ops/ranger.py:210-258 | One synchronisation makes the managed policies the desired ones if and only if they are not contested before it, and never leaves a managed policy that is not desired |
| RangerPolicies.SynchronizesOnce | src/lakehouse_ops/ranger.py:210-258 | After an uncontested synchronisation the next one writes nothing |
| RangerPolicies.DoubleClaimLosesAPolicy | src/lakehouse_ops/ranger.py:211-223 | A concrete contested case, claimed by resource and then by name, after which a desired policy is missing |

## Left out

- Spark, Iceberg, S3 and file systems: a MERGE, an overwrite, a put-if-absent and a file replace are single atomic steps, and tables are bags of rows.
- Hashes are functions; injectivity is assumed only where a row says so (`HistoryTheorems.AttributesAtInstant`, `ProfileOracle.OracleIsTheRebuild`). The landing results need none, since an object is compared by checksum only.
- Identifiers, digests and names are numbers; strings that are checked for blanks are a three-way datatype, and the email pattern is a flag of the row.
- `customer_version_id` and `reject_id` are functions of other columns and not stored.
- SQL integer overflow, time zones of day boundaries and null batch columns.
- `BatchRuns.Convergence`: is about declared full snapshots with distinct effective times; equal times stop in a guard, and late batches that are not full snapshots and manual history corrections are not part of it.
- `BatchRuns.AlwaysRecovers`: needs at least one valid customer in every landing, because the history job refuses an empty batch; undisturbed steps also pass the gold check, which is a parameter.
- `MartRuns.MartRowsFollow`: takes the complete daily rows of each batch as given; `DailyGold` proves what the daily job publishes.
- `BatchProtocol` models the three tables whose content depends on more than one batch (customer silver, history, identity of the current mart, whose rows `MartRuns` adds); the other stages of a run succeed or fail without touching these, and their own replay safety is proved separately.
- One runner at a time: the operating system lock is assumed.
- Pagination, continuation tokens, manifest and checkpoint parsing, temporary files and the fsync of `_write_state`.
- `BatchRunner.CommerceRunner.RunBatch`: takes the outcomes of stages, of the gold check and of each budget check as parameters, and requires one manifest a batch identifier, which the object key ensures; the retries inside the gold check and the journal are not modelled.
- `LandingZone.CommerceS3LandingZone.Write`: has the store to itself; interference is the subject of the state machine in the same file.
- The path of `_read_with_budget` without a budget, which calls the action directly.
- The tie order of `validate_target` for equal starts, and the nondeterministic order of `row_number` over equal sort keys, which the keys exclude.
- Product silver, which has the shape of customer silver, and weather tables.
- Data file and manifest rewriting, orphan removal, report digests and approvals by digest in the maintenance code; expiration takes the approval as a flag and assumes that the procedure removes exactly the listed snapshots and that a listing keeps the relative order of equal commit times.
- `Warehouse.WarehouseInventory`: keeps the listing order; the final sort of the report is not modelled.
- `RangerPolicies.MergeMatchingResources`: keeps the order of first occurrence; sorting by name, the digest in a merged name, row filters and masks are not modelled, and neither is the compilation of the role model.
- `RangerPolicies.SynchronizesExactly`: assumes unique names, a listing of the whole server, and a server that accepts every write; bootstrap policies, services and users are not modelled.
- Report validators, metrics, Trino and HTTP clients, command lines, and recovery drills.
