# A verified model of the migration pipeline's change-data path

The pipeline copies databases into Aurora DSQL: DMS writes a full load and then timestamp-named
change files to S3, and Glue jobs and Lambdas apply them. This project models the parts whose
correctness rests on an argument rather than on one line of code, and proves what the repository
promises of them:

- **The change-apply engine** (`scripts/glue_cdc_composite.py`). `ChangeRows` says what the raw rows of a file
  mean, `NetOps` is their keyed collapse and the SQL a chunk sends. `ApplyProtocol` is the engine as a step system: any number of
  runs on one table, crashes, aborts, lost COMMIT acknowledgements, transactions that commit after
  their client is gone, operator blocks, files that arrive meanwhile; `ApplySteps` says that all
  of this may happen at any time. `ApplySafety` holds the
  invariant, `ApplyTheorems` what follows over whole histories, `RowByRow` the same in terms of raw
  rows, `ApplyAlready` what the fence's
  answer "already" says, `ApplyProgress` that the engine can always finish. `Packing` cuts a file into
  chunks and measures them, `RetryPolicy` is what may follow each outcome, as a policy on the log of
  attempts, `RetryLoop` the bookkeeping that keeps to it, and `ApplyFile` the imperative chunk loop
  against an environment that may do anything the protocol allows; `ApplyRefines` says that its
  attempts are steps of the step system and its chunks such as the engine can finish with. `ChunkSize`
  is the size of the SQL in characters and
  bytes, `AsciiChunks` says where the character count is enough and `Repack` is the one way over the
  size limit. `Keyless` is the path for tables without a key,
  `Drift` and `StaleCounts` the row-count detector, `SchemaChange` the DDL inference (`SchemaRules`
  says what a header means for each column) and `LaterRenames` what it makes of a second change.
- **The cutover gate** (`lambdas/drain_check.py`): `DrainCheck`.
- **The fan-out planner** (`lambdas/plan_split.py`): `PlanRules` (what a plan has to be), `Lpt`
  (the bin-packing bounds) and `PlanSplit`.
- **The job registry** (`lambdas/create_glue_jobs.py`): `Registry` (the document),
  `RegistryProtocol` (compare-and-swap over ETags) and `DeleteMode` (deleting the jobs while create
  runs go on).
- **The small languages**: `Marker` and `Versions` (`lambdas/prepare_cdc_wheels.py`), `NullText`
  (what the entries say) and `NullRules`
  (the CDC script and `lambdas/resolve_task.py`), `MappingRules` (what the rules say),
  `TableMappings` and `SchemaEstimate`
  (`lambdas/resolve_task.py`, the cap of `lambdas/preflight_tasks.py`).

`Util`, `Text` and `Names` are shared helpers. Code that works step by step is modelled as methods
and classes with loops (`Session`, `Bucket`, `Account`, `Cursor`, `Target`), each tied to a specification
function whose meaning is then proved; expression-like code is modelled as functions. `ChangeRows`,
`SchemaRules`, `PlanRules`, `MappingRules` and `NullText` state in raw terms, without those functions,
what the inputs say, and the operations are proved to do that.

## Assumptions about the environment

- A commit succeeds only if the table's `cdc_status` row is still the version the transaction read
  (the argument the script states at `scripts/glue_cdc_composite.py:4677`); a transaction reads one
  snapshot.
- A listing of a folder is a prefix of the folder in name order, and a file that appears later sorts
  after every file already listed. Files do not change and stay in place.
- Equal keys in the database have equal canonical key text. A table's column set and the value
  conversions stay the same while its files are applied in the step system; a change of the columns
  is the subject of `SchemaChange`, where any statement may fail and nobody else changes the table.
- The operator changes only `status`. Other writers of the `cdc_status` row bump its version.
- One delete run clears a registry at a time, and a create run puts records only of jobs it has
  brought into Glue.
- ETags come from the content and differ for different content; the same ETag may come back.
- Index entries have distinct `schema.table` names. The readable part and the hash of a fork's slug
  are parameters.
- Letter case is ASCII letter case; names hold no newline (Python's `.` in a pattern).

## Where the code and its comments differ

The model follows the code in each case.

- A key inserted and then deleted within one file is said to net to nothing (line 3453), but the
  DELETE is sent (3517-3518): `InsertThenDeleteStillDeletes`.
- The op reconciliation check (3680) compares a counter with what it was computed from, so it cannot
  fire; `CollapseNetOps` shows the counters that carry information.
- "Already" is said to mean that this very step is committed (4673-4675). That holds of the file-done
  step (`DoneAnswerIsExact`); a chunk may instead have been committed by another run in smaller
  pieces, with the same rows. Between runs of different chunk settings it is exact in every history
  if and only if the chunk holds one operation (`ChunkAnswerIsExactIffOneOperation`); when all runs
  cut their chunks alike it is exact for chunks of any length (`SameCutsAreExact`).
- `n_insert` (3537) counts every upsert, updates included; `DriftMeasures` says what follows.
- The re-pack after a transaction timeout (4074-4076) is not measured again. It keeps the 10 MiB
  limit when the backstop had not cut the chunk, or when it is no longer than the measured piece
  (`OverTheLimitOnlyPastTheCut`); every re-pack of a chunk is safe exactly when the pack at one row
  less is (`RepacksAreSafeExactly`). Twelve rows of 900 KB go over: the floor of the row budget lets
  the re-pack grow back past the cut (`RepackCanExceedTheLimit`).
- The keyless path applies all deletes of a file before its inserts (4323-4337), called file-order
  safe. It agrees with file order exactly when no delete follows an insert of the same content:
  `ReloadIsFileOrderExactlyWithoutLateDeletes`.
- A rename that fails is logged as "will ADD instead" (3062), but the new name is not added:
  `NamesLeftOut` and `ColumnsLeftBehind` say exactly what is missing after any set of failures. A
  failed RENAME of a column that is no key always stops the file; a failed ADD never does, so the
  file is applied without that column (`FailedRenameStopsFailedAddDoesNot`), and the cached header
  keeps the next file from trying again.
- Appended columns are added in alphabetical order (3067), so the target's column order follows the
  header's only if they arrive sorted (`PositionsAgreeExactlyWhenSorted`). Every later rename in
  place is inferred if and only if they did (`EveryLaterRenameIsInferredExactlyWhenSorted`).
  Otherwise a rename can be missed and the file refused (`LaterRenameIsMissed`), or two renames can
  be swapped and the file applied with old cells under each other's names
  (`LaterRenamesCanBeSwapped`).
- The drift counters are advanced in a transaction of their own (5143-5154). A second run that finds
  the done step "already" committed adds them again, and so does a retry after a lost
  acknowledgement; a crash before it loses them. The remembered counts also outlive a cycle
  (5145): after a run yields a file, an empty file has that file's counts added once more
  (`FileCanBeCountedTwice`; what each count adds is said exactly by `CountAddsExactly`).
  `DriftMeasures` carries the term; it vanishes in a single crash-free
  run (`CalmRunHasNoHiddenDrift`).
- The gate waits for ever for a last file without data rows, because such a file never gets a ledger
  row (3618-3619): `CaughtUpOnceLastFileHasARow`.
- Preflight calls its schema estimate a lower bound (`lambdas/preflight_tasks.py:501`). A build can
  have as many schemas if and only if each estimated one is the folder schema of a table whose last
  matching rule is an include (`EstimateIsReachedExactly`); for rules on whole schemas and single
  tables, if and only if each has an include rule that no later rule shadows
  (`EstimateIsReachedByTheRules`). With ten schemas included and one of
  them excluded again, preflight refuses what a build of nine would pass
  (`EstimateCanCountTooMuch`).
- The delete mode reads the registry first, lists the tagged jobs, and clears the registry at the end
  (`lambdas/create_glue_jobs.py:584-617`). A clear that goes through forgets exactly the live jobs that
  were merged after the read and not tagged at the listing, or created again after their deletion
  (`ForgottenExactly`).

## Model

| member | source | states |
|---|---|---|
| NetOps.FinalRow | scripts/glue_cdc_composite.py:3451-3454 | Of a list of changes only the last one on a key decides that key's row, and keys that are not mentioned keep theirs: last op wins |
| NetOps.CollapseIsUnique | scripts/glue_cdc_composite.py:3448-3454 | One operation per key, in order of first appearance, each the key's last one: these three promises of the docstring leave exactly one possible result |
| NetOps.CollapseOpsIsCollapse | scripts/glue_cdc_composite.py:3488-3526 | The fold over the dictionary meets those promises for every row list |
| NetOps.CollapseNetOps | scripts/glue_cdc_composite.py:3436-3540 | In raw fields: for each key a data row bears there is one operation, in order of first appearance, and it says what the last data row with that key says: a delete if its letter is D in either case, otherwise an upsert that gives each written column the converted field of that row; the file is refused exactly when it has no key column or a data row with a NULL in its key; the counters reconcile short rows, data rows and net operations |
| NetOps.RefusedExactly | scripts/glue_cdc_composite.py:3466-3510 | A file is refused if and only if it has no key column or a data row with a NULL in its key |
| NetOps.CollapseNeverGrows | scripts/glue_cdc_composite.py:3527-3536 | A collapse never has more operations than the file has rows, and as many exactly when no key repeats |
| NetOps.CollapsePreservesMeaning | scripts/glue_cdc_composite.py:3448-3454 | On every table the net operations leave what the raw rows leave, applied one by one in file order |
| NetOps.ChunkRunsItsOps | scripts/glue_cdc_composite.py:3734-3782 | DELETEs first and then one multi-row upsert is the same as the chunk's operations in order; the upsert's partial column merge is a full replace because the file writes every column |
| NetOps.ChunksRunTheirOps | scripts/glue_cdc_composite.py:3862-3865 | The same over any list of chunks run in order |
| NetOps.RowOpsWriteEveryColumn | scripts/glue_cdc_composite.py:3519-3525 | Every upsert of a file carries a value for each column the file writes, short rows included |
| NetOps.CollapsedChunksPreserveMeaning | scripts/glue_cdc_composite.py:3734-3858 | For every row list and every cut of its net operations into chunks, running the chunks gives the table that applying each raw I/U/D row in file order gives |
| NetOps.InsertThenDeleteStillDeletes | scripts/glue_cdc_composite.py:3517-3518 | An insert followed by a delete of the same key in one file still sends the DELETE, which removes a row an earlier file left |
| ApplyProtocol.PendingIsSuffix | scripts/glue_cdc_composite.py:4996-4998 | The high-water skip leaves exactly the listed files right after the mark, in order |
| ApplySafety.StepKeeps | scripts/glue_cdc_composite.py:3916-4128 | Every step of every run, of the operator and of the folder keeps the invariant: the table is what the checkpoint claims, snapshots at the current row version are current, the ledger and the log agree with the checkpoint |
| ApplySteps.ArrivalsAreFree | scripts/glue_cdc_composite.py:4994-4998 | A file with a name of its own behind the listed ones may arrive in every state; it takes its place by name and changes nothing else |
| ApplySteps.EachChangeShutsOutTheOthers | scripts/glue_cdc_composite.py:4676-4680 | Whoever changes the row, by a commit in time or late, a block, a count or otherwise, keeps every transaction that read it before from committing |
| ApplySteps.IdleCycleEnds | scripts/glue_cdc_composite.py:5155-5160 | A run with nothing left to apply can always end its cycle with the idle step, which changes neither the table nor the history |
| ApplySafety.ChunkReachesGoal | scripts/glue_cdc_composite.py:3976-4018 | The rows a chunk writes turn the table claimed by the checkpoint it expected into the table claimed by the checkpoint it commits with them |
| ApplySafety.DoneReachesGoal | scripts/glue_cdc_composite.py:5127-5136 | Clearing the file in progress and raising the high-water mark claims the same table: the net operations together are the file's rows |
| ApplySafety.InstallKeepsTable | scripts/glue_cdc_composite.py:4676-4680 | A commit on the row version that was read leaves a table equal to its new claim, whoever commits it and whenever |
| ApplySafety.InstallKeepsLedger | scripts/glue_cdc_composite.py:4002-4014 | A commit keeps the ledger honest: a file is flagged committed or done only when the checkpoint has passed all its operations, and every file under the mark that holds a row is flagged |
| ApplyTheorems.TargetIsExactlyTheClaim | scripts/glue_cdc_composite.py:4979-5160 | In every reachable state the target is the full-load table with every file up to `last_done_file` applied row by row, then the first `last_offset` net operations of the file in progress: nothing missed, repeated or reordered |
| RowByRow.TargetHoldsTheLastRows | scripts/glue_cdc_composite.py:4979-5160 | In every reachable state between files, key by key and in raw rows: the target holds what the last data row of all files up to the mark says, no row after a D and otherwise that row's values, and the full-load row for a key no file bears |
| ApplyTheorems.OnlyCommitsMoveTheCheckpoint | scripts/glue_cdc_composite.py:4669-4693 | The checkpoint and the table change only by a committed step, which advances (`last_done_file`, offset) strictly; nothing fenced commits while the table is blocked |
| ApplyTheorems.LogIncreases | scripts/glue_cdc_composite.py:4676-4680 | Of two committed moves, however far apart, the later one starts no earlier than the first ends and ends strictly later |
| ApplyTheorems.EachMoveCommitsOnce | scripts/glue_cdc_composite.py:4676-4680 | Over any history no two committed moves start from, or end at, the same checkpoint: at most once, and no ABA |
| ApplyTheorems.CheckpointNeverReturns | scripts/glue_cdc_composite.py:4676-4680 | From any state on, later checkpoints are never behind the present one |
| ApplyTheorems.HistoryReached | scripts/glue_cdc_composite.py:4984-4985 | Every run always expects a checkpoint the database really had |
| ApplyTheorems.AlreadyMeansCommitted | scripts/glue_cdc_composite.py:4669-4693 | The fence answers "already" exactly when the committed checkpoint of an unblocked table is the step's target; then committed moves lead from the run's own checkpoint to it and the table holds what it claims |
| ApplyAlready.DoneAnswerIsExact | scripts/glue_cdc_composite.py:5134-5136 | In every history, when the file-done step is told "already", exactly that step was committed |
| ApplyAlready.OneOperationIsExact | scripts/glue_cdc_composite.py:4673-4675 | In every history, when a chunk of one operation is told "already", exactly that chunk was committed |
| ApplyAlready.ChunkAnswerIsExactIffOneOperation | scripts/glue_cdc_composite.py:4673-4675 | For every file, offset and end of a chunk that fits a transaction, with runs of any chunk settings: its "already" means in every history that exactly this chunk was committed if and only if it holds one operation; a longer one is refuted by a run of fixed chunk size one that commits its operations one by one |
| ApplyAlready.SameCutsAreExact | scripts/glue_cdc_composite.py:3822-3858 | In every history in which all runs cut files into chunks alike, as packing does with equal settings, a chunk's "already" means that exactly this chunk was committed, however long it is |
| ApplyTheorems.PendingExactly | scripts/glue_cdc_composite.py:4994-4996 | A file is pending exactly when it is listed and sorts after the mark, which is why a file that arrives behind the mark is never applied |
| ApplyProgress.EngineCanAlwaysFinish | scripts/glue_cdc_composite.py:5088-5160 | From every reachable unblocked state, whatever crashes and lost acknowledgements lie behind, and however files are cut into chunks of at most 2,997 operations (the row limit less the control rows), some continuation of any one run sends exactly those chunks and applies every file of the folder, if all of them can be read |
| Packing.PackChunk | scripts/glue_cdc_composite.py:3822-3858 | The chunk is within the row budget, the byte budget and the cap, is never empty, and is the longest such chunk |
| Packing.PackMeans | scripts/glue_cdc_composite.py:3822-3858 | A pack written out in rows and bytes: with its control rows within the row budget, within the byte budget by the estimate and within the cap, and one more operation breaks one of them unless the file ends |
| Packing.FirstPackMeans | scripts/glue_cdc_composite.py:3866-3896 | In numbers: a first pack has at most 2,997 operations and an estimate of at most 10,275,840 bytes, and ends only with the file, at the fixed size, or where one more operation would go over |
| Packing.ModsCount | scripts/glue_cdc_composite.py:3818-3820 | A transaction of n operations modifies n + 3 rows, its control rows included |
| Packing.SmallerBudgetPacksLess | scripts/glue_cdc_composite.py:3822-3858 | A smaller row budget packs a prefix of what a larger one packs, so a budget has one pack |
| Packing.ShrinkToFit | scripts/glue_cdc_composite.py:3937-3955 | The backstop loop computes the cut of the specification, whatever the proportional target says |
| Packing.ShrunkIsBackstop | scripts/glue_cdc_composite.py:3926-3955 | That cut ends within 10 MiB or at one operation, and leaves alone exactly what fits |
| Packing.FirstChunk | scripts/glue_cdc_composite.py:3924-3956 | A first attempt keeps the 3,000-row limit, and the 10 MiB limit when it has two or more operations |
| Packing.SmallerChunk | scripts/glue_cdc_composite.py:4061-4078 | The re-pack after a timeout lowers the row budget strictly, not below its floor, packs as much as that allows, and keeps the 3,000-row limit |
| Packing.OverTheLimitOnlyPastTheCut | scripts/glue_cdc_composite.py:4074-4076 | An attempt over 10 MiB is a re-pack that grew back past the point the backstop had cut the chunk to; re-packs of an uncut chunk, or no longer than the measured piece, keep the limit |
| Packing.RepacksAreSafeExactly | scripts/glue_cdc_composite.py:4061-4078 | Whatever a timeout makes of the row budget, the re-packs of a chunk keep the limit if and only if the pack at one row less does |
| Repack.RepackCanExceedTheLimit | scripts/glue_cdc_composite.py:3924-4078 | Twelve rows of 900 KB: packed by character count, cut to eleven by byte count, a timeout at the floor of 100, packed as twelve again, over 10 MiB |
| Packing.HonestEstimateKeepsTheLimit | scripts/glue_cdc_composite.py:421-425 | When each operation's estimate covers its own bytes and the upsert's frame fits into the reserve, every attempt is within 10 MiB |
| AsciiChunks.PlainChunksKeepTheLimit | scripts/glue_cdc_composite.py:3800-3816 | On a table with one key column, whose values are ASCII without quotes and whose type suffixes are short, the character count covers the bytes, so every attempt, re-packs included, is within 10 MiB when the upsert's frame fits into the reserve |
| ChunkSize.MeasuredIs | scripts/glue_cdc_composite.py:3938-3939 | The measured bytes of a chunk's statements are those of its operations, and the upsert's frame once |
| ChunkSize.MeasuredGrows | scripts/glue_cdc_composite.py:3953-3954 | Dropping the tail of a chunk never makes its SQL longer |
| Packing.SlowStep | scripts/glue_cdc_composite.py:4104-4125 | A slow chunk lowers the budget if and only if the mode is automatic, the chunk used the budget up and it is above the floor; the new budget is the one nearest to the target between the floor and one less |
| RetryLoop.React | scripts/glue_cdc_composite.py:4022-4103 | One step of the error classification: a retry uses up exactly one try of its kind; a timeout in the automatic mode above the floor is always answered with a re-pack unless it is a schema change or a retryable conflict, and a re-pack happens only then; a block comes only when no retry of any matching kind is left and no such timeout is at hand |
| RetryLoop.StopIsJustified | scripts/glue_cdc_composite.py:4036-4103 | When the loop gives a chunk up as blocked, an OCC, server or pipe error was last seen on more attempts at that very chunk than its kind allows |
| RetryLoop.RepackChunk | scripts/glue_cdc_composite.py:4061-4078 | The timeout branch: the attempt is on record, the row budget is lower, the tries start afresh, and the new chunk is in order |
| RetryLoop.Respond | scripts/glue_cdc_composite.py:4022-4103 | After each failed attempt either the loop ends, justified, or (row budget, tries left) falls lexicographically |
| RetryPolicy.AllOkEach | scripts/glue_cdc_composite.py:3818-3858 | Each attempt of a file, first or re-packed, in either mode, writes at most 3,000 rows with its control rows and keeps the estimated byte budget; first attempts keep the measured 10 MiB |
| RetryPolicy.TimeoutIsPackedAgain | scripts/glue_cdc_composite.py:4061-4078 | In every log that keeps the policy: in the automatic mode a chunk whose error is a timeout, with the budget above its floor, is never the last attempt; the next one is at the same offset with a lower row budget |
| RetryPolicy.BlockedExactly | scripts/glue_cdc_composite.py:4036-4103 | A file is blocked if and only if its last attempt was refused or failed with no schema change, no retry left of any kind the error matches, and no timeout that the automatic mode can answer with a smaller chunk |
| ApplyFile.Session.Send | scripts/glue_cdc_composite.py:3976-4019 | Past the fence: rows and checkpoint take effect together if and only if nobody changed the row and no error came before the commit; a lost race changes nothing and comes back as a conflict; without an acknowledgement this run's view is unchanged |
| ApplyFile.Session.TryChunk | scripts/glue_cdc_composite.py:3961-4018 | One transaction against any interference: it yields exactly when the table is blocked or the checkpoint is neither expected nor target, skips exactly when the chunk is committed already, and otherwise is sent; on "landed" or "already" the shared checkpoint is the chunk's target; the table stays equal to its claim |
| ApplyFile.Session.RunChunk | scripts/glue_cdc_composite.py:3957-4103 | The retry loop of one chunk ends under every error sequence within 15 attempts a budget value, with the chunk landed or a justified end |
| ApplyFile.Session.NextChunk | scripts/glue_cdc_composite.py:3916-4125 | One chunk from its pack to its end: it lands or is given up, justified, and the row budget never rises |
| ApplyFile.Session.ApplyFile | scripts/glue_cdc_composite.py:3916-4128 | Under every error sequence and interference the loop ends; the landed chunks tile the net operations from the start offset on without gap or overlap; "done" means all of them are in the table; the log of attempts keeps the retry policy from the first pack to the end, so a timeout is packed again while the budget allows; the attempts are bounded and each keeps the limits |
| ApplyRefines.AttemptIsSteps | scripts/glue_cdc_composite.py:3957-4128 | One attempt of the retry loop, with other runs moving before and during it and any failure, is a few steps of a run in the step system: begin the chunk, then commit, roll back, or commit unseen by the client; database, checkpoint and outcome agree |
| ApplyRefines.AttemptIsEnabled | scripts/glue_cdc_composite.py:3818-3820 | Every attempt the chunk loop records, re-packs included, is a chunk the step system may begin: it fits the row limit |
| ApplyRefines.OtherRunsKeepTheRely | scripts/glue_cdc_composite.py:4676-4680 | Whatever steps lead from one moment of a history to a later one, the two databases are related as the chunk loop assumes of other runs |
| ApplyRefines.HistoryIsAnEnvironment | scripts/glue_cdc_composite.py:4676-4680 | So any moves taken from a history, one before and one during each attempt, are an environment the chunk loop is proved against |
| ApplyRefines.PackingIsACut | scripts/glue_cdc_composite.py:3924-3956 | For any settings, row sizes and backstop guess, the chunks a run first packs hold at least one and at most 2,997 operations: the engine can finish with exactly them |
| ApplyRefines.FirstChunkIsTheCut | scripts/glue_cdc_composite.py:3924-3956 | Packing and measuring leave no choice: every first attempt at an offset ends where that cut says |
| Drift.FullTableIsAllOps | scripts/glue_cdc_composite.py:3448-3454 | The table after some files is the baseline with all their net operations in order |
| Drift.RowsAfter | scripts/glue_cdc_composite.py:4843-4859 | The row count moves by upserts minus deletes, minus upserts that hit an existing key, plus deletes that found no row |
| Drift.CountersReached | scripts/glue_cdc_composite.py:5144-5154 | In every history the counters are the sums over the files whose counts were added, as often as they were, remembered counts of an earlier cycle included |
| Drift.DriftMeasures | scripts/glue_cdc_composite.py:4843-4859 | In every reachable state of any number of runs the detector's delta is missed deletes minus upserts that hit, plus what the counters have not added or added twice |
| Drift.DetectorFiresExactly | scripts/glue_cdc_composite.py:4843-4859 | The detector fires if and only if that number, in either direction, is over the tolerance |
| Drift.CalmRunHasNoHiddenDrift | scripts/glue_cdc_composite.py:5134-5160 | Between the files of a single run without a process crash, a lost acknowledgement or a failed counter write, from an exact baseline, with errors, blocks and restarted cycles, the delta is exactly missed deletes minus hits, and zero exactly when these balance |
| StaleCounts.CountAddsExactly | scripts/glue_cdc_composite.py:5143-5154 | In every reachable state a count adds the file just done if and only if that holds rows; after an empty file it adds another file if and only if the process remembers one |
| StaleCounts.FileCanBeCountedTwice | scripts/glue_cdc_composite.py:5144-5154 | A run that opens a file and leaves it to another run counts that file again at the next file, if that one is empty |
| ApplySteps.LostCountIsAddedAgain | scripts/glue_cdc_composite.py:5143-5154 | A count whose acknowledgement is lost is added a second time by its retry, before the run goes on to the next file |
| DrainCheck.LatestCdcFile | lambdas/drain_check.py:136-182 | The paging loop returns the greatest change-file key over all pages, none exactly when there is none |
| DrainCheck.LedgerHas | lambdas/drain_check.py:309-329 | The two queries find a row exactly when the latest key, or a key that ends like its base name in the sense of LIKE, is flagged done or committed |
| DrainCheck.CaughtUp | lambdas/drain_check.py:295-338 | `caughtUp` exactly when every table is; `pending` is the first fifty late tables in order |
| DrainCheck.FallbackFindsOnlyTheFile | lambdas/drain_check.py:319-327 | Under DMS naming the LIKE fallback matches the latest file itself and no other |
| DrainCheck.CaughtUpMeansEverythingApplied | lambdas/drain_check.py:305-338 | In every reachable state of the engine with a frozen folder, a table the gate calls caught up has every one of its files fully applied, not only the latest |
| DrainCheck.CutoverGate | lambdas/drain_check.py:295-338 | Over all in-scope tables at once: the gate answers "caught up" only if every one of them has every one of its files fully applied |
| DrainCheck.CaughtUpOnceLastFileHasARow | lambdas/drain_check.py:305-338 | When every file is done the gate says so if and only if there is no file or the last one has a data row |
| Lpt.LoadsAddUp | lambdas/plan_split.py:264-270 | Bucket totals add up to the rows of all tables: no table is dropped or placed twice |
| Lpt.GreedyIsBelowTwice | lambdas/plan_split.py:266-270 | In any order, the least-loaded-bucket rule is within (2 - 1/m) of every other assignment's heaviest bucket |
| Lpt.GreedyIsNearOptimal | lambdas/plan_split.py:266-270 | Heaviest first, it is within (4/3 - 1/(3m)) |
| Lpt.GreedyOpensBuckets | lambdas/plan_split.py:261-273 | When every table has rows, the first tables each open a lane of their own: as many lanes are used as there are lanes and tables |
| PlanSplit.PackSmall | lambdas/plan_split.py:260-270 | The loop's buckets hold exactly the small tables and their totals are those of the heaviest-first rule with ties to the first bucket |
| PlanSplit.SortByKeeps | lambdas/plan_split.py:266 | The stable sort keeps every table and orders them |
| PlanSplit.SelectSplits | lambdas/plan_split.py:184-185 | Composite and normal, big and small: each pair of lists is a partition |
| PlanSplit.PackingIsNearOptimal | lambdas/plan_split.py:260-273 | No planned bucket exceeds (4/3 - 1/(3m)) times the fullest group of any other grouping of the same tables into m groups |
| PlanSplit.PacingKeepsTheBudget | lambdas/plan_split.py:280-284 | With 1 <= min_writers <= max_writers, the writers of a loader are between the two and loaders times writers is within the connection budget exactly when the budget is at least min_writers |
| PlanSplit.PacingIsMaximal | lambdas/plan_split.py:280-284 | No number of loaders within the groups, the map cap and the budget at the minimum of writers is larger, and no number of writers within their cap and the budget of these loaders |
| PlanSplit.Pace | lambdas/plan_split.py:280-284 | As many loaders at once as groups, the map cap and the connection budget at the minimum of writers allow, then as many writers each as the budget and their cap allow; never less than one loader or the minimum of writers |
| PlanSplit.BigGroups | lambdas/plan_split.py:252-256 | Each big table is a group of its own, in order |
| PlanSplit.SmallGroups | lambdas/plan_split.py:258-273 | The non-empty buckets follow, numbered on, hold exactly the small tables, and each is near optimal |
| PlanSplit.CompositeForks | lambdas/plan_split.py:347-419 | Each composite table, by label, gets one fork and one further group, both scoped to exactly that table |
| PlanSplit.FindBigGroup | lambdas/plan_split.py:438-440 | Finds the big group that holds exactly the table of that name, if there is one |
| PlanSplit.ScopeOf | lambdas/plan_split.py:438-449 | A big table's CDC job is scoped to exactly that table |
| PlanSplit.BigForks | lambdas/plan_split.py:428-462 | The first max_big_cdc_forks big tables by label get a fork; the others are reported as overflow |
| PlanSplit.IntendedOwners | lambdas/plan_split.py:477-482 | The owner map has the forked tables and no others, each owned by its own fork |
| PlanSplit.PlanGroups | lambdas/plan_split.py:245-446 | Every entry is in exactly one lane, composite and big tables in lanes of their own; with n the lanes max_groups leaves beside the big tables, at least one: min(n, small tables) lanes are small when all tables have rows, never more than n, and none is fuller than 4/3 - 1/(3n) times the fullest of any other spread of the small tables over n lanes |
| PlanSplit.PlanForks | lambdas/plan_split.py:347-462 | Every composite table is forked, at most max_big_cdc_forks big ones, no table twice, the rest on the overflow list |
| PlanSplit.NameForks | lambdas/plan_split.py:347-461 | The forks are named in order until one cannot be |
| PlanSplit.Split | lambdas/plan_split.py:179-500 | A plan, or the refusal: no tables, too many composite tables by count, or a job name that cannot fit; a plan's lanes, forks, owners, overflow and pacing are what the rules say of the entries and limits, with the number of small lanes and their near-optimality written out |
| PlanSplit.EveryTableHasOneOwner | lambdas/plan_split.py:474-482 | Every index entry is in exactly one group and has exactly one owner: its ck fork if composite, its bg fork if it has one, else main |
| PlanSplit.ForkJobName | lambdas/plan_split.py:83-102 | A fork's job name fits Glue's 255 characters |
| PlanSplit.JobNameMeans | lambdas/plan_split.py:83-103 | A fork's job has a name if and only if project, task, kind, hash and role leave room for one readable character; the name is these in order, at most 255 characters, with the readable name whole if it fits and otherwise cut to the room without trailing dashes |
| PlanSplit.NameFitsExactly | lambdas/plan_split.py:94-100 | A job has a name exactly when prefix, hash and role leave a character for the readable part |
| PlanSplit.ForkJobNamesDiffer | lambdas/plan_split.py:83-102 | Truncation never merges two forks: different hashes keep job names of one role different |
| Registry.ListingIsUnique | lambdas/create_glue_jobs.py:1165 | A list sorted by distinct names is determined by its records |
| Registry.SortRecords | lambdas/create_glue_jobs.py:1165 | The written list is sorted by name, without repeats, and holds exactly the dictionary's records |
| Registry.Mutate | lambdas/create_glue_jobs.py:1150-1166 | The merge, field by field: a job's field is what the last record that gives it a value says, or what it was; a job without a creation time gets its first record's time stamp; a table's owner is set by the last record of a ck- or bg-CDC job for it; jobs are listed once, by name; project and suffix keep their first values |
| Registry.MergeKeepsJobs | lambdas/create_glue_jobs.py:1155-1165 | A merge adds exactly the run's jobs, removes no job, no field and no owner, and leaves jobs the run does not name as they were |
| Registry.CreatedOnce | lambdas/create_glue_jobs.py:1159 | A job's creation time survives every later merge |
| Registry.MergeIsIdempotent | lambdas/create_glue_jobs.py:1150-1166 | Merging the same records again changes the time stamp only, so a retry after a lost answer is harmless |
| RegistryProtocol.Bucket.Update | lambdas/create_glue_jobs.py:425-445 | Among any other writers, one update puts its change exactly once or, on a conflict, not at all, and it conflicts only if others wrote during every attempt; on success the stored document is the one it returns |
| RegistryProtocol.NoLostUpdate | lambdas/create_glue_jobs.py:400-445 | After any interleaving the stored document is the first one with exactly the successful changes applied in commit order, although ETags may repeat |
| RegistryProtocol.GivesUpAfterSixOthers | lambdas/create_glue_jobs.py:425-445 | A run gives up only when other runs have put at least six changes since the history began, and then none of its own |
| RegistryProtocol.UndisturbedRunSucceeds | lambdas/create_glue_jobs.py:425-445 | From every reachable state a run that has not given up, left alone for one read and one put, succeeds with its change on the current document |
| RegistryProtocol.JobNamesStayUnique | lambdas/create_glue_jobs.py:1155-1165 | Job names stay unique and sorted through every history |
| RegistryProtocol.JobsStayUntilCleared | lambdas/create_glue_jobs.py:612-617 | A recorded job is in every later document as long as nobody clears the registry |
| RegistryProtocol.RegistryIsWhatWasPut | lambdas/create_glue_jobs.py:425-445 | The registry names exactly the jobs put since the last clear |
| DeleteMode.Account.Delete | lambdas/create_glue_jobs.py:579-619 | The delete mode among create runs: it goes through exactly the recorded and the tagged jobs, by name; the pending and failed lists are exactly the jobs whose run did not stop or whose deletion was refused; it empties jobs and owners if and only if both lists are empty and the write goes through |
| DeleteMode.SweepLeaves | lambdas/create_glue_jobs.py:590-608 | After any part of the sweep: a job whose run had stopped at its turn is in Glue exactly if it was created after that turn, any other exactly if it was there or was created |
| DeleteMode.ForgottenExactly | lambdas/create_glue_jobs.py:584-617 | A job is left in Glue and dropped from the registry if and only if the clear goes through and it was merged after the read and neither recorded nor tagged when listed, or was created again after its deletion |
| DeleteMode.ForgottenUnlessCreatedAgain | lambdas/create_glue_jobs.py:584-617 | Unless a deleted job is created again: forgotten exactly if the clear goes through and the job was merged after the read, was not recorded before, and was not in the tag listing |
| DeleteMode.ClearCanForgetALiveJob | lambdas/create_glue_jobs.py:584-617 | It happens: a job created and recorded between the listing and the clear |
| Marker.Cursor.ParseAtom | lambdas/prepare_cdc_wheels.py:129-140 | The moving cursor computes the atom's value, its end or its error |
| Marker.Cursor.ParseConj | lambdas/prepare_cdc_wheels.py:142-148 | The same for a chain of `and` |
| Marker.Cursor.ParseDisj | lambdas/prepare_cdc_wheels.py:150-156 | The same for a chain of `or` |
| Marker.Evaluate | lambdas/prepare_cdc_wheels.py:117-161 | The evaluator ends on every token list with the value, or the error, of the specification |
| Marker.EvaluatorIsTheGrammar | lambdas/prepare_cdc_wheels.py:117-161 | A token list is accepted with a value if and only if some tree of the grammar prints to it and has that value |
| Marker.PrintedTreeEvaluates | lambdas/prepare_cdc_wheels.py:117-161 | Every and/or/not/parenthesis tree, printed with the parentheses it needs, evaluates to its truth value |
| Versions.CmpMeans | lambdas/prepare_cdc_wheels.py:69-72 | The padded tuple comparison is the order by first difference on releases without end: trailing zeros never matter |
| Versions.LessIsTransitive | lambdas/prepare_cdc_wheels.py:69-72 | That order is transitive |
| Versions.Satisfies | lambdas/prepare_cdc_wheels.py:75-114 | True exactly when every clause is well-formed and met in the order by first difference (prefixes part by part); an error names the first clause that is refused before any fails; false has a first failing clause |
| Versions.PrefixIsAnInterval | lambdas/prepare_cdc_wheels.py:87-93 | `== p.*` is the half-open interval from p to the next release of p's length |
| Versions.CompatibleIsAnInterval | lambdas/prepare_cdc_wheels.py:108-112 | `~= t` is `>= t` and below the next release of t without its last part |
| NullRules.ParseNullRules | scripts/glue_cdc_composite.py:854-901 | The text's entries between semicolons: blank ones are skipped, each other one says three trimmed, lower-cased names and `none` or a list of markers without an empty one; the result is these rules in order, no column twice, or what is wrong with the first entry that is not in order |
| NullRules.ValuesAre | scripts/glue_cdc_composite.py:835-851 | `null_values` is read as its parts between bars if and only if it is set and no part is empty |
| NullRules.PrintedRulesParse | scripts/glue_cdc_composite.py:1011-1016 | The printed form of any non-empty parsed rule map parses back to the same map |
| NullRules.EntriesAgree | lambdas/resolve_task.py:1015-1044 | Preflight's reading of one entry and the job's give the same column or the same error |
| NullRules.CheckEntries | lambdas/resolve_task.py:1013-1044 | Preflight's loop over the entries: the columns it saw, or the first error, repeated columns included |
| NullRules.ScansAgree | lambdas/resolve_task.py:1013-1044 | Preflight's scan and the job's parse of the same entries give the same columns or the same first error |
| NullRules.ValidateNullSettings | lambdas/resolve_task.py:983-1044 | Both settings are trimmed and judged by preflight's own rules, the values first |
| NullRules.AcceptedByPreflight | lambdas/resolve_task.py:983-1044 | Preflight accepts the two settings if and only if the job's parsers do, with the same set of columns; only the unset marker as a rules text is refused |
| NullRules.SentinelFails | scripts/glue_cdc_composite.py:864-866 | The unset marker, unset for the job, fails preflight as a rules text and passes as values |
| Keyless.CollapseNonPk | scripts/glue_cdc_composite.py:4161-4218 | Each row that is no update becomes, in file order and without folding, a delete if its letter is D and an insert otherwise; the updates are set aside in order; the counters account for every row |
| Keyless.NextCut | scripts/glue_cdc_composite.py:4412-4422 | The inner packing loop takes the longest chunk of at most 2,997 statements within the byte budget, at least one |
| Keyless.PackChunks | scripts/glue_cdc_composite.py:4409-4425 | The chunks cut the file's statements without gap or overlap, each as long as the limits allow; a file with only skipped updates has one empty chunk |
| Keyless.StepKeeps | scripts/glue_cdc_composite.py:4425-4476 | After every step of any run the table is the base without the file's own rows and some of its deletes, plus the inserts the checkpoint counts |
| Keyless.CheckpointMovesByChunks | scripts/glue_cdc_composite.py:4425-4476 | A run's attempt at a chunk moves the checkpoint only from where the run left it to the end of that chunk; where the chunk is committed already it goes on without touching the table, and where the checkpoint is elsewhere or the table is blocked it stops |
| Keyless.LostAckIsMadeGood | scripts/glue_cdc_composite.py:4432-4440 | A chunk tried again after a lost acknowledgement leaves everything as if it had been acknowledged at once, whether it is recognised as committed or, after a restart, run a second time |
| Keyless.KeylessReloadConverges | scripts/glue_cdc_composite.py:4302-4476 | After any number of runs, each a whole-file restart, with crashes and lost acknowledgements, a completed file leaves exactly one uninterrupted purge, deletes and inserts; rows of other files that match no delete are untouched at every moment |
| Keyless.KeylessCanAlwaysFinish | scripts/glue_cdc_composite.py:4425-4476 | From every reachable state, once the table is unblocked, one more run of any one process completes the file |
| Keyless.ReloadIsFileOrderExactlyWithoutLateDeletes | scripts/glue_cdc_composite.py:4321-4337 | As multisets of rows, deletes before inserts equals the file's own order if and only if no delete follows an insert of the same content |
| SchemaChange.ReconciliationIs | scripts/glue_cdc_composite.py:3035-3091 | Whatever statements fail: each old column keeps its place, under its new name exactly if its rename neither fails nor loses that name to an earlier one, and the names that do not fail to be added come behind |
| SchemaChange.ReconciliationLands | scripts/glue_cdc_composite.py:3035-3091 | In terms of header and rules alone: a missing column whose hint names a new column stands in its place under the hinted name, one without a usable hint under the header's name at its position if positional renames are on and that name is new, unless an alphabetically earlier missing column takes the name or the statement fails; every other column keeps its name; behind them come, in alphabetical order, exactly the new names nobody wants and whose ADD does not fail |
| SchemaChange.NamesLeftOut | scripts/glue_cdc_composite.py:3051-3082 | Exactly which names of the header are no column afterwards: those whose ADD fails and those every RENAME to which fails |
| SchemaChange.ColumnsLeftBehind | scripts/glue_cdc_composite.py:3635-3652 | Exactly which columns the file is then refused for: those whose rename fails, loses its name, or was not inferred |
| SchemaChange.FailedRenameStopsFailedAddDoesNot | scripts/glue_cdc_composite.py:3061-3082 | A failed RENAME of a column that is no key always stops the file, a failed ADD never does and leaves its column out |
| SchemaChange.ReconciliationLosesNothing | scripts/glue_cdc_composite.py:3035-3091 | Without failures, for every header and every rules, each old column keeps its place under its own or its new name, and every name of the header is a column |
| SchemaChange.Target.RenameColumns | scripts/glue_cdc_composite.py:3051-3062 | The renames in order, failed ones skipped, touch names only, no row |
| SchemaChange.Target.AddColumns | scripts/glue_cdc_composite.py:3063-3082 | The adds in order, failed ones skipped, append NULL cells and change no existing cell |
| SchemaChange.Target.HandleSchemaChanges | scripts/glue_cdc_composite.py:2984-3099 | The columns end up where the header, the hints and the positional setting say, or stay when the header is the cached one; no cell is lost; the cache holds the pair |
| SchemaChange.RenamesAndAddsAreInferred | scripts/glue_cdc_composite.py:3035-3067 | For a header that renames columns in place to fresh names and appends fresh ones, the inferred DDL is exactly those renames and adds |
| SchemaChange.TargetFollowsTheHeader | scripts/glue_cdc_composite.py:3051-3091 | The target then has exactly the header's columns, the old ones in place, the new ones in alphabetical order |
| SchemaChange.NoColumnIsMissingAfterwards | scripts/glue_cdc_composite.py:3635-3652 | So `apply_file` finds no missing column, and each old cell stands under its column's new name |
| SchemaChange.PositionsAgreeExactlyWhenSorted | scripts/glue_cdc_composite.py:3067 | The target's column order equals the header's exactly when the appended names come in alphabetical order |
| LaterRenames.LaterRenamesAreInferredExactly | scripts/glue_cdc_composite.py:3035-3050 | With the last header's columns in any order in the target: a later file's renames in place are inferred if and only if every renamed column has the same position in both |
| LaterRenames.EveryLaterRenameIsInferredExactlyWhenSorted | scripts/glue_cdc_composite.py:3041-3067 | Every later rename in place is inferred if and only if the columns an earlier file appended came in alphabetical order |
| LaterRenames.WhereLaterRenamesLand | scripts/glue_cdc_composite.py:3041-3062 | Otherwise: the column at a target position gets the new name the file has there, and a renamed column over an old name is left behind and stops the file |
| LaterRenames.AppliedUnderTheRightNamesExactly | scripts/glue_cdc_composite.py:3041-3062 | When such a file is applied, a renamed column's old cells stand under the name the source gave it if and only if its two positions agree |
| LaterRenames.LaterRenameIsMissed | scripts/glue_cdc_composite.py:3041-3067 | With `z`, `y` appended in that order, a later rename of `z` is not seen and the file is refused |
| LaterRenames.LaterRenamesCanBeSwapped | scripts/glue_cdc_composite.py:3041-3067 | With both renamed at once nothing is missing and the file is applied, the cells of `y` under the new name of `z` and the other way round |
| TableMappings.SelectionIncludes | lambdas/resolve_task.py:1571-1597 | The pass over the rules answers whether the last rule that picks the table is an include |
| TableMappings.LastMatchWins | lambdas/resolve_task.py:1574-1578 | A table is selected exactly when some include rule matches it and no later rule does |
| TableMappings.TransformNames | lambdas/resolve_task.py:1636-1662 | An error if and only if some rule on schema or table names cannot be reproduced; otherwise the names that result from each rule in its turn, each action said in raw terms |
| TableMappings.SchemaIgnoresTheTable | lambdas/resolve_task.py:1641-1662 | The folder schema, and whether the rules are accepted at all, do not depend on the table name |
| TableMappings.EstimateSchemas | lambdas/resolve_task.py:1689-1720 | The estimate is exactly the lower-cased folder schemas of the include rules that spell theirs out, and is open exactly when an include rule does not or a folder cannot be worked out |
| TableMappings.Scan | lambdas/resolve_task.py:1773-1816 | The list holds exactly the folders of the completed selected tables, each once |
| TableMappings.BuildTableList | lambdas/resolve_task.py:1765-1849 | Said of the rules and the statistics: refused exactly when a wanted, completed table's folder cannot be worked out, otherwise not loaded exactly when a wanted table is not completed or has an empty folder name, otherwise no tables exactly when none is wanted; else the list is exactly the folders of the wanted tables, once each, and their lower-cased schemas, refused exactly above nine |
| TableMappings.EstimateCoversTheBuild | lambdas/resolve_task.py:1689-1720 | With no unknown schema, the schemas of a build are among the estimated ones, so passing the cap before the start means passing it later |
| SchemaEstimate.EstimateIsReachedExactly | lambdas/preflight_tasks.py:500-503 | With no unknown schema, some build has at least as many schemas as the estimate counts, and then exactly those, if and only if each of them is the folder schema of a table whose last matching rule is an include |
| SchemaEstimate.AttainableThroughARule | lambdas/preflight_tasks.py:500-503 | With no unknown schema, a build can load a schema if and only if an include rule that spells it out is the last match of some table of it |
| SchemaEstimate.EstimateIsReachedByTheRules | lambdas/preflight_tasks.py:500-503 | When each rule fits every table of its schemas or exactly one, and none renames tables, this is read off the rules: a build can reach the whole estimate if and only if each estimated schema has an include rule that no later rule shadows |
| SchemaEstimate.EstimateCanCountTooMuch | lambdas/preflight_tasks.py:500-508 | Ten schemas included and the last one excluded again: the estimate is ten, over the cap, while a build of the other nine passes |

## Left out

- EngineCanAlwaysFinish: says that a continuation exists, not that a scheduler takes it.
- SameCutsAreExact: a run that lowered its row budget after a timeout or a slow chunk cuts otherwise; it counts as one of different settings.
- AttemptIsSteps: relates the chunk loop and the step system attempt by attempt, not as one history of the whole loop.
- EstimateIsReachedByTheRules: leaves table patterns with a wildcard inside a name, and rules that rename tables, to `EstimateIsReachedExactly`.
- Split: models a task with no prior registry and an index without repeated names; the frozen owners of a re-plan are left out, and so are the manifests already written when a job name turns out too long.
- RunChunk: models the keyed retry loop; the same loop of the keyless path appears as the steps of `Keyless`.
- KeylessReloadConverges: makes no claim on the 3,000-row limit, because the final chunk also writes one log row for each skipped update (4455-4458).
- RenamesAndAddsAreInferred: covers a header without rename hints; hints are in `ReconciliationLands`.
- CaughtUpMeansEverythingApplied: takes a folder whose files all bear DMS names; the retry under another letter case of the folder is left out.
- BuildTableList: leaves out the row counts, the warnings and the written manifest.
- Satisfies: starts from clauses already read into operator and release; the regular expressions that read them are left out, and so is the substitution of marker variables by truth values before `Evaluate`.
- Per-row shape guards, the mass-delete and purge guards, watermark monotonicity and the file-order guard: one-branch checks that only block.
- Sampled validation, processed copies, manifests, metrics and audit rows: best effort, they never change applied data.
- `null_notnull_text`: one flat check beside the two settings that are modelled.
- Whether the drift check is due: wall-clock throttling; `Drift` is about what it measures.
- Timings, back-off and the proportional targets: arbitrary integers here, since only the clamping matters.
- S3, Glue, DMS, Step Functions and DSQL clients, tokens and endpoint failover: reduced to commit succeeds, aborts or loses its acknowledgement, and conditional put passes or fails.
- Value conversion, type inference, the CSV reader, hashes and slugs: parameters.
- The load arguments and manifests' file names of `plan_split.py`: wiring.
- The manual-range overlap ledger, settings tables, the engine-switch and fingerprint tools: outside the change-data path.
