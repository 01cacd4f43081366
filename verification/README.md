# Verified model of the HIGGS streaming and batch platform

The platform moves simulated HIGGS events from Kafka through landing, curated and feature-store tables to
training records and a model registry. This project models the state machines on that path and proves what
they promise over whole runs, under crashes, retries, rebalances and overlapping writers:
`dafny verify dfyconfig.toml` checks it.

| module | what it models |
|---|---|
| `Tables`, `Upserts` | INSERT ... ON CONFLICT DO NOTHING and the chunked upsert loop every sink uses |
| `IngestProtocol`, `IngestSafety` | the stream ingestor as a protocol: any number of consumers, partitioned logs, a landing database, an arbitrary fault schedule |
| `StreamIngestor` | the consumer process itself: poll loop, batch loop, retry loop, commits, probes; each loop turn is shown to be a run of the protocol |
| `Validation`, `Curation`, `CurationTask` | watermark-gated incremental curation by overlapping, repeated and abandoned DAG runs |
| `TrainingRecords` | the incremental join into training records |
| `Windows`, `Materialization`, `FeatureStoreUpdate`, `Backfill` | chunked, resumable materialization into the online store |
| `DelayQueue`, `BinaryHeap`, `Dispatcher` | the delayed dispatcher: lock, condition variable, heap |
| `Modes` | the Compose/kind mode switcher and the KFP scripts, aborting after any command |
| `Promotion` | promotion criteria, champion alias and audit log |
| `EntityIds` | zero-padded ids, their text order, and the restart index |
| `DeliveryHealth` | the delivery-report state of the two producers |

How the parts fit: protocols are step machines (`Enabled`, `Apply`, `Run` over a schedule in which
whatever is not enabled does not happen), with an inductive invariant and main results about every reachable
state. Code that updates objects is a class whose methods are proved to be steps of its protocol, or to leave
what a specification function says; the laws are then proved of that function.

Queries that may not answer, database outcomes, broker replies and hand-overs to the dead-letter producer come from
arbitrary scripts. History variables (`handled`, `sealed`, `late`, `advances`, `pushed`, `started`, `due`, `history`) are read by
no action.

Where the model makes an assumption explicit:

* Kafka: positions restart at the committed offsets on assignment; a client delivers the message at its
  position (`Honest`). A rejected commit may have been kept for any subset of its partitions.
* Postgres: a transaction is atomic; its commit may take effect and still be reported as failed, or take effect
  only later, after a retry or a crash. It refuses a transaction with a row that does not fit its columns (`fits`).
  `ON CONFLICT DO NOTHING` keeps the first row of a key.
* Producers key messages by entity, so one event id goes to one partition (`route`). `UnkeyedRunsDisagree` shows
  that this is needed.
* Curation: completeness is about rows that did not become visible at or below an upper bound extracted before
  (`late` collects the others; `ingested_at` is the start time of the inserting transaction). `LateRowTrace` and
  `LateRowIsLost` show that this is needed.
* Backfill: only this script records intervals in the registry, and rows do not arrive at or below the resume
  point. The script's own text counts the Airflow pipeline among the users of that registry; an interval recorded by
  anyone hides every row below its end in the same way. `LateArrivalIsNeverRead` holds for any recorded
  interval, so it shows that both are needed.
* Online store: rows of one entity that share a timestamp are told apart by a `rank`.

What the code does that its documentation does not say; the model follows the code:

* `materialize.py` plans no window when its start equals its goal. On a first invocation the rows at the oldest
  timestamp are then not materialized although it reports completion: exactly if the goal is that timestamp
  (`FirstInvocationMissesOnlyOldestStamp`, `OneStampIsNeverMaterialized`).
* `promote` reads any exception of the registry client as "no champion yet". A failed metrics lookup skips the regression check
  (`FailedFetchSkipsRegressionCheck`); a failed alias lookup writes an audit row that denies the champion, which
  breaks the audit chain (`ChainBreaksExactlyWhen`, `ChainBreaks`).
* The restart index parses the greatest id *as text*. It is fresh exactly if text order agrees with number order
  on the landed table (`RestartFreshExactlyWhen`), which holds below 10^9 ids and first fails at
  {999999999, 1000000000}. `k8s_up.sh` reads a failed query as an empty table (`FailedQueryFreshExactlyWhen`); in
  `mode.sh compose` it leaves the index unset, and the Compose file falls back to 0
  (`ComposeFailedQueryFreshExactlyWhen`).
* `GREATEST` buys a watermark that never regresses, not data safety: completeness is proved under either policy.
* `mode.sh` goes on when a query of Docker or Compose fails: no answer reads as nothing running, no node, no
  cluster, no services. A switch to KFP mode may then raise the cap beside the full stack (`BlindKfpSwitch`), a
  switch to Compose mode may start the moved services beside a running node (`BlindComposeSwitch`), and a switch to
  k8s mode may start everything (`StartAllowedSafeExactlyWhen`). Each transition carries its exact condition. An
  unreachable Kubernetes API, in contrast, ends the script.
* `k8s_up.sh` ignores a failed stop of the moved services before it creates a cluster (`CreationSafeExactlyWhen`).
  `mode.sh` trims them before it hands over.
* `mode.sh k8s` looks for KEDA only in a node it sees running (`Host.ToK8s`).
* Two kinds of messages stop every consumer that reads them, and nothing is ever committed past one: values on which
  the parser raises what validation does not catch (bytes that are no text, integers of too many digits, arrays
  nested too deeply), and events that validation accepts although the landing columns refuse them (the schemas put no
  bound on string lengths, the columns do). The logs can be drained exactly if they hold neither
  (`CanDrainExactlyWhen`, `OneWideIdBlocks`).
* The dispatcher wakes late by the time it loses between reading the clock and starting to wait
  (`NoDeadlineIsSleptPast`, `SleptPastTrace`).
* A delivery error is said to clear with a later success; a success stamped with the same clock value as the
  error does not clear it (`SuccessClearsExactlyWhen`).
* A callback that raises ends the dispatcher thread (`Raise`); the simulator's own callbacks catch.

## Model

| member | source | states |
|---|---|---|
| `Tables.InsertAllMeaning` | services/stream_ingestor/src/stream_ingestor/consumer.py:301-306 | The meaning of one conflict-ignoring statement, duplicates inside it included: old rows stay, exactly the new keys appear, each with the row of its first occurrence |
| `Tables.InsertAllAbsorbed` | services/stream_ingestor/src/stream_ingestor/consumer.py:291-316 | Repeating a statement whose keys are all there changes nothing |
| `Tables.InsertAllUnordered` | infra/airflow/dags/higgs_pipeline_tasks.py:133-149 | With distinct keys the table does not depend on row order, so sorting before the upsert is harmless |
| `Upserts.ChunkedPartitions` | infra/airflow/dags/higgs_pipeline_tasks.py:52-53 | Concatenating the chunks gives back the rows; no chunk is empty or too long and all but the last are full |
| `Upserts.ChunksRespectParameterCap` | infra/airflow/dags/higgs_pipeline_tasks.py:42-49 | For any backlog no chunk binds more than 65535 parameters |
| `Upserts.InsertedIsGrowth` | infra/airflow/dags/higgs_pipeline_tasks.py:171-180 | The count that RETURNING yields, the number of distinct new keys, is the growth of the table |
| `Upserts.Sink.UpsertChunked` | infra/airflow/dags/higgs_pipeline_tasks.py:171-180 | The chunk loop leaves the table and the total that one unbounded statement would, duplicates inside and across chunks included, and no chunk is refused |
| `IngestProtocol.DedupKeys` | services/stream_ingestor/src/stream_ingestor/consumer.py:180-216 | The reference table of a log prefix holds exactly the keys of its valid messages |
| `IngestProtocol.DedupRow` | services/stream_ingestor/src/stream_ingestor/consumer.py:210-216 | Each key carries the row of its first valid occurrence, Kafka partition and offset included |
| `IngestSafety.ValidateInFull` | services/stream_ingestor/src/stream_ingestor/consumer.py:244-258 | Each kind of message gets its own answer, and a document is read by the schema of its topic: features by the feature schema, labels by the label schema |
| `IngestSafety.AbsorbBatch` | services/stream_ingestor/src/stream_ingestor/consumer.py:291-316 | Writing a prefix-closed batch in one transaction takes the landing table from the dedup at some heights to the dedup at the raised heights, however much of the batch is redelivered |
| `IngestSafety.NextOffsetsMeaning` | services/stream_ingestor/src/stream_ingestor/consumer.py:193-194 | The committed offsets lie above every batched offset of their partition and directly above one of them |
| `IngestSafety.ConsumerOkIsStable` | services/stream_ingestor/src/stream_ingestor/consumer.py:180-242 | What one consumer relies on about its batch and positions survives whatever other consumers, producers and databases do |
| `IngestSafety.PollKeepsClosed` | services/stream_ingestor/src/stream_ingestor/consumer.py:152-167 | Polling keeps a batch prefix-closed even when a rebalance inside the batch rewound the position |
| `IngestSafety.DropHandledBatch` | services/stream_ingestor/src/stream_ingestor/consumer.py:226-242 | After the transaction a batch may be dropped whether or not the offset commit is accepted |
| `IngestSafety.WriteKeeps` | services/stream_ingestor/src/stream_ingestor/consumer.py:260-316 | A transaction that takes effect, reported or not, keeps the invariant and leaves its whole batch handled |
| `IngestSafety.LandKeeps` | services/stream_ingestor/src/stream_ingestor/consumer.py:266-289 | A commit that takes effect only later, after its consumer has retried, gone on, crashed or been replaced, keeps the invariant |
| `IngestSafety.LandWrites` | services/stream_ingestor/src/stream_ingestor/consumer.py:291-316 | When a commit under way takes effect, the whole batch is in the tables |
| `IngestSafety.CommitKeeps` | services/stream_ingestor/src/stream_ingestor/consumer.py:220-240 | Committing any part of the next offsets keeps committed offsets at or below what is handled, also when a committed offset regresses |
| `IngestSafety.StepKeeps` | services/stream_ingestor/src/stream_ingestor/consumer.py:133-316 | Every step of a consumer (crash, also in the middle of sorting a batch or with a commit under way, assign, revoke, poll, write, ambiguous or open write, commit, rejected commit) keeps the invariant |
| `IngestSafety.RunKeeps` | services/stream_ingestor/src/stream_ingestor/consumer.py:133-316 | The invariant holds over every schedule, for any number of consumers |
| `IngestSafety.RunGrows` | services/stream_ingestor/src/stream_ingestor/consumer.py:291-316 | Nothing landed is ever changed or lost, and nothing handled is ever forgotten, by any continuation of any run |
| `IngestSafety.LandingIsDedupOfPrefix` | services/stream_ingestor/src/stream_ingestor/consumer.py:180-242 | In every reachable state some height per partition, at or above the committed offset, explains the landing table as the first-valid-occurrence dedup of the logs cut there |
| `IngestSafety.CommittedMeansHandled` | services/stream_ingestor/src/stream_ingestor/consumer.py:186-224 | Below a committed offset every valid message fits its columns and is in its landing table, every refused one was handed to the dead-letter producer, and none makes validation raise |
| `IngestSafety.BatchIsPrefixClosed` | services/stream_ingestor/src/stream_ingestor/consumer.py:152-167 | In every reachable state, below each batched message lie only messages already persisted, dead-lettered, or earlier in the same batch |
| `IngestSafety.BatchesAreBounded` | services/stream_ingestor/src/stream_ingestor/consumer.py:152-155 | In every reachable state no batch exceeds the configured size |
| `IngestSafety.RevokedIsNotPolled` | services/stream_ingestor/src/stream_ingestor/consumer.py:86-91 | After a revoke nothing of the partition is read until it is assigned again |
| `IngestSafety.RunsAgreeOnCommonRows` | services/stream_ingestor/src/stream_ingestor/consumer.py:301-306 | Two runs over the same traffic never hold different rows under one key, even while one is ahead |
| `IngestSafety.DrainedRunsAgree` | services/stream_ingestor/src/stream_ingestor/consumer.py:180-242 | Once drained, the tables are a function of the logs alone: not of faults, consumers, batch size or retry limit |
| `IngestSafety.DocumentsReachTheirTable` | services/stream_ingestor/src/stream_ingestor/consumer.py:196-216 | Once drained, a document its topic's own schema reads has its id in that topic's table; one that only the other schema reads, no value, and what is no JSON are dead-lettered and have no row |
| `IngestSafety.RowsComeFromTheirDocument` | services/stream_ingestor/src/stream_ingestor/consumer.py:210-216 | In every reachable state a landing row holds what its own table's schema made of the message at its partition and offset |
| `IngestSafety.EveryStateCanDrain` | services/stream_ingestor/src/stream_ingestor/consumer.py:226-230 | From every reachable state whose logs hold no message that blocks, a restart can drain the whole log, so no fault loses a message |
| `IngestSafety.NothingCommitsPastBlocking` | services/stream_ingestor/src/stream_ingestor/consumer.py:244-289 | With a message that blocks, because validation raises on it or accepts what the database refuses, no schedule commits past it and the logs are not drained |
| `IngestSafety.BlocksExactlyWhen` | services/stream_ingestor/src/stream_ingestor/consumer.py:244-258 | A message blocks if and only if the parser raises on it, or its topic's own schema reads it as an event that does not fit |
| `IngestSafety.CanDrainExactlyWhen` | services/stream_ingestor/src/stream_ingestor/consumer.py:244-289 | A reachable state can be drained if and only if every message in its logs parses and every accepted event fits its columns |
| `IngestSafety.OneWideIdBlocks` | libs/amel_common/src/amel_common/schemas/events.py:59-70 | A feature event whose id is one character wider than its column is accepted, and whatever happens afterwards the logs are not drained |
| `IngestSafety.UnkeyedRunsDisagree` | services/source_simulator/src/source_simulator/simulator.py:277-303 | Without keying by entity, two fault-free orders leave different tables |
| `StreamIngestor.SplitWriteIsBatchWrite` | services/stream_ingestor/src/stream_ingestor/consumer.py:294-306 | Splitting a batch into two row lists and writing one table after the other has the effect of inserting the batch in order |
| `StreamIngestor.RowsFitExactly` | libs/amel_db/src/amel_db/models.py:38-63 | The rows of both tables fit their columns if and only if every accepted event of the batch does |
| `StreamIngestor.NormalReturnMeansWritten` | services/stream_ingestor/src/stream_ingestor/consumer.py:266-271 | A normal return of the retry loop implies that the whole batch is in the tables, for every fault script |
| `StreamIngestor.BackoffClosedForm` | services/stream_ingestor/src/stream_ingestor/consumer.py:282-289 | The total sleep after k retries is base * (2^k - 1) |
| `StreamIngestor.BackoffIsBounded` | services/stream_ingestor/src/stream_ingestor/consumer.py:275-289 | No fault script sleeps longer than the one that uses every retry |
| `StreamIngestor.DefaultsLeaveRoomBeforeStall` | services/stream_ingestor/src/stream_ingestor/config.py:22-31 | At the defaults the backoff budget is 15.5 s, and with the batch timeout it stays below the stall timeout |
| `StreamIngestor.Ingestor.PollBatch` | services/stream_ingestor/src/stream_ingestor/consumer.py:152-167 | The poll loop goes on until the batch is full, time is up or a stop is asked for, and no longer; the batch is every message delivered until then, in order, never more than batch_size; the latest rebalance callback decides whether an assignment is held |
| `StreamIngestor.PollingIsReading` | services/stream_ingestor/src/stream_ingestor/consumer.py:152-167 | What the loop collects is what the protocol says the consumer has read, through any assign and revoke callbacks on the way |
| `StreamIngestor.Ingestor.WriteWithRetry` | services/stream_ingestor/src/stream_ingestor/consumer.py:260-289 | For every fault script: at most max_retries + 1 attempts, an exception only after all of them failed, exact backoff, and the tables hold the rows once if any attempt took effect; with a row that does not fit every attempt fails |
| `StreamIngestor.Ingestor.CommitOffsets` | services/stream_ingestor/src/stream_ingestor/consumer.py:220-242 | A rejected commit is counted and remembered until one is accepted, and does not raise |
| `StreamIngestor.LargestOffsetsAreCommitted` | services/stream_ingestor/src/stream_ingestor/consumer.py:193-223 | The dictionary of largest offsets, plus one, is what the protocol commits |
| `StreamIngestor.DeadLettersAreRefused` | services/stream_ingestor/src/stream_ingestor/consumer.py:196-208 | Exactly the refused messages of a batch go to the dead-letter producer |
| `StreamIngestor.Ingestor.Classify` | services/stream_ingestor/src/stream_ingestor/consumer.py:186-216 | A batch is sorted into the rows of its two tables, its dead letters and its largest offsets, or stops at the first message that cannot be parsed or handed over, with the letters before it out |
| `StreamIngestor.Ingestor.ProcessBatch` | services/stream_ingestor/src/stream_ingestor/consumer.py:180-242 | A batch, under every script of database, broker and dead-letter faults, is a run of the protocol by this consumer; an exception leaves the broker unchanged, and the database too if it came while sorting; a normal return leaves the consumer ready, with the commit error state of the last commit; a batch with a row that does not fit always raises |
| `StreamIngestor.Ingestor.LoopTurn` | services/stream_ingestor/src/stream_ingestor/consumer.py:133-150 | One turn of the loop, polling included, is a run of the protocol and ends where the next may begin, or with the error recorded, the consumer stopped and no offset committed |
| `StreamIngestor.Ingestor.Readiness` | services/stream_ingestor/src/stream_ingestor/consumer.py:95-115 | Ready exactly if the loop is alive and progressing, the last callback was an assignment, and the last commit was accepted |
| `Validation.ReportAddsUp` | libs/amel_lake/src/amel_lake/validation.py:105-134 | Every row is either kept or counted as invalid, and the kept rows have distinct ids |
| `Validation.PrimaryKeyMakesDuplicateCheckVacuous` | libs/amel_lake/src/amel_lake/validation.py:115-121 | On rows with distinct ids exactly those that pass their own checks are kept |
| `Validation.ValidExactlyWhen` | libs/amel_lake/src/amel_lake/validation.py:115-121 | In general exactly the rows are kept whose own checks pass and whose id no other row carries |
| `Validation.FractionWithinExactlyWhen` | libs/amel_lake/src/amel_lake/validation.py:91-93 | With distinct ids the reported fraction is within a bound if and only if the failing rows are at most that share of the rows |
| `Curation.ExtractCovers` | infra/airflow/dags/higgs_pipeline_tasks.py:81-122 | An extracted window, with what was curated by the watermark it started from, covers everything wanted up to its upper bound |
| `Curation.CurateKeepsLane` | infra/airflow/dags/higgs_pipeline_tasks.py:210-226 | Upserting and advancing in one transaction keeps every row at or below the watermark curated, also when the run is stale or repeated |
| `Curation.JobOkIsStable` | infra/airflow/dags/higgs_pipeline_tasks.py:73-122 | What a run in flight has extracted stays sufficient whatever overlapping runs and arrivals do |
| `Curation.RunKeeps` | infra/airflow/dags/higgs_pipeline.py:121-260 | The invariant holds over every interleaving of arbitrarily many runs, retries included, under either advance policy |
| `Curation.GateExactly` | infra/airflow/dags/higgs_pipeline.py:195-204 | The gate passes if and only if in each stream the rows that fail their checks are at most the tolerated share |
| `Curation.ValidatedExactlyWhen` | infra/airflow/dags/higgs_pipeline.py:168-211 | In every reachable state a run that has extracted can be validated if and only if both windows are that good |
| `Curation.NewRunCanExtract` | infra/airflow/dags/higgs_pipeline_tasks.py:73-122 | From every reachable state a new run can read its watermarks and extract both windows |
| `Curation.AcceptableRunCanCommit` | infra/airflow/dags/higgs_pipeline.py:121-260 | From every reachable state a run whose windows are good enough can be carried to its commit, which curates exactly the passing rows under its name and records its bound |
| `Curation.RunsStayInTheirWindow` | infra/airflow/dags/higgs_pipeline_tasks.py:81-122 | A run never holds a row outside its own window: above the watermark it read, at or below its bound |
| `Curation.AtWatermarkNothingIsMissing` | infra/airflow/dags/higgs_pipeline_tasks.py:210-226 | In every reachable state a valid landing row at or below the watermark that was not late is curated with its own body, even if the watermark were overwritten |
| `Curation.CuratedRowsAreLandingRows` | infra/airflow/dags/higgs_pipeline_tasks.py:152-207 | Nothing is invented: every curated row is a landing row that passes its checks |
| `Curation.CuratedIsFullRecompute` | infra/airflow/dags/higgs_pipeline_tasks.py:73-122 | With no late visibility, a landing row at or below the watermark is curated if and only if it passes its checks |
| `Curation.WatermarkIsMaximumOfCommits` | libs/amel_lake/src/amel_lake/watermark.py:55-70 | The watermark is the maximum of all committed upper bounds in whatever order they commit; with overwriting it would be the last one; both pipelines stay equal |
| `Curation.WatermarkNeverRegresses` | libs/amel_lake/src/amel_lake/watermark.py:12-23 | No continuation of any run moves a watermark back |
| `Curation.OverwriteRegresses` | libs/amel_lake/src/amel_lake/watermark.py:12-23 | Two overlapping runs committing out of order would move an overwritten watermark back, and do not move this one |
| `Curation.LateRowIsLost` | infra/airflow/dags/higgs_pipeline_tasks.py:81-122 | A row below the watermark that no live run has extracted is never curated by any later run |
| `Curation.LateRowTrace` | libs/amel_db/src/amel_db/models.py:47-49 | Such a row arises from one run: it becomes visible between extraction and commit with an older ingestion time |
| `CurationTask.Watermarks.AdvanceTo` | libs/amel_lake/src/amel_lake/watermark.py:55-70 | The stored row becomes the greater of old and new value, or the new value if there was none; other pipelines keep theirs |
| `CurationTask.Warehouse.DetermineHighWatermark` | infra/airflow/dags/higgs_pipeline_tasks.py:73-78 | A run starts from the watermarks the protocol reads, the epoch where none was stored |
| `CurationTask.SortingIsIrrelevant` | infra/airflow/dags/higgs_pipeline_tasks.py:133-149 | Curating the sorted silver rows gives the same table as curating the validated rows |
| `CurationTask.Warehouse.UpdateCuratedTablesAndAdvanceWatermarks` | infra/airflow/dags/higgs_pipeline_tasks.py:210-226 | Both chunked upserts and both advances together are the commit step of the curation protocol, and report the growth of the two tables; an exception in any of the four calls leaves tables and watermarks as they were |
| `TrainingRecords.RecordsBetweenSnapshotAndJoin` | infra/airflow/dags/higgs_pipeline_tasks.py:229-276 | In every reachable state records never leave the full join, each is built field by field from its entity's own feature and label, and every run that upserted brought in at least the full join of its build |
| `TrainingRecords.RecordsAreTheirPairs` | infra/airflow/dags/higgs_pipeline_tasks.py:246-258 | Every record's timestamp, features and schema version are those of the curated feature it names, its target is that of the curated label it names, and both are of its entity |
| `TrainingRecords.BuildThenUpsertIsFullRecompute` | infra/airflow/dags/higgs_pipeline_tasks.py:229-276 | After any history one build and its upsert leave exactly the entities of the full join |
| `TrainingRecords.FrameExists` | infra/airflow/dags/higgs_pipeline_tasks.py:236-259 | The join query always has an answer |
| `TrainingRecords.LateLabelIsPickedUp` | infra/airflow/dags/higgs_pipeline_tasks.py:229-235 | A label that arrives after its feature brings its entity in with the next build and upsert, whichever run that is |
| `TrainingRecords.RecordIsTheOnlyPair` | infra/airflow/dags/higgs_pipeline_tasks.py:246-258 | With one feature and one label event per entity every field of the record is determined by them |
| `TrainingRecords.DeltaJoinMissesLateLabels` | infra/airflow/dags/higgs_pipeline_tasks.py:229-235 | For any sequence of extractions and any entity with a feature and a label in them: the accumulated join has it, and joining each extraction on its own misses it if and only if no single one held both, so whenever the label came in another run |
| `TrainingRecords.UpsertTrainingRecords` | infra/airflow/dags/higgs_pipeline_tasks.py:262-276 | The chunk loop is the protocol's upsert of the frame, several pairs of one entity included, and counts the new entities |
| `Windows.WindowsCoverTheRange` | ml/feature_repo/scripts/materialize.py:43-49 | For every boundary list, unsorted, duplicated or out of range, the windows cover exactly [start, end], none is empty, and an empty range yields none |
| `Windows.WindowsTile` | infra/airflow/dags/higgs_pipeline_tasks.py:303-308 | For a sorted list they tile the range |
| `Windows.TilesAreContiguous` | infra/airflow/dags/higgs_pipeline_tasks.py:303-308 | A tiling is contiguous, with disjoint interiors in order and no empty window |
| `Windows.EveryNthExactly` | ml/feature_repo/scripts/materialize.py:68-76 | The cuts are exactly the rows whose number is a multiple of chunk_rows, in order |
| `Windows.SelectedExactly` | ml/feature_repo/scripts/materialize.py:71-72 | The boundary query counts exactly the rows of the range |
| `Windows.FewRowsBetweenCuts` | ml/feature_repo/scripts/materialize.py:68-76 | Between two cuts at multiples of chunk_rows lie fewer than chunk_rows rows |
| `Windows.WindowsAreBounded` | ml/feature_repo/scripts/materialize.py:60-80 | Every window, first, last and resumed ones included, has at most chunk_rows - 1 rows strictly inside, so at most that plus the multiplicities of its two ends |
| `Windows.DistinctTimestampsBound` | ml/feature_repo/scripts/materialize.py:60-80 | With distinct timestamps no window holds more than chunk_rows + 1 rows |
| `Materialization.LatestMeaning` | ml/feature_repo/scripts/materialize.py:38-40 | One call stores, for exactly the entities with a row in the closed window, a row of theirs that none in the window is newer than |
| `Materialization.ChunkedEqualsUnbounded` | ml/feature_repo/scripts/materialize.py:38-49 | Window by window in order leaves the store of one unbounded call, for every boundary list and although boundary rows fall into two windows |
| `Materialization.RetryAfterPartialAttempt` | infra/airflow/dags/higgs_pipeline_tasks.py:369-384 | After an attempt that wrote anything within the range, a full retry leaves the store as if the attempt had never been |
| `FeatureStoreUpdate.EveryRunRowIsCovered` | infra/airflow/dags/higgs_pipeline_tasks.py:311-346 | Every row of the run lies in a window, also when all share one timestamp; no window exactly if no row |
| `FeatureStoreUpdate.RunWindowsAreBounded` | infra/airflow/dags/higgs_pipeline_tasks.py:328-346 | No window, the padded last one included, has chunk_rows rows of the run strictly inside, nor more in all than chunk_rows - 1 plus the multiplicities of its ends; with distinct timestamps at most chunk_rows + 1 |
| `FeatureStoreUpdate.RunWindowsStayInside` | infra/airflow/dags/higgs_pipeline_tasks.py:298-346 | A run's windows stay within its own timestamps, but for one microsecond past the newest |
| `FeatureStoreUpdate.UpdateFeatureStore` | infra/airflow/dags/higgs_pipeline_tasks.py:361-389 | A normal return leaves what one unbounded call would leave; an exception at any window leaves a store from which a full retry reaches exactly that |
| `Backfill.RunKeeps` | ml/feature_repo/scripts/materialize.py:87-117 | Over invocations killed after or inside any window, everything up to the resume point stays in the online store |
| `Backfill.CompletedMeansMaterialized` | ml/feature_repo/scripts/materialize.py:93-117 | After any killed invocations, one that completes with recorded windows has materialized every source row up to its goal |
| `Backfill.EverythingUpToEndIsOnline` | ml/feature_repo/scripts/materialize.py:93-117 | After any killed invocations, one begun with an end that completes with recorded windows has put every row that was there at its beginning, up to that end, online, or a newer one of its entity |
| `Backfill.PlanStaysInside` | ml/feature_repo/scripts/materialize.py:96-105 | No planned window reaches past the requested end or past the newest source row |
| `Backfill.CanComplete` | ml/feature_repo/scripts/materialize.py:108-117 | Every invocation under way can be carried through, recording its whole plan |
| `Backfill.RestartsAtLastCompletedWindow` | ml/feature_repo/scripts/materialize.py:87-105 | The next invocation starts exactly at the end of the last completed window and tiles the rest |
| `Backfill.LateArrivalIsNeverRead` | ml/feature_repo/scripts/materialize.py:87-105 | A row below any recorded interval's end, whoever recorded it, lies in no window of any later invocation |
| `Backfill.FirstInvocationMissesOnlyOldestStamp` | ml/feature_repo/scripts/materialize.py:96-105 | A first invocation that plans nothing has missed rows only if its goal is the oldest timestamp, and from an empty store exactly then |
| `Backfill.OneStampIsNeverMaterialized` | ml/feature_repo/scripts/materialize.py:96-105 | A table whose rows share one timestamp is not materialized by any invocation |
| `Backfill.Store.MaterializeChunked` | ml/feature_repo/scripts/materialize.py:108-117 | The loop records every planned window, returns their number, and leaves the store of one unbounded call over the planned range |
| `DelayQueue.RunKeeps` | services/source_simulator/src/source_simulator/delay_queue.py:27-55 | The dispatcher invariant holds over every interleaving of schedulers, dispatcher, close and clock |
| `DelayQueue.NoDeadlineIsSleptPast` | services/source_simulator/src/source_simulator/delay_queue.py:33-43 | A blocked, not yet notified dispatcher faces an empty heap or wakes at the earliest deadline plus the time it lost between reading the clock and starting to wait, so by that deadline if and only if it lost none; a stop request is never slept through |
| `DelayQueue.SleptPastTrace` | services/source_simulator/src/source_simulator/delay_queue.py:40-43 | A dispatcher held up between the two sleeps past the deadline by just that long |
| `DelayQueue.DispatchedExactlyOnce` | services/source_simulator/src/source_simulator/delay_queue.py:39-49 | Scheduled callbacks are the disjoint union of started and pending ones; none starts twice or before its deadline; at most the last started is in flight |
| `DelayQueue.StartsFollowHeapOrder` | services/source_simulator/src/source_simulator/delay_queue.py:28-44 | An earlier start has the smaller (deadline, sequence), unless the other entry was scheduled only afterwards |
| `DelayQueue.EarliestCanStart` | services/source_simulator/src/source_simulator/delay_queue.py:33-49 | No lost wake-up: from every reachable state in which the dispatcher has not stopped, time and the dispatcher alone start the earliest pending callback, at its deadline or at once if that has passed, late by no more than the time lost before the wait |
| `DelayQueue.RaiseEndsDispatch` | services/source_simulator/src/source_simulator/delay_queue.py:46-49 | A callback that raises ends the dispatcher: nothing is started after it |
| `DelayQueue.ConstantDelayIsFifo` | services/source_simulator/src/source_simulator/simulator.py:305-336 | With one scheduling thread and a constant delay, labels start in exactly the order they were scheduled |
| `BinaryHeap.HeadIsLeast` | services/source_simulator/src/source_simulator/delay_queue.py:39-39 | The first element of the heap list is the least pending entry |
| `BinaryHeap.HeapPush` | services/source_simulator/src/source_simulator/delay_queue.py:30-30 | Pushing adds exactly the entry and keeps the list a heap |
| `BinaryHeap.HeapPop` | services/source_simulator/src/source_simulator/delay_queue.py:44-44 | Popping removes exactly the least entry and keeps the list a heap |
| `Dispatcher.DelayedDispatcher.Push` | services/source_simulator/src/source_simulator/delay_queue.py:29-31 | The locked part of scheduling is the protocol's push step; the heap list keeps representing the pending set |
| `Dispatcher.DelayedDispatcher.Schedule` | services/source_simulator/src/source_simulator/delay_queue.py:27-31 | One call of schedule is a prepare and a push step, and adds exactly one entry, due after the delay, a negative one counting as none |
| `Dispatcher.DelayedDispatcher.Turn` | services/source_simulator/src/source_simulator/delay_queue.py:34-49 | One turn of the loop is the protocol's turn: it leaves, waits for a notification, sets out to wait for the remaining time, or starts the least entry once due |
| `Dispatcher.DelayedDispatcher.Close` | services/source_simulator/src/source_simulator/delay_queue.py:51-54 | Closing is the protocol's close step |
| `Modes.ModesAreExclusive` | scripts/mode.sh:83-118 | No state satisfies the checks of two modes |
| `Modes.ModesInFull` | scripts/mode.sh:6-10 | What each mode means for node, cap, KFP, KEDA and Compose services, in full |
| `Modes.ModesAreSafe` | scripts/mode.sh:83-104 | Every state that satisfies a mode's check is safe |
| `Modes.LowerCapOnlyAfterNamespaceIsGone` | scripts/kfp_down.sh:6-10 | Moving a running node off the KFP cap is safe if and only if the namespace is gone |
| `Modes.EnvelopeNeedsTrimmedCompose` | scripts/mode.sh:140-148 | Having a node running at the KFP cap is safe if and only if Compose is down to the KFP set |
| `Modes.TrimWorksExactlyWhen` | scripts/mode.sh:121-131 | A trim that reports success has trimmed if and only if one of its two looks at Compose was answered or there was nothing to trim |
| `Modes.EnvelopeSafeExactlyWhen` | scripts/mode.sh:142-148 | Trimming and then running the node at the KFP cap is safe if and only if one of the two looks was answered or Compose was down to the KFP set before |
| `Modes.BlindKfpSwitch` | scripts/mode.sh:121-148 | A running node beside kafka, and no answer from Compose: nothing is trimmed and the raised cap is unsafe |
| `Modes.BlindComposeSwitch` | scripts/mode.sh:150-155 | A running node, and no answer from docker inspect: the moved services start beside it |
| `Modes.StartAllowedSafeExactlyWhen` | scripts/mode.sh:195-197 | Starting the allowed services beside a running node is safe if and only if the query that lists them was answered; without arguments everything starts |
| `Modes.CreationSafeExactlyWhen` | scripts/k8s_up.sh:19-25 | Creating the cluster after the stop whose failure is ignored is safe if and only if none of the services that survived it is a moved one that was running |
| `Modes.Host.SetCap` | scripts/mode.sh:69-79 | While docker inspect answers, lowering the cap of a running node is refused if and only if its anonymous memory exceeds 75% of the new cap, provided the command works |
| `Modes.Host.StartNodeInKfpEnvelope` | scripts/mode.sh:142-148 | If one of the two looks at Compose is answered or there is nothing to trim, every state on the way, abort included, is safe; success leaves the node running at the KFP cap, and safe if and only if that was so |
| `Modes.Host.ToCompose` | scripts/mode.sh:150-155 | If docker inspect answers or the node is stopped, every state on the way is safe; success is safe, and Compose mode, if and only if that was so; with everything working it succeeds, Postgres first and then the whole stack |
| `Modes.Host.ToKfp` | scripts/mode.sh:157-165 | If one of the two looks at Compose is answered or there is nothing to trim, every state on the way is safe; success is safe, and KFP mode, if and only if that was so; with everything working it succeeds if and only if there is a cluster, and the KFP set runs |
| `Modes.Host.ToK8s` | scripts/mode.sh:167-199 | Success has been safe throughout if and only if: without a cluster, a look of the trim was answered or no moved service survives the ignored stop; with one that is seen, the envelope could trim if it was entered, and the list of what to start was answered. The first half holds for aborts too. With answered queries of Compose success is k8s mode if and only if there was no cluster or no KEDA in it before. With everything working it succeeds if and only if there is no cluster, or KEDA is not found, KFP is removed in time where the envelope is needed, and there is none at the k8s cap |
| `Modes.Host.NodeToK8s` | scripts/mode.sh:176-193 | An existing node ends at the k8s cap without KFP; the envelope is entered if and only if the node is stopped or neither at that cap nor in scale mode without KFP, as long as docker inspect answers; success was safe throughout if and only if the envelope was |
| `Modes.Host.Check` | scripts/mode.sh:83-104 | A passed check of a cluster mode is right about the node, cap, KFP and KEDA whatever answers, and about Compose if the query of it was answered |
| `Modes.Host.ToScale` | scripts/mode.sh:203-208 | Every state on the way is safe whatever answers; success is scale mode if and only if one of the two looks of the trim was answered or there was nothing to trim; with everything working it succeeds if and only if the host was in k8s mode |
| `Modes.Host.K8sUp` | scripts/k8s_up.sh:19-39 | Every state on the way is safe if there is a cluster or no moved service survives the ignored stop, and otherwise success has passed an unsafe one; success means a running node at the k8s cap without KFP; with everything working it succeeds if and only if there is no cluster or one whose node runs at the k8s cap without KFP |
| `Modes.Host.RemoveKfp` | scripts/kfp_down.sh:17-46 | Success means KFP is gone and the node is back at the k8s cap; while it is there the cap stays, and every state on the way is safe whatever fails; with everything working it succeeds if and only if a running node holds no KFP or its namespace vanishes before the deadline |
| `Modes.Host.Perform` | scripts/mode.sh:210-220 | Each operation means on success what it is for: the mode that was asked for, KFP installed, KFP removed |
| `Modes.Host.Operate` | scripts/mode.sh:121-208 | Over any sequence of switches, installs and removals, each ending after any single command, every state passed through is safe as long as the queries of Compose and of the node answer |
| `Promotion.EvaluatePromotion` | ml/training/src/amel_training/promote.py:48-88 | Approved if and only if, in numbers, both floors are reached and the accuracy is at least the champion's, 0 if it was never recorded, minus the tolerance; and if and only if every listed reason passed; a missing metric is the only reason given |
| `Promotion.ModelRegistry.PromoteVersion` | ml/training/src/amel_training/promote.py:101-154 | Alias flip and audit row of one call, with its refusals, failed lookups and crash |
| `Promotion.PromotesExactlyWhen` | ml/training/src/amel_training/promote.py:101-154 | One call, in numbers: a version that reaches the floors and comes within the tolerance of a readable champion, or is forced, becomes champion with an audit row that says forced exactly if it was not good enough; any other changes nothing |
| `Promotion.AuditIsAChain` | ml/training/src/amel_training/promote.py:118-153 | Without crashes and failed alias lookups, each audit row names its predecessor's version and the last row is the champion |
| `Promotion.ChainBreaksExactlyWhen` | ml/training/src/amel_training/promote.py:118-153 | From a sound chain, one call breaks it if and only if it promotes (forced, or passing the checks on what it could read) and either crashes before the audit row while another version is champion, or cannot read the alias of a champion there is |
| `Promotion.ChainBreaks` | ml/training/src/amel_training/promote.py:118-153 | After one sound promotion a second one breaks the chain in each of the two ways |
| `Promotion.UnforcedRowsAreJustified` | ml/training/src/amel_training/promote.py:126-153 | Every unforced row clears both floors and the tolerance against the champion it replaced |
| `Promotion.ErosionIsBounded` | ml/training/src/amel_training/promote.py:76-88 | k consecutive unforced promotions lower test accuracy by at most k times the tolerance |
| `Promotion.FailedFetchSkipsRegressionCheck` | ml/training/src/amel_training/promote.py:118-128 | A regressing candidate at the floors is refused if and only if the champion's lookups worked |
| `EntityIds.FormatRoundTrips` | services/source_simulator/src/source_simulator/simulator.py:248-248 | Every id parses back to its index, past nine digits too |
| `EntityIds.FormatIsInjective` | services/source_simulator/src/source_simulator/simulator.py:248-248 | Different indices never share an id |
| `EntityIds.FirstIds` | scripts/k8s_up.sh:66-68 | Index 0 is the id the scripts fall back to on an empty table, and index 1 the next |
| `EntityIds.IdsOrderExactlyWhen` | scripts/k8s_up.sh:66-67 | For all m < n: the ids compare as the indices do if and only if m does not exceed the leading digits of n at m's width |
| `EntityIds.IdsOrderBelowLimit` | scripts/mode.sh:133-138 | Below 10^9 ids compare as their indices do |
| `EntityIds.RestartFreshExactlyWhen` | scripts/mode.sh:133-138 | The computed start index makes every later id new, across dataset cycles, if and only if no landed id outranks as text that of the greatest landed index |
| `EntityIds.RestartIsFresh` | scripts/k8s_up.sh:66-68 | It does whenever all landed indices are below 10^9 |
| `EntityIds.RestartCollidesPastLimit` | scripts/mode.sh:133-138 | With 999999999 and 1000000000 landed, the start index is an index that has landed |
| `EntityIds.FailedQueryFreshExactlyWhen` | scripts/k8s_up.sh:66-68 | When the query fails, restarting at 1 is fresh if and only if no index from 1 on has landed |
| `EntityIds.ComposeFailedQueryFreshExactlyWhen` | scripts/mode.sh:133-155 | In Compose mode a failed query leaves no index and the ids restart at 0, which is fresh if and only if nothing has landed |
| `DeliveryHealth.TwoStampsSuffice` | services/source_simulator/src/source_simulator/simulator.py:165-186 | The rule on two timestamps agrees with the full report history: degraded if and only if some failure is inside the window and no success is stamped after it |
| `DeliveryHealth.SuccessClearsExactlyWhen` | services/source_simulator/src/source_simulator/simulator.py:166-168 | A success ends the degradation if and only if the clock has moved since the last failure |
| `DeliveryHealth.ProducerHealth.OnDelivery` | apps/inference_api/src/inference_api/publisher.py:49-56 | The four fields keep summarizing the report history |
| `DeliveryHealth.ProducerHealth.Degraded` | apps/inference_api/src/inference_api/publisher.py:66-73 | Degraded, with the last error as reason, exactly while some reported failure is current |

## Left out

- StreamIngestor.Ingestor.ProcessBatch: other consumers act between batches and between protocol steps in `IngestSafety`, but not inside this method's own database and broker objects; a commit that takes effect later is a step of the protocol, not of these objects.
- StreamIngestor.Ingestor.LoopTurn: messages without topic, partition or offset, which the loop skips, are not delivered.
- IngestSafety.CommittedMeansHandled: for refused messages "handled" is "handed to the dead-letter producer"; delivery there is asynchronous and not flushed before the commit, so nothing is claimed about durability.
- FeatureStoreUpdate.RunWindowsAreBounded: bounds the run's own rows; the server also loads other runs' rows in the same window, which the cut does not bound.
- Materialization.RetryAfterPartialAttempt: is about one run at a time; across concurrent runs the online store would also have to refuse older timestamps.
- Log retention and truncation, message size, consumer-group election: Kafka internals.
- Pandera's dtype and column-level failures carry no row index; row predicates are fixed in time although one of them reads the clock.
- Watermark bounds before 1970: the first advance stores its bound as it is, also one below the epoch default.
- Ids that are emitted but have not landed when the restart index is computed: only freshness against the landed table is promised.
- Text order is by code point; database collations are not part of this model.
- The simulator's burst rate, malformed-event generator, counters and dataset reader: easy, or I/O.
- NaN and rounding: metrics, clocks and sleeps are reals.
- Registry tags and candidate alias lookup in `promote`; several operators promoting at once.
- `make up`, `k8s_down.sh`, the autoscaling scripts and a direct `make k8s-up` are outside the guarded transitions.
- One-shot Compose services (migrations, bucket and topic creation) are not counted as running services.
- The HTTP services, tracing, metrics, dashboards, object-store writes of the bronze, silver and gold zones, run records and gold dataset export: plumbing.
- Training, splitting, fingerprints and pipeline components: libraries.
