# KnowledgeHub: verified model of governance and incremental derivation

This project models how KnowledgeHub keeps its durable state consistent: files, SQLite tables and Qdrant
collections that are changed in small steps by processes that may fail or die between any two of them. Every
durable write (an atomic file replacement, one database transaction, one alias update, one Qdrant call) is one step.

- **Index promotion** (`Promotion`, `PromotionRuns`): the write-ahead protocol that moves the stable alias between
  physical collections. An operation interrupted by a crash performs a prefix of its plan of writes; the proofs cover
  every run of staging, promotion, rollback, retirement and recovery, with recovery itself dying any number of times.
- **Candidate releases** (`Releases`, `ReleaseEffects`, `ValidatedService`, `ReleaseLives`): the status machine of a
  release, and the two machines together: what the alias can ever serve, and that a sound release gets there.
- **Task store and leases** (`Tasks`, `TaskEffects`, `TaskHistory`, `Leases`, `ExecutorLives`): idempotent tasks,
  numbered attempts, expiring locks, and the executors that renew them concurrently.
- **Vector store and derived index** (`PointStore`, `DerivedIndex`): delete-then-upsert per document, and the
  hash-keyed skip cache over it.
- **RAG pipeline** (`PipelineRows`, `Orchestrator`, `PipelineRuns`): document rows, the one-operation-per-document
  outbox, full, incremental, resumed, parse-only and embed runs over them, and whole histories of such runs.
- **Source of the log** (`DeltaPublisher`, `RepeatedUpserts`): the publisher that turns two snapshots into a batch, and
  what a run does with a list that names a document more than once, which the publisher never produces.
- **Delta log** (`DeltaLog`): the catalog chain and the table of consumed deltas.
- **Endpoint pool** (`EndpointPool`, `EndpointCalls`), **rate limiter** (`SlidingWindow`), **evidence budget**
  (`Evidence`), **chunker** (`CodeChunker`), **index validator** (`Validation`), **parse workers** (`ParseWorkers`,
  `Sorting`), **context budget** (`ContextBudget`).

Hashes are modelled by the values they hash, so equal digests mean equal contents. Embedding, parsing and chunking
are deterministic functions. Clocks are integers. What a remote call or a crash does is decided by an arbitrary value
(`PointStore.Fault`, `DerivedIndex.Strike`), by a number of surviving writes, or by a step of a trace. A field `calm`
says that nothing fails for the time being; contracts then promise that runs live to their ends, and say exactly which
documents fail for reasons of their own.

## Where the code does less than one might expect

Each of these is stated by a member of the model, with the exact condition where there is one.

- Recovery rebuilds the active record from the transaction alone, which carries neither the previous release manifest
  nor the previous fingerprint. It therefore overwrites even a record that had already been written in full
  (`PromotionRuns.RecoveredRecordExact`), and a later rollback serves a release without its manifest
  (`PromotionRuns.RollbackAfterRecoveryLosesManifest`). The fields the readers use are restored exactly
  (`PromotionRuns.RecoveryEquivalence`).
- The parse fingerprint is compared with the configured OCR flag, but the fallback parser and PyMuPDF record that they
  ran without OCR: with OCR on, what they parsed is parsed again by every run (`PipelineRows.SkippedNextTime`).
- Forcing an embedding run over rows that are marked ready tears one of them when it is interrupted
  (`PipelineRows.ReplacementTearsExactly`, `Orchestrator.PipelineOrchestrator.EmbedPending`).
- A run over an empty snapshot ends before it applies pending deletions; they are applied only if it had rows to prune
  (`Orchestrator.PipelineOrchestrator.Reconcile`).
- Within a delta batch an upsert of a document outweighs a later removal: the pipeline's reading of a log (`Live`)
  is the order of its events (`LiveInOrder`) exactly where no such batch decides (`Orchestrator.LiveIsInOrderExactly`,
  with the input in `Orchestrator.RemovalAfterUpsertIgnored`). Batches of the publisher are not of this kind.
- A batch is consumed even if documents in it failed; they stay behind until they are mentioned again. A document of a
  consumed batch follows the log exactly if it did not fail (`Orchestrator.PipelineOrchestrator.ConsumeBatch`), and
  where nothing else fails that is exactly if a parser reads it (`PipelineRuns.FollowLog`, with the input in
  `PipelineRuns.UnreadableIsConsumed`).
- Nothing stops a batch from upserting a document twice. Both entries are compared with the row before the batch, so
  new content followed by the old leaves the old content in the row over the parse and the points of the new, without
  an error (`RepeatedUpserts.UpsertedAndRestored`; exactly when, in `RepeatedUpserts.LastEntryWinsExactly`). Index
  agreement over whole histories is therefore proved for batches that upsert no document twice, as all batches of the
  publisher are (`DeltaPublisher.Publisher.Publish`).
- Appending to the delta catalog does not check the version it starts from; the catalog stays readable exactly if it is
  the last target version (`DeltaLog.AppendReadable`).
- The skip cache of the derived index trusts its row although a build may have died after deleting the points; this is
  safe while the inputs stay the same, not when they revert (`DerivedIndex.RevertedInput`; the exact condition is
  `DerivedIndex.CutReplacementSafeExactly`).
- Validation checks the artifacts first and takes their checksums afterwards, so what changes in between is verified
  unchecked (`ValidatedService.ReplacedWhileValidated`). A preparation that dies after creating the directory blocks
  the collection name (`ValidatedService.OrphanForGood`).
- The synchronous `embed` keeps its endpoint busy for good when the client raises anything but a service error
  (`EndpointCalls.LeaksExactly`).
- A task without lock keys is executed twice once its TTL has passed (`Leases.KeylessTaskRunsTwice`), and a missed
  renewal breaks exclusion (`Leases.LateRenewalBreaksExclusion`); `Leases.StepBreaksExactly` says that these are the
  only two ways.

## Model

| member | source | states |
|---|---|---|
| Promotion.CollectionPromotionManager.Stage | src/knowledgehub/governance/snapshots.py:251-294 | refuses in the order of the checks; otherwise only the staged record changes, and only if the process lives to write it |
| Promotion.CollectionPromotionManager.Promote | src/knowledgehub/governance/snapshots.py:307-371 | goes ahead exactly if confirmed, with nothing pending, for a staged candidate that exists with points now, whose live count it publishes; for every number of surviving writes, the state is the start state after that prefix of: prepared, alias moved, switched, record published, committed |
| Promotion.CollectionPromotionManager.Rollback | src/knowledgehub/governance/snapshots.py:373-434 | the same protocol toward the previous collection, publishing the record with its halves swapped |
| Promotion.CollectionPromotionManager.FinalizeRetiredPrevious | src/knowledgehub/governance/snapshots.py:436-485 | drops a matching staged record, then the previous half, each surviving or not |
| Promotion.CollectionPromotionManager.RecoverPending | src/knowledgehub/governance/snapshots.py:487-526 | commits or aborts by where the alias points, refusing an alias that is at neither end |
| Promotion.SwitchSurvives | src/knowledgehub/governance/snapshots.py:325-371 | the six states a switch can be cut down to |
| Promotion.StageGoesAheadExactly | src/knowledgehub/governance/snapshots.py:251-294 | staging goes ahead if and only if nothing is pending, the collection is physical and nonempty, and the release is validated, eligible, valid, green, of that collection and of the live point count; it writes just the staged record |
| Promotion.PromoteGoesAheadExactly | src/knowledgehub/governance/snapshots.py:307-320 | promotion goes ahead if and only if it is confirmed, nothing is pending, and the staged candidate exists with at least one point now |
| Promotion.PromotedState | src/knowledgehub/governance/snapshots.py:321-371 | a completed promotion serves the candidate with its live point count and artifacts, and remembers as previous what was served and the artifacts of the replaced record |
| Promotion.RollbackGoesAheadExactly | src/knowledgehub/governance/snapshots.py:373-434 | rollback goes ahead if and only if it is confirmed, nothing is pending and the previous collection exists, empty or not; a completed one exchanges the halves of the record |
| Promotion.FinalizeGoesAheadExactly | src/knowledgehub/governance/snapshots.py:436-485 | when exactly retirement goes ahead; a completed one forgets the previous half and a staged record of the retired collection, and nothing else |
| Promotion.RecoverGoesAheadExactly | src/knowledgehub/governance/snapshots.py:487-526 | recovery fails if and only if the alias is at neither end of the open switch, commits if and only if it is at the candidate, and then publishes what the transaction says |
| PromotionRuns.StepKeepsInv | src/knowledgehub/governance/snapshots.py:251-526 | every call, cut anywhere, keeps the promotion invariant |
| PromotionRuns.RunKeepsInv | src/knowledgehub/governance/snapshots.py:251-526 | so does every run |
| PromotionRuns.ReachableStates | src/knowledgehub/governance/snapshots.py:307-526 | in every state reachable from an empty store: settled, the alias is absent exactly if no record exists and otherwise names the active collection; pending, it is at the previous collection or the candidate; data directories stay paired; recovery never finds an unexpected collection |
| PromotionRuns.NamesOnlyStaged | src/knowledgehub/governance/snapshots.py:251-526 | no call brings a collection into alias, records or transaction except the fallback and what was accepted for staging |
| PromotionRuns.AliasMovesOnly | src/knowledgehub/governance/snapshots.py:307-526 | only a confirmed promotion to the staged collection, with points at that moment, or a confirmed rollback to the existing previous collection moves the alias |
| PromotionRuns.NeverPromotedEmpty | src/knowledgehub/governance/snapshots.py:317-320 | in no run, wherever its calls die, does a promotion move the alias to a collection that is empty at that moment |
| PromotionRuns.RecoveryConfluent | src/knowledgehub/governance/snapshots.py:487-526 | recovery that dies any number of times and is finished gives the result of an undisturbed recovery |
| PromotionRuns.RecoveryEquivalence | src/knowledgehub/governance/snapshots.py:307-434 | promote or rollback cut anywhere and then recovered is, on alias, collections, data directories, manifest and fingerprint, the uncrashed outcome exactly if the alias had reached the candidate, and the state before otherwise |
| PromotionRuns.RecoveredRecordExact | src/knowledgehub/governance/snapshots.py:496-510 | whenever the cut leaves the switch pending with the alias at the candidate: the recovered record is the uncrashed one if and only if the replaced release had neither manifest nor fingerprint and the point count is that of the target |
| PromotionRuns.RollbackAfterRecoveryLosesManifest | src/knowledgehub/governance/snapshots.py:496-510 | a run after which the alias serves a release without the manifest it was promoted with |
| PromotionRuns.RollbackTwice | src/knowledgehub/governance/snapshots.py:373-434 | two uncrashed rollbacks are the identity on the alias and the whole record |
| PromotionRuns.RetirementResumes | src/knowledgehub/governance/snapshots.py:436-485 | retirement cut anywhere and repeated ends where one call would, and nothing is left to roll back to |
| PromotionRuns.ReadersTornExactly | src/knowledgehub/governance/snapshots.py:15-39 | readers see alias and data directory apart exactly while a pending switch has moved the alias and not yet published the record |
| PromotionRuns.QueriesReachActive | src/knowledgehub/governance/snapshots.py:15-39 | in a reachable state with nothing pending, queries reach the active collection of the record, and before there is one the fallback |
| Releases.FingerprintInjective | src/knowledgehub/governance/releases.py:286-301 | equal artifact fingerprints mean equal artifact lists |
| Releases.CandidateReleaseManager.Prepare | src/knowledgehub/governance/releases.py:65-95 | a directory is created once and its manifest only after it; either write may be the last that survives |
| Releases.CandidateReleaseManager.RecordBuild | src/knowledgehub/governance/releases.py:97-123 | built exactly if every result succeeded without failures, only from building |
| Releases.CandidateReleaseManager.RecordFailure | src/knowledgehub/governance/releases.py:125-143 | any existing release can be failed |
| Releases.CandidateReleaseManager.Validate | src/knowledgehub/governance/releases.py:145-200 | only from built or validated; validated exactly if documents and index were valid when read, and artifacts and scope hold when the checksums are taken; the fingerprint is that of the latter; repeated documents end it without a record |
| Releases.CandidateReleaseManager.Inspect | src/knowledgehub/governance/releases.py:155-178 | the report says exactly whether the index read was consistent with the collection, and counts the documents found after the checksums |
| Releases.CandidateReleaseManager.VerifyValidated | src/knowledgehub/governance/releases.py:239-255 | hands out a release only if validated, eligible and unchanged on disk |
| Releases.NormalizedIdentity | src/knowledgehub/governance/releases.py:217-237 | counts the documents, or refuses a repeated one |
| Releases.DistinctPairwise | src/knowledgehub/governance/releases.py:217-237 | an accepted list has pairwise different documents |
| Releases.RepeatedSomewhere | src/knowledgehub/governance/releases.py:217-237 | a refused list has two equal ones |
| ReleaseEffects.PrepareWrites | src/knowledgehub/governance/releases.py:65-95 | a name is prepared if and only if it has no directory; the directory comes first, the manifest of a release under construction with its scope and eligibility after it, and no other release is touched |
| ReleaseEffects.BuildDecides | src/knowledgehub/governance/releases.py:97-123 | a build is recorded if and only if the release is under construction; it is built if every result is a success without failures, else failed, and nothing else about it changes |
| ReleaseEffects.FailureWrites | src/knowledgehub/governance/releases.py:125-143 | any release with a manifest can be marked as failed, and nothing else about it changes |
| ReleaseEffects.ValidationDecides | src/knowledgehub/governance/releases.py:145-200 | a validation gives its verdict if and only if the release is built or validated and the artifacts at its end list no document twice; the release is validated if documents and index were valid when read and those artifacts are some and meet the scope, else invalid |
| ReleaseEffects.VerificationDecides | src/knowledgehub/governance/releases.py:239-255 | a release is handed out if and only if it is validated, eligible and on disk as when its checksums were taken; what is handed out is what the manifest says |
| ValidatedService.StepKeepsInv | src/knowledgehub/governance/releases.py:145-255 | every step of releases and promotion together keeps the link between manifests, issued releases and served collections |
| ValidatedService.ValidatedOnly | src/knowledgehub/governance/snapshots.py:251-294 | in every reachable state the alias, and whatever could be rolled back to, is the fallback or a collection staged with a validated, eligible, green release whose live point count was the validated one and whose state, artifacts, sources and points were consistent when validated |
| ReleaseLives.ReachesTheAlias | src/knowledgehub/governance/releases.py:65-255 | from any state with nothing pending, a release under a new name that is eligible, built without failures and sound gets to the alias with the artifacts and points it was validated with, and what was served before becomes the previous collection |
| ReleaseLives.Promotes | src/knowledgehub/governance/snapshots.py:251-371 | with its token a release is staged and promoted if nothing is pending and the collection is as it was validated |
| ValidatedService.RejectedForGood | src/knowledgehub/governance/releases.py:145-200 | a failed or invalid release never yields a verified release again |
| ValidatedService.ValidatedMeetsScope | src/knowledgehub/governance/releases.py:65-200 | a release that is validated in some later run meets the scope it was prepared with, and is as eligible as it was prepared |
| ValidatedService.VerifiedMeansUnchanged | src/knowledgehub/governance/releases.py:239-255 | a verified release has the very artifacts a passing validation took the checksums of, and those its checks found consistent unless they were changed while it ran |
| ValidatedService.ReplacedWhileValidated | src/knowledgehub/governance/releases.py:155-200 | a run in which artifacts replaced between the checks and the checksums are verified although the checks never read them and they contradict the collection |
| ValidatedService.OrphanForGood | src/knowledgehub/governance/releases.py:74-94 | a preparation that died between directory and manifest blocks its collection name in every later run |
| Tasks.TaskStore.RecoverStale | src/knowledgehub/governance/tasks.py:94-117 | an overdue running task without a live lock is failed, its attempt closed, its locks dropped; nothing else |
| Tasks.TaskStore.Begin | src/knowledgehub/governance/tasks.py:72-164 | recovers, refuses a running or reusable task, or opens the next attempt |
| Tasks.TaskStore.HasLive | src/knowledgehub/governance/tasks.py:298-304 | finds a live lock exactly if there is one |
| Tasks.TaskStore.NextNumber | src/knowledgehub/governance/tasks.py:151-156 | one more than the highest attempt number |
| Tasks.TaskStore.Finish | src/knowledgehub/governance/tasks.py:166-202 | closes the task and its latest running attempt, or refuses without effect |
| Tasks.ClosedRunning | src/knowledgehub/governance/tasks.py:186-193 | closes the running attempt of the highest number and no other |
| Tasks.CloseLatestAt | src/knowledgehub/governance/tasks.py:186-193 | where exactly that attempt is |
| Tasks.TaskStore.Acquire | src/knowledgehub/governance/tasks.py:204-214 | purges expired locks and takes the key, or refuses with the purge undone |
| Tasks.TaskStore.Release | src/knowledgehub/governance/tasks.py:216-223 | drops only the caller's own lock unless forced |
| Tasks.TaskStore.Renew | src/knowledgehub/governance/tasks.py:225-245 | extends every named lease, or, if one has lapsed, none |
| TaskEffects.BeginDecides | src/knowledgehub/governance/tasks.py:72-149 | a begin executes if and only if the task is new, abandoned, or has ended otherwise than completed for reuse; else nothing changes |
| TaskEffects.BeginWrites | src/knowledgehub/governance/tasks.py:89-164 | what an executing begin leaves: the task runs from now with one retry more after a failure, one more running attempt, an abandoned one closed as failed, its locks gone, and nothing else touched |
| TaskEffects.BeginNumbers | src/knowledgehub/governance/tasks.py:151-156 | the new attempt has the number after the highest one of the task |
| TaskEffects.FinishWrites | src/knowledgehub/governance/tasks.py:166-202 | a task is finished if and only if it exists and the status ends it; it and its last running attempt get the status, nothing else changes |
| TaskEffects.AcquireWrites | src/knowledgehub/governance/tasks.py:204-214 | a key is acquired if and only if no unexpired row has it; of the other rows the unexpired ones are left |
| TaskEffects.ReleaseWrites | src/knowledgehub/governance/tasks.py:216-223 | a release by the owner removes the row of the key and no other; by anyone else it changes nothing |
| TaskEffects.ReleasedKeyIsFree | src/knowledgehub/governance/tasks.py:204-223 | a released key can be acquired at once by any task |
| TaskEffects.AcquireThenRelease | src/knowledgehub/governance/tasks.py:204-223 | acquiring and releasing a key leaves exactly the rows that had not expired |
| TaskEffects.RenewWrites | src/knowledgehub/governance/tasks.py:225-245 | a renewal succeeds if and only if the time is positive and the task owns an unexpired row of every key; it extends just these |
| TaskEffects.HandOver | src/knowledgehub/governance/tasks.py:204-223 | of two tasks in turn the second gets the key right after the first has released it |
| TaskHistory.StepKeepsHistory | src/knowledgehub/governance/tasks.py:89-245 | every operation keeps attempts numbered 1..n with at most the last one running, exactly when the task runs |
| TaskHistory.RunCounts | src/knowledgehub/governance/tasks.py:89-164 | over every run, attempts are counted by executions granted and retries by restarts from a failed, partial or stale attempt |
| TaskHistory.History | src/knowledgehub/governance/tasks.py:72-245 | the same from an empty store, and a task exists exactly if it was ever granted |
| Leases.SecondBeginRefused | src/knowledgehub/governance/tasks.py:89-122 | an executor that is not overdue cannot be doubled: a begin of its task is refused without effect |
| Leases.RenewalSucceeds | src/knowledgehub/governance/tasks.py:225-245 | a renewal made before anything has lapsed never fails |
| Leases.StepKeepsInv | src/knowledgehub/governance/tasks.py:313-403 | every step but the two breaking ones keeps unexpired leases backed by lock rows and executors apart, whatever has lapsed |
| Leases.StepBreaksExactly | src/knowledgehub/governance/tasks.py:89-122 | from an exclusive state a step breaks exclusion if and only if it begins a task whose executor started longer than the TTL ago and has no live lock, or acquires a key that another executor let lapse |
| Leases.ExclusiveRunsExactly | src/knowledgehub/governance/tasks.py:313-403 | a run is exclusive at all times if and only if it takes no such step |
| Leases.LeaseExclusion | src/knowledgehub/governance/tasks.py:313-403 | from an empty store, over all interleavings of executors that keep their times, no two ever hold a common key and no two execute one task |
| Leases.RunAccounts | src/knowledgehub/governance/tasks.py:313-403 | in every run, exclusive or not, each unexpired lock row is the lease of an executor still there or of one that vanished |
| Leases.RowsAreLeases | src/knowledgehub/governance/tasks.py:313-403 | in exclusive runs without vanished executors the unexpired rows are exactly the unexpired leases of the executors still there: one that ran to its end leaves none |
| ExecutorLives.LivesToItsEnd | src/knowledgehub/governance/tasks.py:313-403 | an undisturbed executor of a new task, with any number of free keys, gets all of them, finishes and goes: the task has ended with its status after one attempt, no other task is touched, and of the locks exactly the unexpired ones of others are left |
| ExecutorLives.GivesUp | src/knowledgehub/governance/tasks.py:340-403 | an executor whose work fails or that is refused a key fails its task, leaves no row of its keys, and goes; no other task or row is touched |
| ExecutorLives.RenewsAll | src/knowledgehub/governance/tasks.py:225-245 | a renewal in time extends every lease of the executor and its row to the full time from now, and no other |
| Leases.LateRenewalBreaksExclusion | src/knowledgehub/governance/tasks.py:433-447 | a run with one missed renewal in which two executors hold one key |
| Leases.KeylessTaskRunsTwice | src/knowledgehub/governance/tasks.py:94-99 | a run without keys in which two executors execute one task |
| PointStore.EmbedBatches | src/knowledgehub/pipeline/orchestrator.py:605-624 | batching keeps vectors aligned with their chunks |
| PointStore.QdrantIndex.DeleteDocument | src/knowledgehub/indexing/qdrant.py:80-95 | removes exactly the points of the document |
| PointStore.QdrantIndex.UpsertSlices | src/knowledgehub/indexing/qdrant.py:139-144 | slice by slice is the whole list; a run cut after some writes leaves exactly the prefix they hold |
| PointStore.StoredExactly | src/knowledgehub/indexing/qdrant.py:139-144 | every write stores a full batch, the last one what is left |
| PointStore.QdrantIndex.ReplaceDocument | src/knowledgehub/indexing/qdrant.py:97-144 | after success chunk i is stored under its id with its index, text and own vectors and the document has no other points; cut after some writes, nothing happened or exactly the prefix they hold has replaced the old ones; a count mismatch has no effect |
| PointStore.ReplacementHolds | src/knowledgehub/indexing/qdrant.py:112-131 | after a replacement, chunk i is stored under its id with its own index, text and vectors, and the document has no other points |
| PointStore.DerivedEmbeds | src/knowledgehub/pipeline/orchestrator.py:605-624 | the points derived from chunks carry, for each chunk, the embedding of its text and the encoding of its sparse text |
| PointStore.ReplaceIsLocal | src/knowledgehub/indexing/qdrant.py:97-144 | replacing one document leaves the points of every other alone |
| PointStore.PartialReplaceIsLocal | src/knowledgehub/indexing/qdrant.py:97-144 | and so does a replacement cut anywhere |
| PointStore.SameByDocument | src/knowledgehub/indexing/qdrant.py:317-395 | stores that agree document by document are equal |
| DerivedIndex.IncrementalChunkIndexer.IndexOne | src/knowledgehub/indexing/incremental.py:247-283 | a row is recorded only with every chunk stored under the embedding of its text and the encoding of its sparse text, and nothing else of the document; cut after any number of writes, the points are exactly the prefix stored and the row is the old one; no other document is touched |
| DerivedIndex.IncrementalChunkIndexer.RetireOne | src/knowledgehub/indexing/incremental.py:284-290 | a row is tombstoned only after its points are gone |
| DerivedIndex.IncrementalChunkIndexer.Plan | src/knowledgehub/indexing/incremental.py:211-227 | plans exactly the inputs that are not recorded at their hashes |
| DerivedIndex.SkippedExactly | src/knowledgehub/indexing/incremental.py:211-227 | an input is skipped if and only if its document has an active row with its own content, metadata and processor under the configured embedding |
| DerivedIndex.IncrementalChunkIndexer.IndexPlanned | src/knowledgehub/indexing/incremental.py:247-283 | one pass accounts for every planned input and never loses an active row |
| DerivedIndex.IncrementalChunkIndexer.Prune | src/knowledgehub/indexing/incremental.py:284-290 | a stale document ends inactive or without points |
| DerivedIndex.IncrementalChunkIndexer.Build | src/knowledgehub/indexing/incremental.py:190-302 | what was recorded stays recorded whatever fails; skipped + indexed + tombstoned + failures = selected + stale; without failures every input is recorded with each chunk under its own vectors and, pruned, the index equals the inputs; a rebuild of recorded inputs changes nothing; where nothing fails the build has no failures |
| DerivedIndex.IncrementalChunkIndexer.Converge | src/knowledgehub/indexing/incremental.py:190-302 | after any number of failing or dying builds, one in which nothing fails makes the index equal the inputs, each chunk under its own vectors, and the next skips everything |
| DerivedIndex.CutReplacementSafeExactly | src/knowledgehub/indexing/incremental.py:216-283 | from agreeing row and points, a replacement cut anywhere before its row is written keeps skipping safe if and only if the row is not active at the configured embedding, or there are no points to lose and none to store |
| DerivedIndex.RevertedInput | src/knowledgehub/indexing/incremental.py:211-283 | a run: an input is indexed, the build of its next version dies after deleting the points, and the plan of the reverted input skips it although none of its points are left |
| PipelineRows.SelectionKeeps | src/knowledgehub/pipeline/orchestrator.py:351-422 | selection keeps the agreement of a document and leaves it in the state its stage expects; what is skipped is complete |
| PipelineRows.ChunkFingerprintDetermines | src/knowledgehub/chunking/fingerprints.py:53-73 | equal chunk fingerprints mean equal chunking, content, parser, parser version and OCR flag, and conversely |
| PipelineRows.ProducedDetermines | src/knowledgehub/pipeline/orchestrator.py:450-513 | the recorded parse fingerprint is that of the content, of the fallback parser without OCR if the primary refuses the content, and of the primary as configured otherwise |
| PipelineRows.EmbeddingFingerprintDetermines | src/knowledgehub/chunking/fingerprints.py:76-80 | equal embedding fingerprints mean equal embedding configuration and chunks |
| PipelineRows.ChunksCarryTexts | src/knowledgehub/pipeline/orchestrator.py:535-570 | chunk i carries text i of the parse under index i, and its id names what it was made from |
| PipelineRows.PointsCarryTexts | src/knowledgehub/pipeline/orchestrator.py:603-626 | the points of a document are exactly its texts with the vectors of each |
| PipelineRows.OtherVersionsApart | src/knowledgehub/chunking/fingerprints.py:70-73 | points made from different chunk fingerprints share no id |
| PipelineRows.SkippedNextTime | src/knowledgehub/pipeline/orchestrator.py:355-371 | a finished document is skipped by the next run if and only if OCR is off or its parser runs it |
| PipelineRows.ReplacementTearsExactly | src/knowledgehub/pipeline/orchestrator.py:279-287 | an interrupted replacement keeps the agreement if and only if the row does not claim to be indexed or has no chunks |
| Orchestrator.SelectOne | src/knowledgehub/pipeline/orchestrator.py:352-422 | row, outbox entry and choice for one source document |
| Orchestrator.PlanSelection | src/knowledgehub/pipeline/orchestrator.py:351-422 | the selection transaction changes exactly the selected documents, none of which is listed twice |
| Orchestrator.PlanEvents | src/knowledgehub/pipeline/orchestrator.py:656-671 | marks exactly the documents a batch removes, by their last removing event, and collects its upserts |
| Orchestrator.PlanPrune | src/knowledgehub/pipeline/orchestrator.py:157-167 | marks exactly the ready rows outside the snapshot |
| Orchestrator.PlanRecords | src/knowledgehub/pipeline/orchestrator.py:450-513 | records exactly the parsed and the failed documents |
| Orchestrator.BatchAdvances | src/knowledgehub/pipeline/orchestrator.py:183-204 | a finished batch brings a document to its state in the log or marks it failed, wherever an earlier attempt had stopped; a document of the batch follows the log if and only if it did not fail |
| Orchestrator.LastGoneExactly | src/knowledgehub/pipeline/orchestrator.py:656-671 | a batch makes a document unavailable if and only if some event of it does, deleted or not by the last such event |
| Orchestrator.ParseRecordedExactly | src/knowledgehub/pipeline/orchestrator.py:450-513 | a recorded parse leaves parse and chunks ready at the fingerprints of the content and a pending replacement; a recorded failure the parse failed without fingerprint; nothing else of the row changes |
| Orchestrator.RechunkedExactly | src/knowledgehub/pipeline/orchestrator.py:535-570 | rebuilt chunks are ready at the given fingerprint with a pending replacement; a failure leaves them failed without one; the parse stays |
| Orchestrator.BatchInterrupted | src/knowledgehub/pipeline/orchestrator.py:183-204 | an interrupted one leaves it before, after or under way |
| Orchestrator.ReplayLeavesNoTrace | src/knowledgehub/pipeline/orchestrator.py:183-204 | a batch applied in full after an attempt that stopped anywhere leaves rows and points as applying it once would, failures included |
| Orchestrator.LiveIsInOrderExactly | src/knowledgehub/pipeline/orchestrator.py:656-671 | what the pipeline takes a log to say is what its events say in their order if and only if the last batch that mentions the document does not upsert it and remove it afterwards |
| Orchestrator.RemovalAfterUpsertIgnored | src/knowledgehub/pipeline/orchestrator.py:656-671 | a batch of an upsert and a later removal leaves the document alive |
| Orchestrator.PipelineOrchestrator.SelectDocuments | src/knowledgehub/pipeline/orchestrator.py:347-422 | all documents at once or none, keeping index agreement |
| Orchestrator.PipelineOrchestrator.RunParsers | src/knowledgehub/pipeline/orchestrator.py:445-446 | a parser that reports success has read the document and written the artifacts of the current fingerprints; others are untouched; where nothing else fails, exactly the readable documents succeed |
| Orchestrator.PipelineOrchestrator.RecordParses | src/knowledgehub/pipeline/orchestrator.py:450-513 | parsed documents become chunked at the current fingerprints with a pending replacement, failed ones lose their parse fingerprint, all at once or not at all |
| Orchestrator.PipelineOrchestrator.RechunkOne | src/knowledgehub/pipeline/orchestrator.py:535-570 | the chunks are those of the parse artifact at the current fingerprint with a pending replacement, or the failure is recorded and nothing else changed |
| Orchestrator.PipelineOrchestrator.Rechunk | src/knowledgehub/pipeline/orchestrator.py:526-574 | rebuilt chunks are those of the parse artifact; every other document is marked failed with its points to be deleted; where nothing fails all are rebuilt |
| Orchestrator.PipelineOrchestrator.ReplacePoints | src/knowledgehub/pipeline/orchestrator.py:603-626 | the document's points become those of its chunks; an interruption anywhere keeps index agreement of all documents, except of this one if it was already marked as indexed |
| Orchestrator.PipelineOrchestrator.EmbedAndIndex | src/knowledgehub/pipeline/orchestrator.py:576-654 | every candidate with ready chunks and their artifact is embedded, indexed and its outbox entry completed, all others are untouched, and the errors are exactly the missing artifacts; at most one document that was marked as indexed before is left torn |
| Orchestrator.PipelineOrchestrator.ApplyIndexOperations | src/knowledgehub/pipeline/orchestrator.py:673-698 | applied to its end, deletions and payload updates are carried out and completed and replacements left pending; cut anywhere, rows and settled points are unchanged |
| Orchestrator.PipelineOrchestrator.ProcessDocuments | src/knowledgehub/pipeline/orchestrator.py:337-524 | index agreement at every crash point; every document that did not fail is chunked at the current fingerprints, two of them at the same one exactly if their contents are the same, and, unless parse-only, is ready with exactly its texts as points and none of another content; what failed is marked and has no points; where nothing else fails, exactly the unreadable documents fail; parse-only, no point changes; an empty list changes nothing |
| Orchestrator.PipelineOrchestrator.IngestBatch | src/knowledgehub/pipeline/orchestrator.py:183-194 | the same for a delta batch, cut anywhere |
| Orchestrator.PipelineOrchestrator.ConsumeBatch | src/knowledgehub/pipeline/orchestrator.py:183-204 | the mark follows the batch even if documents failed: a document of a consumed batch follows the log if and only if it is not among the failed, which where nothing else fails are exactly the unreadable |
| Orchestrator.PipelineOrchestrator.IngestIncremental | src/knowledgehub/pipeline/orchestrator.py:173-219 | batches are consumed in order, and documents track the log up to the mark or are marked failed; where nothing else fails, exactly the documents with unreadable contents in these batches are reported as failed; parse-only, no point changes |
| Orchestrator.PipelineOrchestrator.PruneStale | src/knowledgehub/pipeline/orchestrator.py:155-169 | after pruning no row outside the snapshot is active; after an error-free run every document is reconciled; on an empty snapshot if and only if some row was active |
| Orchestrator.PipelineOrchestrator.IngestFull | src/knowledgehub/pipeline/orchestrator.py:138-171 | index agreement throughout; with failures or a filter nothing is pruned or marked consumed; a pruning run over a whole snapshot without failures leaves exactly its documents with points; where nothing else fails, exactly the unreadable documents fail |
| Orchestrator.PipelineOrchestrator.Reconcile | src/knowledgehub/pipeline/orchestrator.py:221-222 | reconciled without errors on a non-empty snapshot; on an empty one if and only if some row was active, else nothing changes |
| Orchestrator.PipelineOrchestrator.Resume | src/knowledgehub/pipeline/orchestrator.py:224-241 | every chosen active document ends ready or is marked failed |
| Orchestrator.PipelineOrchestrator.ParsePending | src/knowledgehub/pipeline/orchestrator.py:243-258 | index agreement, no other document's row or settled points change, and every document is chunked at the current fingerprints or marked failed |
| Orchestrator.PipelineOrchestrator.EmbedPending | src/knowledgehub/pipeline/orchestrator.py:260-309 | every chosen document with ready chunks is indexed unless its artifact is missing, and no other changes; a forced run that is interrupted leaves at most one document torn, one that was marked as indexed |
| PipelineRuns.History | src/knowledgehub/pipeline/orchestrator.py:138-309 | index agreement over every sequence of runs, each stopped anywhere |
| PipelineRuns.ReconciledSameIndex | src/knowledgehub/pipeline/orchestrator.py:221-222 | two pipelines that reconciled the same snapshot have the same index, point for point |
| PipelineRuns.ReconcileEqualsScratch | src/knowledgehub/pipeline/orchestrator.py:138-241 | after any history, a reconcile of a non-empty snapshot without failures leaves the very index and active rows of such a first run of a new pipeline, every document with exactly the texts of its present content; where nothing fails both are so exactly if every document can be read |
| PipelineRuns.Replay | src/knowledgehub/pipeline/orchestrator.py:183-204 | a batch whose consumed mark was lost is replayed: rows and points are those of one application, failures included |
| PipelineRuns.FollowLog | src/knowledgehub/pipeline/orchestrator.py:173-219 | incremental runs interrupted any number of times, batches replayed included, leave every document as the log says, except exactly those marked as failed; where nothing fails, except exactly the unreadable; what follows the log follows the order of its events except exactly where they remove a document again |
| PipelineRuns.UnreadableIsConsumed | src/knowledgehub/pipeline/orchestrator.py:183-204 | a run that consumes a batch with an unreadable document, which is marked failed and does not follow the log |
| PipelineRuns.FollowPublisher | src/knowledgehub/pipeline/orchestrator.py:173-219 | any number of synchronizations, each followed by an incremental run that may die, and one finished run leave every document as the last committed records say, active exactly if its record is available and then with its content and metadata, or marked failed; where nothing fails, exactly the unreadable are |
| PipelineRuns.IncrementalEqualsFull | src/knowledgehub/pipeline/orchestrator.py:138-219 | a pipeline that only consumed the published log and one that reconciled the published snapshot agree on points and active rows of every document, except exactly those the first has marked failed; where nothing fails, on all of them exactly if every document can be read |
| DeltaPublisher.NoReasonExactly | src/knowledgehub/sources/zotero/manifest.py:267-305 | a record is not published if and only if its status, content, archive and metadata are unchanged |
| DeltaPublisher.ReasonExactly | src/knowledgehub/sources/zotero/manifest.py:267-305 | which reason it is: availability outweighs content, content the archive, the archive the metadata |
| DeltaPublisher.DocumentLoads | src/knowledgehub/pipeline/models.py:30-60 | a document is loaded exactly from an available record, with its id, its content as content and its metadata as metadata |
| DeltaPublisher.ReportsSay | src/knowledgehub/sources/zotero/manifest.py:133-206 | what a batch reports: a removal exactly for known documents that are gone, and for every other event the current record as loaded |
| DeltaPublisher.BuildDelta | src/knowledgehub/sources/zotero/manifest.py:133-206 | a batch reports every new, changed or removed document exactly once and nothing else |
| DeltaPublisher.OneEventDecides | src/knowledgehub/pipeline/orchestrator.py:656-671 | in a batch without repeated documents the event of a document decides alone, whether read by the pipeline or in order |
| DeltaPublisher.BatchPublishes | src/knowledgehub/sources/zotero/manifest.py:133-206 | a published batch takes the state of every document from the old records to the new |
| DeltaPublisher.Publisher.Publish | src/knowledgehub/sources/zotero/sync.py:404-465 | over every sequence of publications, what the log says of a document is the published snapshot, read as the pipeline does or in order; a current record is in it exactly if available, with its own content and metadata, and the batch says exactly what changed |
| RepeatedUpserts.KeptIsLastExactly | src/knowledgehub/pipeline/orchestrator.py:351-422 | the entry whose parse is kept has the content of the last one if and only if the last one is parsed or none differs from it |
| RepeatedUpserts.SelectEntries | src/knowledgehub/pipeline/orchestrator.py:351-422 | every entry of a document is compared with the row before the run and written over what earlier entries wrote |
| RepeatedUpserts.ProcessEntries | src/knowledgehub/pipeline/orchestrator.py:337-524 | a run that finds a document several times leaves the source fields of its last entry, the parse, chunks and points of the last one parsed, and nothing to apply |
| RepeatedUpserts.LastEntryWinsExactly | src/knowledgehub/pipeline/orchestrator.py:337-524 | such a run ends at its last entry if and only if that entry is parsed or no earlier one differs in content; otherwise index agreement is lost |
| RepeatedUpserts.UpsertedAndRestored | src/knowledgehub/pipeline/orchestrator.py:351-371 | an input: new content and then the old in one batch leave the old content under the parse and points of the new |
| DeltaLog.ReadCatalog | src/knowledgehub/manifests/catalog.py:55-80 | accepts exactly the unbroken chains, and otherwise reports the fault of the first line that breaks one |
| DeltaLog.ChainExactly | src/knowledgehub/manifests/catalog.py:33-80 | a readable catalog is numbered from one, each line names the sync before it and starts at the version where that ended, and no line goes back or lacks a sync id |
| DeltaLog.FaultNamed | src/knowledgehub/manifests/catalog.py:33-80 | which fault is reported: the own fields of the line outweigh its number, the number the sync it names, and that the version |
| DeltaLog.AppendReadable | src/knowledgehub/manifests/catalog.py:83-111 | the extended catalog is readable if and only if the delta starts at the last target version |
| DeltaLog.VersionsGrow | src/knowledgehub/manifests/catalog.py:77-78 | versions never go back along a readable catalog |
| DeltaLog.LastConsumed | src/knowledgehub/pipeline/state.py:366-378 | the consumed row of the highest sequence |
| DeltaLog.PendingDeltas | src/knowledgehub/pipeline/source.py:82-98 | for any table with unique sequences: an unreadable catalog is reported with its first fault; otherwise the entries after the last consumed one if and only if the catalog has that at its place with the same digest, and the two errors exactly where not |
| DeltaLog.DeltaConsumer.Pending | src/knowledgehub/pipeline/source.py:82-98 | with exactly the first k entries consumed, exactly the rest, and a failure exactly if the catalog is unreadable |
| DeltaLog.MarkedNext | src/knowledgehub/pipeline/state.py:380-403 | marking the next entry never violates the unique sequence and extends the prefix by one |
| DeltaLog.MarkedExactly | src/knowledgehub/pipeline/state.py:380-403 | a mark is refused if and only if another sync has its sequence, and changes no other row |
| DeltaLog.MarkedAgain | src/knowledgehub/pipeline/state.py:380-403 | marking a consumed entry again changes nothing |
| DeltaLog.DeltaConsumer.Publish | src/knowledgehub/manifests/catalog.py:83-111 | appends exactly one entry with the given sync, versions, digest and count, if and only if the catalog is readable, the sync is new and the versions and count make sense; says when the catalog stays readable and which error is reported |
| DeltaLog.DeltaConsumer.Incremental | src/knowledgehub/pipeline/orchestrator.py:173-204 | a run cut off after any number of marks has consumed exactly that many further entries |
| DeltaLog.DeltaConsumer.MarkAll | src/knowledgehub/pipeline/orchestrator.py:718-731 | marks all entries in one transaction, or none |
| DeltaLog.History | src/knowledgehub/pipeline/source.py:82-98 | over every run the consumed rows are exactly a prefix of the log and the pending batches exactly the rest |
| EndpointPool.PickUntried | src/knowledgehub/embeddings/endpoint_pool.py:151-180 | nothing tried is picked while something is untried, and nothing quarantined while something untried is free |
| EndpointPool.CandidatesExactly | src/knowledgehub/embeddings/endpoint_pool.py:151-162 | what may be picked: the endpoints neither tried nor quarantined if there are any, else those not tried if there are any, else all |
| EndpointPool.PickIsLeastBusy | src/knowledgehub/embeddings/endpoint_pool.py:166-178 | what is picked has the fewest outstanding requests of them, then the fewest batches, then failures, then the smallest name |
| EndpointPool.RoundRobinReachesAll | src/knowledgehub/embeddings/endpoint_pool.py:163-165 | picks in turn reach every endpoint within as many calls as there are endpoints |
| EndpointPool.NextTry | src/knowledgehub/embeddings/endpoint_pool.py:83-95 | attempts go in rounds through all endpoints, and the tried set is emptied exactly at the end of one |
| EndpointPool.EndpointPool.Minimum | src/knowledgehub/embeddings/endpoint_pool.py:166-178 | the candidate no other comes before |
| EndpointPool.EndpointPool.Eligible | src/knowledgehub/embeddings/endpoint_pool.py:153-162 | untried and free, else untried, else all |
| EndpointPool.EndpointPool.Acquire | src/knowledgehub/embeddings/endpoint_pool.py:151-180 | picks by strategy and counts one request more on the picked endpoint only |
| EndpointPool.EndpointPool.Release | src/knowledgehub/embeddings/endpoint_pool.py:182-199 | counts one less, and a failure quarantines |
| EndpointPool.EndpointPool.Embed | src/knowledgehub/embeddings/endpoint_pool.py:82-129 | the requests sent go in rounds through all endpoints as long as service errors come back, and the last reply decides how the call ends; all failed only after every attempt, with every endpoint charged a failure; outstanding counts unchanged except for a leak |
| EndpointCalls.StepKeepsInv | src/knowledgehub/embeddings/endpoint_pool.py:82-199 | every step of any call keeps outstanding counts equal to the calls holding the endpoint |
| EndpointCalls.NeverClamped | src/knowledgehub/embeddings/endpoint_pool.py:191 | a release never finds the counter at zero |
| EndpointCalls.OutstandingIsInFlight | src/knowledgehub/embeddings/endpoint_pool.py:82-199 | in every interleaving, outstanding is the calls in flight plus those that leaked the endpoint |
| EndpointCalls.CountersCountAnswers | src/knowledgehub/embeddings/endpoint_pool.py:82-199 | in every interleaving the batches and failures of an endpoint are the successful and the failed answers after which it was given back, and the turn is the number of picks |
| EndpointCalls.StepCounts | src/knowledgehub/embeddings/endpoint_pool.py:182-199 | a failure starts the quarantine of its endpoint and nothing else moves one |
| EndpointCalls.FailedEndpointRests | src/knowledgehub/embeddings/endpoint_pool.py:151-199 | an endpoint that has just failed is not picked before its quarantine ends while another untried one is free |
| EndpointCalls.EveryEndpointFailed | src/knowledgehub/embeddings/endpoint_pool.py:82-129 | in every interleaving a call repeats no endpoint before it tried all, and reports that all failed only when a service error has answered every one of its attempts, each endpoint among them |
| EndpointCalls.AnswerEnds | src/knowledgehub/embeddings/endpoint_pool.py:82-129 | the answer decides how its call goes on: a success returns, a service error ends it if and only if it answers the last attempt, anything else is raised |
| EndpointCalls.LeaksExactly | src/knowledgehub/embeddings/endpoint_pool.py:88-129 | an answered call keeps its endpoint if and only if it is synchronous and the client raised no service error |
| SlidingWindow.SlidingWindowLimiter.Prune | src/knowledgehub/mcp/resilience.py:62-63 | what is left of the queue is the count over the whole history |
| SlidingWindow.SlidingWindowLimiter.Allow | src/knowledgehub/mcp/resilience.py:58-67 | decides by the queue what the rule decides by every accepted call, and changes no other principal |
| SlidingWindow.NoWindowOverfull | src/knowledgehub/mcp/resilience.py:51-67 | no window of the given length, wherever it ends, holds more than the limit |
| SlidingWindow.RuleAcceptsExactly | src/knowledgehub/mcp/resilience.py:58-67 | a call is accepted if and only if fewer than the limit of the accepted calls of its principal lie in the window that ends with it |
| SlidingWindow.Replay | src/knowledgehub/mcp/resilience.py:51-67 | for every monotone trace, exactly the calls with fewer than the limit of accepted ones in their window are accepted, and no window is overfull |
| Evidence.CountTokens | src/knowledgehub/hub/evidence.py:227-229 | scanning run by run counts the starts of tokens |
| Evidence.EstimateGrows | src/knowledgehub/hub/evidence.py:227-229 | the estimate is monotone in the prefix and grows by at most one a character |
| Evidence.EstimateIsLeast | src/knowledgehub/hub/evidence.py:227-229 | the estimate is the least number that is no less than the tokens and no less than a quarter of the length |
| Evidence.TokensAreStarts | src/knowledgehub/hub/evidence.py:227-229 | the tokens are the places where a word or a mark starts |
| Evidence.LongestFits | src/knowledgehub/hub/evidence.py:232-242 | the reference prefix fits and nothing longer does |
| Evidence.TruncateTokens | src/knowledgehub/hub/evidence.py:232-242 | the binary search under the cap of four characters a token finds that prefix, stripped |
| Evidence.TruncatedFits | src/knowledgehub/hub/evidence.py:232-242 | what truncation returns is a prefix within the tokens |
| Evidence.TruncatedNonempty | src/knowledgehub/hub/evidence.py:105-110 | a content that starts visibly is never cut to nothing |
| Evidence.GatherWithinBudget | src/knowledgehub/hub/evidence.py:99-141 | contexts never cost more than the budget |
| Evidence.GatherFromHits | src/knowledgehub/hub/evidence.py:99-141 | every context is the start of a hit, in order |
| Evidence.GatherKeepsWhatFits | src/knowledgehub/hub/evidence.py:99-141 | hits that all fit are all kept whole |
| Evidence.ShownHaveTexts | src/knowledgehub/hub/evidence.py:99-110 | what can be shown is exactly the hits that have a text |
| Evidence.CutsExactly | src/knowledgehub/hub/evidence.py:99-141 | truncation is warned about if and only if some context is not the whole of its hit |
| Evidence.GatherSpendsBudget | src/knowledgehub/hub/evidence.py:99-141 | a hit is left out only when the budget is spent to the last token |
| Evidence.Spend | src/knowledgehub/hub/evidence.py:90-141 | the loop takes exactly those contexts; used plus remaining is the budget |
| Evidence.Envelope | src/knowledgehub/hub/evidence.py:85-141 | all of that for the token estimate, with the truncation warning exactly when a context is not the whole of its hit |
| CodeChunker.Markup | src/knowledgehub/code_rag/chunking.py:179-206 | sections tile the document, each under the titles of its first line |
| CodeChunker.SectionsCover | src/knowledgehub/code_rag/chunking.py:179-206 | the sections put together are the document line by line |
| CodeChunker.BoundariesAreHeadings | src/knowledgehub/code_rag/chunking.py:186-204 | sections begin at exactly the first line and the headings after an even number of fence lines |
| CodeChunker.InFenceIsParity | src/knowledgehub/code_rag/chunking.py:186-194 | a line is inside a fence if and only if the fence lines up to it are odd in number |
| CodeChunker.StartsExactly | src/knowledgehub/code_rag/chunking.py:186-194 | a section starts if and only if the line is a heading or stands over a heading underline after an even number of fence lines |
| CodeChunker.PathOfLine | src/knowledgehub/code_rag/chunking.py:195-204 | the path of a line is that of the line before, or below a heading its title under at most the titles of the levels above |
| CodeChunker.FencesStayWhole | src/knowledgehub/code_rag/chunking.py:186-194 | no section begins inside a fence |
| CodeChunker.Pack | src/knowledgehub/code_rag/chunking.py:234-245 | parts tile the lines greedily; more than one line only within the limit |
| CodeChunker.PartsCover | src/knowledgehub/code_rag/chunking.py:234-245 | the parts put together are the section |
| CodeChunker.CutJoined | src/knowledgehub/code_rag/chunking.py:234-245 | splitting into lines and joining again only normalizes the line breaks |
| CodeChunker.SplitsAtBreaks | src/knowledgehub/code_rag/chunking.py:234 | there are as many lines as line breaks, and one more if the text does not end with one; no line has a break in it |
| CodeChunker.NormalizedKeeps | src/knowledgehub/code_rag/chunking.py:234-245 | normalizing keeps every other character and makes each line break one line feed |
| CodeChunker.StrippedExactly | src/knowledgehub/code_rag/chunking.py:228 | stripping loses white space only, and only at the ends |
| CodeChunker.JoinedSize | src/knowledgehub/code_rag/chunking.py:238-242 | the limit is kept by the length of the joined lines |
| CodeChunker.Fixed | src/knowledgehub/code_rag/chunking.py:224-245 | a blank text gives nothing, a text within the limit is passed on whole, a longer one in parts of its lines that put together are the text with its line breaks normalized |
| Validation.CheckState | src/knowledgehub/governance/validation.py:477-517 | no finding if and only if the rows are proper and tombstones are exactly the inactive ones |
| Validation.SortedIsPermutation | src/knowledgehub/governance/validation.py:640-641 | comparing sorted indexes with 0..n-1 tests for a permutation |
| Validation.ArtifactExactly | src/knowledgehub/governance/validation.py:600-641 | an artifact passes if and only if it has chunks, all proper and of its document, each named once, and one for every index below their number |
| Validation.CheckArtifact | src/knowledgehub/governance/validation.py:600-641 | no finding if and only if the chunks are the document's own, named once, unknown so far, and indexed by a permutation |
| Validation.CheckArtifacts | src/knowledgehub/governance/validation.py:563-668 | no finding if and only if that holds of every active document, no chunk is in two of them and no artifact is stray; then the map of chunks is theirs |
| Validation.CheckRemote | src/knowledgehub/governance/validation.py:848-914 | no finding if and only if status, counts, ids and payloads of the store match that map |
| Validation.Index | src/knowledgehub/governance/validation.py:176-243 | accepts exactly the consistent indexes |
| Validation.StoreIsUnionOfArtifacts | src/knowledgehub/governance/validation.py:848-914 | in a consistent index the store knows exactly the chunks of the active documents' artifacts, each under one document, and the active documents are those without a tombstone |
| ParseWorkers.PartitionDocuments | src/knowledgehub/pipeline/workers.py:46-52 | every worker gets the documents of its partition in id order |
| ParseWorkers.PartitionsCover | src/knowledgehub/pipeline/workers.py:46-52 | no document is lost and none is given to two workers |
| ParseWorkers.AssignedExactly | src/knowledgehub/pipeline/workers.py:39-52 | a worker has a document exactly if its id leads there |
| ParseWorkers.AssignedOrdered | src/knowledgehub/pipeline/workers.py:46-52 | in id order |
| ParseWorkers.DeliveredExactly | src/knowledgehub/pipeline/workers.py:117-160 | in every interleaving of the workers a result is in the queue exactly if the worker its document belongs to has reported it |
| ParseWorkers.DeliveredOnce | src/knowledgehub/pipeline/workers.py:55-76 | the queue never holds more results than documents for an id, and exactly as many once every worker is through |
| Sorting.SortOrdered | src/knowledgehub/pipeline/workers.py:50 | sorting orders by id and keeps every element |
| ParseWorkers.Collect | src/knowledgehub/pipeline/workers.py:77-94 | for every pattern of worker exits and deliveries, some prefix of the delivery order, and all of it if the queue is emptied |
| ParseWorkers.RunParseWorkers | src/knowledgehub/pipeline/workers.py:55-114 | for every interleaving and every death of the workers exactly one result for each document, in id order, each the result of its own worker or a failure in the place of one that did not arrive; all are the workers' if these finish |
| ContextBudget.ContextDraft.ApplyRecordBudget | src/knowledgehub/project/context.py:132-139 | fills the budget list by list and notes the cuts |
| ContextBudget.RecordBudget | src/knowledgehub/project/context.py:132-139 | prefixes, as many records as the budget allows, and no list cut while a later one keeps anything |
| ContextBudget.CutsWarned | src/knowledgehub/project/context.py:138-139 | exactly the lists that were cut are warned about |
| ContextBudget.ContextDraft.ApplyCharacterBudget | src/knowledgehub/project/context.py:142-154 | ends, although warnings may lengthen the context, in the trimmed context |
| ContextBudget.TrimAllIsLeast | src/knowledgehub/project/context.py:142-154 | the first context of the trimming sequence that fits, or the empty one with a warning: no record more than needed |
| ContextBudget.CharacterBudget | src/knowledgehub/project/context.py:142-154 | within the budget or all lists empty; prefixes; a list is cut only when those before it in the removal order are empty; of the lists not warned about before, exactly those cut are, once each |

## Left out

- Retired and candidate collection names kept for display in the active record, timestamps, and the choice of files by
  knowledge base: the promotion model has one knowledge base and the fields that operations read.
- Path containment, fsync and file locks: atomic writes and the single pipeline coordinator are taken as given.
- Parse-stage work queue, chunk table, run summaries, endpoint statistics and p95: written but never read by a decision.
- Payload metadata of points: index agreement is about chunk ids, texts and vectors.
- PipelineRuns.History: does not include forced embedding runs, which may leave one document torn.
- The embedding configuration and the parsers are fixed for the life of a pipeline; the chunking configuration may
  change from run to run, except along a consumed log.
- Document lists of whole runs name no document twice and are maps from ids, processed in an arbitrary order, which
  covers the sorted one; lists that do are modelled for one document at a time and without faults (`RepeatedUpserts`).
- DeltaPublisher.Publisher.Publish: the database commit and the publication of the files are one step that happens or
  not; how records are built from the library is not part of this model.
- Orchestrator.PipelineOrchestrator.IngestIncremental: does not model the catalog and its checks, which are in DeltaLog.
- Delta and snapshot decoding, file hashes and row counts of delta files: a delta file that fails its checks stops a run
  before it changes anything.
- DeltaLog.PendingDeltas: does not model a missing catalog file, which is refused before anything is read.
- Tasks: a task identifier is modelled by the idempotency key, which never changes for a task; metadata, manifests and
  result documents are not decided on.
- Leases.LeaseExclusion: assumes that executors respect their times, as the exact condition requires; no lock is
  force-released.
- Releases.CandidateReleaseManager.Validate: while it runs only the artifacts may change, once; the task locks keep
  other calls from the release.
- Parsing and chunk texts, embedding and sparse encoding are arbitrary deterministic functions; the symbol extraction
  for Python files is not part of this model.
- CodeChunker.Fixed: which characters are white space is an arbitrary function that holds of every line break.
- Validation.Index: row, line and source checks that look at one record only are single flags; the writing-material
  variant is not part of this model.
- ParseWorkers.Collect: does not model a worker that hangs for ever, in which case the source polls for ever.
- Evidence.Envelope: begins with the contents taken from the payloads; scores, sources and inferences are not modelled.
- Rank fusion, circuit breaker, evaluation metrics, schema checks, configuration, command line, transport and
  fetching from the library: easy single-function claims or plumbing.
