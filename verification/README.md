# DatasetRT, modelled and proved in Dafny

DatasetRT writes samples into sharded caches and reads them back in parallel. This project models the
parts of it where order, concurrency, crashes or arithmetic could go wrong, and proves what they are
for. `dafny verify dfyconfig.toml` checks everything.

| module | what it models |
|---|---|
| `Channel`, `WorkerPool` | the bounded channel on one mutex and two condition variables, and the fixed worker pool, as step machines over all interleavings |
| `Epochs`, `Runtime`, `Loader` | epoch cursors and windows, the iterator that reorders results, and the loader's passes over them |
| `Seeds`, `Partition` | seed derivation; budgets and row spans of ranks and workers |
| `Records`, `Storage`, `ReaderCache` | record layouts and the index file, the cache builder and the read path, the least-recently-used reader cache |
| `MetadataBatches`, `PrefixOffsets`, `ArrowViews`, `Identities`, `CacheLoading` | metadata batching, prefix-offset search, views and their export, sample identities, ordered cache loading |
| `Manifests`, `Migration` | manifest versions and the resumable in-place upgrade |
| `SourceCommit`, `Pipeline` | the ordered-commit pipeline that writes a list of sources |
| `Supervisor` | the parent process that shares sources among writer processes |
| `EndToEnd`, `PublishedCaches` | read path, identities, iterator and loader put together; write pipeline and builder put together |
| `Common`, `Arithmetic` | result shapes, machine-word bounds and division facts |

How the outside enters the model:

- Codecs and JSON are functions with the round trips stated as hypotheses (`CodecLawful`, `KeysLawful`, `JsonSafe`); the encoded length of a string is a function.
- File operations act on maps from paths to contents, with rename as one step. Hooks, failing system calls, signals, timeouts, child deaths and completion orders are free choices or oracles; a claim with "without faults" or "calm" names the case where they all go well. Signals to the pipeline are an oracle over the number of events already sent.
- `usize` and `u64` are bounded words of 64 bits; every checked or saturating operation is written out.
- Threads and child processes move between any two actions of the modelled owner.

Properties one might expect that do not hold, each with its exact condition and an input:

- "All rows fit the schema" is not kept by each push, because `validate_metadata` fixes the schema again while it is empty. `Storage.RowsFitExactly` gives the condition, `Storage.EmptyMetadataFirst` an input, and `Storage.CacheBuilder.Finish` accepts only caches where it holds.
- "The write pipeline's reorder buffer is bounded by its parallelism" fails, because `in_flight` drops on receipt. On every run it holds exactly when the parallelism is one or the stream of events (as far as it can be numbered) has at most one event more than the parallelism: `Pipeline.SourceListPipeline.PendingBounded` is the one half, `Pipeline.CongestedRun` the other, with the run that exceeds it for every other source list. The iterator's buffer is bounded, because pending samples count against its window (`Runtime.RuntimeIterator.OutstandingFits`).
- "No temporary cache remains" fails for a leftover beside a finished cache. `SourceCommit.TemporaryRemains` gives the condition, `SourceCommit.LeftoverStays` an input.
- "Passes yield one uninterrupted stream" fails after a read or transform error: an iterator that failed is over, and what was left of its window is skipped. `Loader.ReaderAdapter.Uninterrupted` gives the condition, `Loader.LostSample` an input.

## Model

| member | source | states |
|---|---|---|
| `Channel.ChannelSafety` | src/dataset_rt/channel.rs:102-186 | For every interleaving of sends, receives, timeouts, spurious wakeups and last-handle drops: what was sent are the values of the completed sends, each its own call's; what was received are the oldest values in turn; sent is received, then discarded on close, then the queue; the queue never exceeds its capacity |
| `Channel.SendStep` | src/dataset_rt/channel.rs:104-121 | A send waits while the open queue is full, gives up on a closed channel, and otherwise appends its own value and notifies a sleeping receiver if there is one |
| `Channel.RecvStep` | src/dataset_rt/channel.rs:124-134 | A receive waits while the open queue is empty, ends on a closed empty channel, and otherwise takes the oldest value and notifies a sleeping sender if there is one |
| `Channel.ExpireStep` | src/dataset_rt/channel.rs:137-158 | A receive that runs out of time still takes a value that is there |
| `Channel.DropStep` | src/dataset_rt/channel.rs:163-186 | Dropping the last handle closes its side and wakes the whole other side; queued values are discarded with the receivers |
| `Channel.CallStep` | src/dataset_rt/channel.rs:104-142 | A call enters with its own value or deadline and changes nothing else |
| `Channel.BoundedStarts` | src/dataset_rt/channel.rs:50-82 | A channel without capacity is refused; any other starts open, empty and unused |
| `Channel.NoLostWakeup` | src/dataset_rt/channel.rs:102-186 | Whenever a receiver sleeps un-notified, the senders are open and at least as many notified receivers as queued values have yet to run; dually for senders and free slots |
| `Channel.NoStrandedThreads` | src/dataset_rt/channel.rs:104-158 | Threads inside the channel with something to do are never all asleep; a sender and a receiver are never stranded together |
| `Channel.StepKeepsInv` | src/dataset_rt/channel.rs:102-186 | Every enabled step of every thread keeps conservation, capacity and the wakeup cover |
| `Channel.RunKeepsInv` | src/dataset_rt/channel.rs:102-186 | The same over whole runs of any length |
| `Channel.PushKeepsInv` | src/dataset_rt/channel.rs:116-118 | Appending a value and notifying one receiver keeps the wakeup cover of both sides |
| `Channel.RecvKeepsInv` | src/dataset_rt/channel.rs:131-157 | A receiver's critical section, blocking or timed, keeps the invariant on every branch |
| `WorkerPool.CapacitiesHold` | src/dataset_rt/worker_pool.rs:18-50 | In every run from a new pool the queue stays within four jobs per worker, a machine word; and no client is owed more results than its channel holds |
| `WorkerPool.StepKeepsCredits` | src/dataset_rt/dataset.rs:537-559 | The submission rules of the iterator, the writers, the cache loader and the single read, each by its own counters, keep what a client is owed equal to its counters and within its capacity |
| `WorkerPool.CreditIsUsed` | src/dataset_rt/writer/pipeline.rs:334-347 | Each kind of client submits exactly while its own counters leave room |
| `WorkerPool.JobsInOrder` | src/dataset_rt/worker_pool.rs:35-69 | Jobs are queued at the end, taken from the front, and each result goes to its own client |
| `WorkerPool.RunKeepsInv` | src/dataset_rt/worker_pool.rs:35-69 | Over every run with any number of clients, each job is in exactly one place: the queue, one worker, or its client's results |
| `WorkerPool.WorkersNeverBlock` | src/dataset_rt/writer/pipeline.rs:334-347 | No worker ever waits to hand over a result, whatever mix of clients submits by the rules of its own call site |
| `WorkerPool.WorkerCanMove` | src/dataset_rt/worker_pool.rs:54-69 | In every reachable state some worker step is enabled, or there is nothing queued or running |
| `WorkerPool.WorkerStepsTerminate` | src/dataset_rt/worker_pool.rs:54-69 | Worker steps alone cannot go on for ever |
| `WorkerPool.NoDeadlock` | src/dataset_rt/runtime.rs:109-181 | A client owed a result, or allowed to submit by its own counters, can move now or after a worker step that is enabled now; once workers are quiet every owed result is ready |
| `Epochs.WrappingAddMod` | src/dataset_rt/runtime.rs:76-87 | For a start inside the population the overflow-free sum equals (start + offset) mod population for all machine words; it refuses only an empty population |
| `Epochs.AdvanceCyclicOffset` | src/dataset_rt/dataset.rs:441-456 | The advanced cursor equals (start + step) mod population, without overflow |
| `Epochs.DrawWindowsAdjoin` | src/dataset_rt/dataset.rs:458-464 | A draw window is accepted exactly when its sampler never saturates; then its draws are numbered without a repeat and the next window starts where it ends |
| `Epochs.PlanDelivers` | src/dataset_rt/runtime.rs:45-73 | Asking a plan for its rows one by one gives exactly its window; the saturating draw counter never repeats a draw |
| `Epochs.WindowExtendsStream` | src/dataset_rt/dataset.rs:320-359 | A window that starts at the cursor continues the single cyclic or draw stream with no row skipped or repeated at the seam |
| `Epochs.DatasetState.constructor` | src/dataset_rt/dataset.rs:320-359 | A new dataset has covered nothing and its cursors stand at the start of the stream |
| `Epochs.DatasetState.SetEpochLen` | src/dataset_rt/dataset.rs:368-373 | Zero is refused; otherwise only the length of future windows changes, never the stream position |
| `Epochs.DatasetState.ReplaceActive` | src/dataset_rt/dataset.rs:416-424 | A nonempty table starts a new stream of its own; an empty one changes nothing |
| `Epochs.DatasetState.EpochPlan` | src/dataset_rt/dataset.rs:320-359 | All windows since the last update, whatever their lengths, concatenate to one uninterrupted stream; a plan is refused exactly on draw overflow or invalid weights, leaving the cursors alone |
| `Loader.ReaderAdapter.constructor` | dataset_rt/integrations/loader.py:99-115 | Setup makes a generator and yields nothing; no window is opened yet |
| `Loader.ReaderAdapter.OpenStream` | dataset_rt/dataset.py:195-207 | The first sample asked for opens the window at the cursor; a refused plan changes nothing, a refused start loses the window, and neither happens in a calm run that may plan |
| `Loader.ReaderAdapter.Advance` | src/dataset_rt/runtime.rs:187-233 | A suspended generator yields the next row of its window, ends at its end, or fails; a read error loses the rest of the window, a raising transformation one sample |
| `Loader.ReaderAdapter.Step` | dataset_rt/integrations/loader.py:194-201 | An iterator that is over is replaced by a new one that has a sample to give; where all can be read, the transformation alone decides the fate of the next position |
| `Loader.ReaderAdapter.ReadableIsFaultless` | src/dataset_rt/runtime.rs:187-233 | If every row of the dataset's stream can be read, the open iterator cannot fail |
| `Loader.ReaderAdapter.Pass` | dataset_rt/integrations/loader.py:184-201 | A pass yields the wanted samples, or stops at a counted read or transform error, or because the dataset refuses another window; a quiet pass that may plan succeeds |
| `Loader.ReaderAdapter.Uninterrupted` | dataset_rt/integrations/loader.py:184-201 | All passes together yield one uninterrupted stream if and only if none of them ended in a read or transform error |
| `Loader.KeptWhole` | dataset_rt/integrations/loader.py:184-201 | The yielded rows are the covered ones without the lost positions, and are a prefix exactly when nothing was lost |
| `Loader.LostSample` | dataset_rt/integrations/loader.py:203-207 | A run that shows the failure: over rows 0 and 1 an error on the first sample makes the passes yield row 1 alone |
| `Runtime.RuntimeIterator.Prepare` | src/dataset_rt/runtime.rs:109-139 | A new iterator has delivered nothing and has an empty window |
| `Runtime.RuntimeIterator.ScheduleNext` | src/dataset_rt/runtime.rs:150-181 | One more planned row is put in flight under the next sequence number; without a fault this succeeds |
| `Runtime.RuntimeIterator.ScheduleAvailable` | src/dataset_rt/runtime.rs:142-147 | The window is filled to the parallelism or to the end of the plan, never beyond |
| `Runtime.RuntimeIterator.Buffer` | src/dataset_rt/runtime.rs:222-231 | A result that came early waits under its number; a second result for the same number is impossible |
| `Runtime.RuntimeIterator.Emit` | src/dataset_rt/runtime.rs:198-221 | The sample at the head of the window is delivered and the window moves by one |
| `Runtime.RuntimeIterator.Fail` | src/dataset_rt/runtime.rs:187-233 | After an error the iterator is finished and cancelled |
| `Runtime.RuntimeIterator.Receive` | src/dataset_rt/runtime.rs:203-216 | Waiting is never in vain: some job is in flight, and its result is the planned read or an error |
| `Runtime.RuntimeIterator.Next` | src/dataset_rt/runtime.rs:187-233 | Whatever order jobs finish in, the sample returned is the next of the plan; the end comes exactly at the total; an error is terminal; without faults there is no error |
| `Runtime.RuntimeIterator.OutstandingFits` | src/dataset_rt/runtime.rs:142-147 | In flight plus pending equals scheduled minus emitted, which is at most the parallelism and never underflows |
| `Runtime.Start` | src/dataset_rt/runtime.rs:109-139 | The parallelism is the least of workers, prefetch and plan length; an empty plan is refused |
| `Runtime.Drain` | src/dataset_rt/runtime.rs:184-234 | A whole epoch, for every completion order: a prefix of the plan in order, the whole of it unless there is one error, and all of it when nothing fails |
| `Seeds.MixRoundTrip` | dataset_rt/integrations/loading.py:145-149 | The finalizer has an explicit inverse on all 64-bit words |
| `Seeds.MixInjective` | dataset_rt/integrations/loading.py:145-149 | Different words never mix to the same word |
| `Seeds.DeriveSeedInjective` | dataset_rt/integrations/loading.py:152-168 | For a fixed base seed, different (rank, worker) pairs of 32-bit numbers get different seeds |
| `Seeds.DeriveSeedInjectiveInBase` | dataset_rt/integrations/loading.py:152-168 | For a fixed (rank, worker), different base seeds give different seeds |
| `Seeds.SeedVectors` | tests/test_reader_contracts.py:175-182 | The four frozen seed vectors of version 1 |
| `Seeds.SeedRefusals` | dataset_rt/integrations/loading.py:161-164 | Exactly the ids that do not fit 32 bits are refused |
| `Partition.SplitTouches` | dataset_rt/integrations/loading.py:183-195 | Neighbouring parts touch, the first starts at zero and the last ends at the count |
| `Partition.SplitBalanced` | dataset_rt/integrations/loading.py:183-195 | Parts differ by at most one row, the longer ones first |
| `Partition.RankBudgetAdjusts` | dataset_rt/integrations/loading.py:102-119 | Padding adds less than one sample per rank; trimming removes less than one batch per rank and leaves whole batches |
| `Partition.BudgetsExact` | dataset_rt/integrations/loading.py:212-230 | Worker budgets sum to the rank budget, and their full and started batch counts sum to the rank's |
| `Partition.OnePartialWorker` | dataset_rt/integrations/loading.py:212-230 | At most one worker has a partial batch |
| `Partition.NoneIdleWhileOthersHoard` | dataset_rt/integrations/loading.py:212-230 | A worker that could have had a batch goes without only if nobody has two |
| `Partition.BatchesBalanced` | dataset_rt/integrations/loading.py:212-230 | Whole batches differ by at most one among workers with a budget, earlier workers first; the tail is on the last of them; no worker past the populations has a budget |
| `Partition.ActiveIsPrefix` | dataset_rt/integrations/loading.py:212-230 | The workers with a budget come first |
| `Partition.CountActive` | dataset_rt/integrations/loader.py:270-270 | The counted workers are those with a positive budget |
| `Partition.AssignSpans` | dataset_rt/integrations/loader.py:272-297 | The running offset gives the active workers touching spans that exactly fill the rank's span |
| `Partition.PreparePartitions` | dataset_rt/integrations/loader.py:241-297 | The quotas are the worker budgets of the rank; in split mode active workers tile the rank's span, each with its budget as population in a full pass and even populations otherwise; in replicate mode each has the whole population; refused only for numbers past a machine word or, when shuffling, worker ids past 32 bits |
| `Partition.RankSpanNonempty` | dataset_rt/integrations/loader.py:254-271 | A rank with a positive budget has a nonempty span |
| `Partition.AllRanksTile` | dataset_rt/integrations/loader.py:254-297 | All spans of all ranks and workers tile [0, P) with no gap or overlap, even with different worker counts per rank |
| `Partition.RankSpanIsExpected` | dataset_rt/benchmarks/distributed.py:329-360 | The rank's span equals the one the benchmark's own validator computes |
| `Partition.SelectionIsCyclic` | dataset_rt/reconstruction.py:111-135 | All three selection cases (whole table, slice, wrapped) give the rows at consecutive cyclic positions of the shared order |
| `Partition.RowMultiplicity` | dataset_rt/reconstruction.py:111-135 | Among the first P cyclic positions each row occurs P / rows times, once more if its position is below the remainder |
| `Partition.TilingReaches` | dataset_rt/integrations/loader.py:254-297 | Consumers whose spans tile [0, P) choose each row exactly that often |
| `Partition.AllSelectionsAreChosen` | dataset_rt/reconstruction.py:111-135 | The selections built for all plans, one after the other, are the cyclic rows of their spans |
| `Partition.PartitionCoverage` | dataset_rt/integrations/loader.py:254-297 | Over the selections built for all ranks and workers in split mode, every metadata row is chosen the floor or the ceiling of P / rows times, for every row, rank, worker and batch count |
| `Records.LittleEndianRoundTrip` | src/dataset_rt/storage.rs:989-1010 | Little-endian bytes of any width give the number back |
| `Records.U64RoundTrip` | src/dataset_rt/storage.rs:1022-1027 | Reading a written 64-bit word gives it back |
| `Records.IndexRoundTrip` | src/dataset_rt/storage/index.rs:35-49 | Row i of a written index file is entry i, and a position past the end is refused, overflow of the byte position included |
| `Records.PayloadRoundTrip` | src/dataset_rt/compression.rs:77-135 | Decompression gives the payload back when the limit is at least its size; the size guard never refuses it |
| `Records.RowRoundTripsObject` | src/dataset_rt/storage.rs:931-974 | A row written as an object is read back as the same row |
| `Records.ObjectRoundTripsRow` | src/dataset_rt/storage.rs:931-974 | An object that fits the schema survives the way through a row, with no key lost or added |
| `Records.EnvelopeRoundTrip` | src/dataset_rt/storage.rs:885-929 | Splitting an encoded record gives metadata and payload back |
| `Records.EncodeStoredRecord` | src/dataset_rt/storage.rs:822-857 | A stored record is never empty, in either layout |
| `Records.RecordRoundTrip` | src/dataset_rt/storage.rs:822-883 | Both layouts, payload-only and whole-record, decode to what was encoded |
| `Records.LittleEndianBytes` | src/dataset_rt/storage.rs:989-1000 | The lowest byte comes first |
| `Records.IndexRowBytes` | src/dataset_rt/storage.rs:989-1010 | An index row is shard, offset and length as 64-bit words in that order |
| `Records.CompressionPolicies` | src/dataset_rt/compression.rs:8-46 | Which policies compress, and which compress the whole record |
| `Records.PayloadBytes` | src/dataset_rt/compression.rs:8-63 | A compressed payload is a 32-bit length and the codec's body; refused only by length or codec |
| `Records.EnvelopeBytes` | src/dataset_rt/storage.rs:885-909 | An envelope is the JSON length, the JSON and the payload; refused only by size |
| `Records.LayoutBytes` | src/dataset_rt/storage.rs:822-857 | v4 compresses and counts the whole envelope, v3 leaves the metadata readable and compresses and counts the payload alone |
| `Storage.TilingSameShard` | src/dataset_rt/storage.rs:449-482 | Appending to the open shard keeps the tiling of every shard from offset zero to its length |
| `Storage.TilingNewShard` | src/dataset_rt/storage.rs:371-394 | Rotating keeps the tiling, leaves no empty shard behind, and happens only where the next record would have gone over the limit; only a single-record shard may exceed it |
| `Storage.RotatesOnlyWhenFull` | src/dataset_rt/storage.rs:371-394 | In a finished cache neighbouring records share a shard exactly as long as the limit allows |
| `Storage.OpenNextShard` | src/dataset_rt/storage.rs:371-394 | Across a rotation every shard's uncompressed length stays the exact sum over its own records |
| `Storage.TotalsSameShard` | src/dataset_rt/storage.rs:449-482 | The same for a record appended to the open shard |
| `Storage.PlaceInSameShard` | src/dataset_rt/storage.rs:449-482 | Earlier records stay readable where they were, and raw sizes stay within the shard totals |
| `Storage.PlaceInNewShard` | src/dataset_rt/storage.rs:371-394 | The same across a rotation |
| `Storage.FirstSchema` | src/dataset_rt/storage.rs:400-408 | The schema fixed by a sample has its keys, each once, with the kinds of its values |
| `Storage.FixingSchemaKeepsContent` | src/dataset_rt/storage.rs:400-408 | Fixing a schema that is still empty does not disturb the records already stored |
| `Storage.CacheBuilder.constructor` | src/dataset_rt/storage.rs:256-283 | A new builder is valid and empty |
| `Storage.CacheBuilder.WriteNewShard` | src/dataset_rt/storage.rs:371-394 | The record becomes the first of the next shard; refused exactly when the shard id would overflow, with nothing changed |
| `Storage.CacheBuilder.WriteSameShard` | src/dataset_rt/storage.rs:449-482 | The record is appended; refused exactly when a shard length would overflow, with nothing changed |
| `Storage.CacheBuilder.Write` | src/dataset_rt/storage.rs:302-309 | Rotation and write together add exactly one record, or change nothing |
| `Storage.CacheBuilder.ValidateMetadata` | src/dataset_rt/storage.rs:396-432 | The schema is refixed while it is empty and never afterwards; accepted exactly when the metadata fits it |
| `Storage.CacheBuilder.PushSample` | src/dataset_rt/storage.rs:285-319 | Accepted exactly when metadata, encoding and shard numbers allow; then the sample is stored after all earlier ones, otherwise nothing stored changes |
| `Storage.CacheBuilder.WriteMetadata` | src/dataset_rt/storage.rs:564-596 | The metadata file is written exactly when files can be, there is a column, every row has all columns, and the strings fit |
| `Storage.CacheBuilder.Finish` | src/dataset_rt/storage.rs:321-369 | Accepted exactly when there are samples, each came with metadata, the strings fit and files can be written; the finished cache then holds every pushed sample |
| `Storage.CacheBuilder.AcceptsIsTaken` | src/dataset_rt/storage.rs:285-319 | Whether a sample is accepted depends only on the schema and the open shard, by the function `Taken` |
| `Storage.EmptyMetadataFirst` | src/dataset_rt/storage.rs:400-408 | A run that shows the failure: a sample without metadata and any one with metadata are both accepted, the rows no longer all fit, and finish refuses; only the JSON of these two objects has to be short |
| `Storage.RowsFitExactly` | src/dataset_rt/storage.rs:396-432 | "All rows fit the schema" is not kept by every push: it holds if and only if the schema is empty or no sample without metadata was pushed |
| `Storage.AssembledHolds` | src/dataset_rt/storage.rs:321-369 | The files written by finish record the tiling, the totals and the content |
| `Storage.ReadPlaced` | src/dataset_rt/storage.rs:76-122 | Reading index i reaches exactly the bytes stored for it, within the shard's total uncompressed length |
| `Storage.DecodeEncoded` | src/dataset_rt/storage.rs:822-883 | What the builder encoded decodes to the pushed payload and metadata |
| `Storage.ReadRoundTrip` | src/dataset_rt/storage.rs:76-122 | After any accepted pushes and finish, reading i returns the i-th payload and metadata, in both layouts, with and without validation |
| `Storage.ReadPastEnd` | src/dataset_rt/storage/index.rs:40-49 | Reading past the end is refused |
| `Storage.ReadsInBounds` | src/dataset_rt/storage.rs:76-122 | Whatever is read lies within its shard as the manifest gives it, and with validation agrees with the metadata rows |
| `ReaderCache.ShardReaderCache.constructor` | src/dataset_rt/storage.rs:148-154 | A new cache holds no readers |
| `ReaderCache.ShardReaderCache.MarkRecent` | src/dataset_rt/storage.rs:168-172 | The path moves to the recent end, the others keep their order |
| `ReaderCache.ShardReaderCache.EvictIfFull` | src/dataset_rt/storage.rs:184-191 | When 64 readers are open, the least recently used one goes |
| `ReaderCache.ShardReaderCache.OpenReader` | src/dataset_rt/storage.rs:175-181 | A reader opens exactly when its file exists, and room is made first |
| `ReaderCache.ShardReaderCache.Read` | src/dataset_rt/storage.rs:97-111 | Over every sequence of reads the bytes equal the file slice, open readers are the duplicate-free recency list, and at most 64 are open |
| `ReaderCache.ServeKeepsSuffix` | src/dataset_rt/storage.rs:157-191 | The recency list is always the newest part of the full history of distinct paths |
| `ReaderCache.SuffixKeepsNewest` | src/dataset_rt/storage.rs:184-191 | Whatever was evicted was used before everything that is kept |
| `Manifests.ParseIsWellFormed` | src/dataset_rt/storage/manifest.rs:116-152 | A parsed manifest has its fields once, no reserved extras, and a compression scope that agrees with its version |
| `Manifests.SerializeRoundTrip` | src/dataset_rt/storage/manifest.rs:93-152 | Every well-formed manifest of any version parses back to itself |
| `Manifests.UpgradeIsWellFormed` | src/dataset_rt/storage/manifest.rs:62-84 | An upgrade keeps the known fields, carries the resolved id, is idempotent and parses back |
| `Manifests.UpgradeKeepsJson` | src/dataset_rt/storage/manifest.rs:70-84 | On the JSON: an upgrade sets version and identity and leaves every other field, extensions included, as it was; an identified manifest is unchanged |
| `Manifests.ScopeMismatchRefused` | src/dataset_rt/storage/manifest.rs:140-150 | A shard compressed in the other scope than the version's is refused |
| `Manifests.MalformedRefused` | src/dataset_rt/storage/manifest.rs:116-139 | Repeated fields, unknown versions, missing storage fields and missing identities are refused |
| `Manifests.IdentityRules` | src/dataset_rt/storage/manifest.rs:62-67 | Only v2 takes its identity from the list position; a stored identity is kept |
| `Migration.Migrator.constructor` | src/dataset_rt/storage/migration.rs:47-58 | A run starts from the published manifests |
| `Migration.Migrator.CreateTemporary` | src/dataset_rt/storage/migration.rs:228-244 | Names left by killed runs are skipped |
| `Migration.Migrator.Replace` | src/dataset_rt/storage/migration.rs:187-198 | The manifest changes in one step or not at all, and the temporary is gone either way |
| `Migration.Migrator.UpdateTarget` | src/dataset_rt/storage/migration.rs:168-204 | A manifest gone or changed since inspection is left alone; otherwise it is untouched without a status and upgraded with one, and the status tells exactly whether the last step succeeded: only a sync failure after the rename reports doubtful durability |
| `Migration.Migrator.Preflight` | src/dataset_rt/storage/migration.rs:88-110 | Accepted collections have every cache inspected and no path or id twice; without faults it refuses only when no targets could be accepted |
| `Migration.Migrator.Apply` | src/dataset_rt/storage/migration.rs:60-84 | The entries name exactly the prefix of targets done, at every stop |
| `Migration.Migrator.Update` | src/dataset_rt/storage/migration.rs:47-85 | At every instant the manifests are those after a whole number of targets; a failed preflight changes nothing; without faults an acceptable collection succeeds |
| `Migration.RefusedForCause` | src/dataset_rt/storage/migration.rs:88-110 | A preflight refusal cannot be avoided by any choice of targets |
| `Migration.StillUntouched` | src/dataset_rt/storage/migration.rs:168-186 | Work on earlier targets leaves later ones as they were inspected |
| `Migration.ManifestRulesSound` | src/dataset_rt/storage/migration.rs:113-156 | Inspection names the cache's own path, id and current digest |
| `Migration.UpgradeIsComplete` | src/dataset_rt/storage/manifest.rs:70-84 | The upgraded content parses to the upgraded manifest, and as JSON differs from the original in version and identity only |
| `Migration.InspectsExactly` | src/dataset_rt/storage/migration.rs:113-156 | A target is accepted exactly when its manifest is there, parses, and is still the loaded one or its upgrade under the loaded identity; it needs an update exactly while it is v2 |
| `Migration.LoadedIdentities` | src/dataset_rt/storage/manifest.rs:62-67 | A loaded list takes identities from positions for v2 and from the stored field otherwise |
| `Migration.InspectUpgraded` | src/dataset_rt/storage/migration.rs:113-156 | A rerun recognises its own upgrades and asks for no update |
| `Migration.PreflightResumes` | src/dataset_rt/storage/migration.rs:88-156 | After a stop anywhere the preflight accepts the dataset that is still loaded |
| `Migration.ResumeConverges` | src/dataset_rt/storage/migration.rs:47-85 | Finishing from any prefix gives what an undisturbed run gives |
| `Migration.MigrationResumes` | src/dataset_rt/storage/migration.rs:47-204 | A retry with the dataset still loaded converges to the manifests of an undisturbed run, and a run after that updates nothing |
| `Migration.ReopenedPreflights` | src/dataset_rt/storage/migration.rs:88-156 | After a kill anywhere the list reopened in its original order passes the preflight with the same identities |
| `Migration.ReopenedMigrationResumes` | src/dataset_rt/storage/migration.rs:47-204 | The rerun over the reopened list converges to the manifests of an undisturbed run, and once all are done a reopened list has nothing left to update |
| `Migration.CrashesCompose` | src/dataset_rt/storage/migration.rs:47-85 | A rerun that is stopped again leaves the state of a longer first run, so any number of crashes may follow one another |
| `Migration.CrashAtomic` | src/dataset_rt/storage/migration.rs:168-204 | At every instant each manifest is its original or the complete upgrade with the resolved id |
| `Migration.ReloadKeepsIdentities` | src/dataset_rt/storage/manifest.rs:62-67 | Reopening the same list in the same order after any interruption resolves every id as before |
| `SourceCommit.SourceCommits` | src/dataset_rt/writer/pipeline.rs:444-501 | The events of one source fill its slot with its own outcome and leave no temporary, with no internal error |
| `SourceCommit.PartOfSource` | src/dataset_rt/writer/pipeline.rs:503-507 | Stopping inside a source and cleaning up leaves no trace of it |
| `SourceCommit.AfterSources` | src/dataset_rt/writer/pipeline.rs:120-179 | The one-by-one reference: slots below k filled by their own source, the others empty, no leftovers of attempted sources |
| `SourceCommit.CommitsSources` | src/dataset_rt/writer/pipeline.rs:430-501 | Committing the whole stream event by event equals handling sources one by one |
| `SourceCommit.PrefixKeepsCompleted` | src/dataset_rt/writer/pipeline.rs:364-374 | Stopping the stream at any event and cleaning up leaves exactly what the completed sources produced |
| `SourceCommit.FinalPaths` | src/dataset_rt/writer/pipeline.rs:583-620 | A source's path holds its complete cache exactly when it succeeded, and nothing otherwise |
| `SourceCommit.OtherPaths` | src/dataset_rt/writer/pipeline.rs:583-638 | Paths of no attempted source are as they were |
| `SourceCommit.ResultsAreTrue` | src/dataset_rt/writer/pipeline.rs:583-638 | Success holds only for complete or previously existing caches at their path; a failed attempt leaves none; no attempted source keeps a temporary |
| `SourceCommit.OutcomeIsRight` | src/dataset_rt/writer/pipeline.rs:120-205 | Each source's outcome read off the source and the directory alone: no readable name, an existing cache, or a write |
| `SourceCommit.ReuseExactly` | src/dataset_rt/writer/pipeline.rs:192-205 | With a cache at its path a source succeeds exactly when reuse is on and the cache loads where validation asks for it |
| `SourceCommit.MisplacedEvents` | src/dataset_rt/writer/pipeline.rs:456-501 | A slot is filled once, a source begins only when none is under way, and samples and ends need one |
| `SourceCommit.TemporaryRemains` | src/dataset_rt/writer/pipeline.rs:144-152 | A temporary under a source's name remains if and only if it was there before and so was the source's cache |
| `SourceCommit.LeftoverStays` | src/dataset_rt/writer/pipeline.rs:144-147 | A directory that shows it: the source succeeds by reuse and the leftover beside its cache stays |
| `Pipeline.MirrorsStep` | src/dataset_rt/writer/pipeline.rs:444-454 | Leftovers of sources not reached yet never influence a commit and are never touched by one |
| `Pipeline.ExistsAsBefore` | src/dataset_rt/writer/pipeline.rs:120-150 | The existence check made while earlier sources are still being committed gives the answer of the untouched directory |
| `Pipeline.SourceListPipeline.constructor` | src/dataset_rt/writer/pipeline.rs:313-331 | A new pipeline is in step with the reference and has sent nothing |
| `Pipeline.SourceListPipeline.CommitEvent` | src/dataset_rt/writer/pipeline.rs:444-454 | Committing the next event in order never meets an internal error |
| `Pipeline.SourceListPipeline.CommitReady` | src/dataset_rt/writer/pipeline.rs:430-442 | Contiguous events are committed in ingestion order; afterwards the next one is still on its way |
| `Pipeline.SourceListPipeline.Receive` | src/dataset_rt/writer/pipeline.rs:377-394 | Whichever job comes back joins the reorder buffer under its own number, a duplicate is impossible, and what is contiguous is committed |
| `Pipeline.SourceListPipeline.CompleteOne` | src/dataset_rt/writer.rs:416-428 | The wait ends with some job, or with an interrupt if a signal is there |
| `Pipeline.SourceListPipeline.Send` | src/dataset_rt/writer/pipeline.rs:286-347 | Events go out under consecutive numbers, receiving first exactly when the credit is used up; interrupted exactly by a signal, refused exactly when numbers run out |
| `Pipeline.SourceListPipeline.SendSource` | src/dataset_rt/writer/pipeline.rs:150-179 | An opened source sends begin, its samples and exactly one end or abort |
| `Pipeline.SourceListPipeline.SendSamples` | src/dataset_rt/writer/pipeline.rs:207-247 | Samples are sent in order up to the first signal |
| `Pipeline.SourceListPipeline.Reach` | src/dataset_rt/writer.rs:610-621 | Removing a leftover temporary at ingestion keeps the pipeline in step with the reference |
| `Pipeline.SourceListPipeline.IngestOne` | src/dataset_rt/writer/pipeline.rs:120-205 | What is sent for a source is exactly its share of the stream |
| `Pipeline.SourceListPipeline.IngestAll` | src/dataset_rt/writer/pipeline.rs:96-118 | All sources together send exactly the whole stream |
| `Pipeline.SourceListPipeline.CleanUp` | src/dataset_rt/writer/pipeline.rs:503-507 | The sources whose events are all committed are kept, the one in progress leaves no trace |
| `Pipeline.SourceListPipeline.Drain` | src/dataset_rt/writer/pipeline.rs:350-369 | When nothing is outstanding every event sent has been committed and nothing pends |
| `Pipeline.SourceListPipeline.FinishIncomplete` | src/dataset_rt/writer/pipeline.rs:364-374 | Without another signal every accepted event is committed; the sources complete by then are kept and the one in progress leaves no trace |
| `Pipeline.SourceListPipeline.Finish` | src/dataset_rt/writer/pipeline.rs:350-361 | Results and directory equal the reference; interrupted only by a signal, and then exactly the sources committed by then are kept |
| `Pipeline.SourceListPipeline.Run` | src/dataset_rt/writer/pipeline.rs:47-71 | A run ends normally only if no signal came before its last event; otherwise it stopped at the first signal with the completed sources kept |
| `Pipeline.EnsureUnique` | src/dataset_rt/writer/pipeline.rs:73-94 | True exactly when readable names are pairwise different |
| `Pipeline.CompleteResults` | src/dataset_rt/writer/pipeline.rs:651-659 | An error exactly when a slot is empty |
| `Pipeline.WriteSourceList` | src/dataset_rt/writer/pipeline.rs:47-71 | For every source list, completion order and pattern of signals: the right answer for each source and the one-by-one directory; or, at the first signal, exactly the sources committed by then, with leftovers not reached untouched; an internal error never happens |
| `Pipeline.FirstSignalDecides` | src/dataset_rt/writer/pipeline.rs:364-374 | Without a second signal an interrupted run has committed exactly the events before the first one |
| `Pipeline.CompletedSourcesKept` | src/dataset_rt/writer/pipeline.rs:364-374 | A successful source whose events were all committed is complete at its path however the run ended |
| `Pipeline.SourceListPipeline.PendingBounded` | src/dataset_rt/writer/pipeline.rs:334-394 | Between calls the reorder buffer is empty with one job at a time and otherwise holds all events sent but one at most; so it is bounded by the parallelism on every run when that is one or the stream has at most one event more |
| `Pipeline.CongestedRun` | src/dataset_rt/writer/pipeline.rs:334-394 | Otherwise it is not: for every source list and every parallelism from two on, the run whose first event comes back last fills the buffer with all other events, which exceeds the parallelism exactly for longer streams |
| `Supervisor.ChildKeepsInv` | dataset_rt/writer.py:154-183 | Whatever a child does, its mailbox and pipe fit the parent's view of it, and it never starts on a job it was not given |
| `Supervisor.TemporariesDisjoint` | dataset_rt/writer.py:223-230 | No two active workers share a temporary path |
| `Supervisor.NobodyWrites` | dataset_rt/writer.py:186-195 | Once its own child is done with a job, no live child holds it |
| `Supervisor.FinishKeepsLedger` | dataset_rt/writer.py:369-373 | Recording a child's result moves its index from the active workers to the outcomes |
| `Supervisor.DispatchKeepsLedger` | dataset_rt/writer.py:411-421 | Dispatch moves the next index from untaken to held by exactly one worker |
| `Supervisor.DispatchKeepsExclusive` | dataset_rt/writer.py:333-354 | An idle worker's mailbox is empty, so putting the job cannot fail, and no job is held twice |
| `Supervisor.SourceSupervisor.constructor` | dataset_rt/writer.py:265-294 | All children start with an empty mailbox and nothing recorded |
| `Supervisor.SourceSupervisor.CleanUp` | dataset_rt/writer.py:192-195 | A temporary is removed only while no live child has its job |
| `Supervisor.SourceSupervisor.Complete` | dataset_rt/writer.py:369-373 | The result is recorded under the worker's own index, the worker goes idle, and its temporary is removed |
| `Supervisor.SourceSupervisor.Enlist` | dataset_rt/writer.py:367-368 | A ready message can come only from a starting worker |
| `Supervisor.SourceSupervisor.Poll` | dataset_rt/writer.py:357-389 | A waiting message is heard first, so a result is recorded even if its child has died since; then death, then the deadline; a protocol violation is out of reach |
| `Supervisor.SourceSupervisor.PollAll` | dataset_rt/writer.py:403-409 | Every worker is polled, none is left past its deadline unreported, and workers only become idle; a calm round fails nowhere |
| `Supervisor.InTheWay` | dataset_rt/writer.py:203-209 | A temporary in the way of the next source is always one that was there at the start |
| `Supervisor.SourceSupervisor.Dispatch` | dataset_rt/writer.py:333-354 | The next index is taken once: held by the idle worker exactly when the source can be dispatched, recorded as refused otherwise |
| `Supervisor.SourceSupervisor.Feed` | dataset_rt/writer.py:410-421 | A worker is fed until it is busy or no index is left |
| `Supervisor.SourceSupervisor.Supervise` | dataset_rt/writer.py:392-427 | Supervision always ends; indices stay split into outcomes, active and untaken, and every outcome is the one its source must come to; a normal end has all of them, and a calm run ends normally |
| `Supervisor.SourceSupervisor.Retire` | dataset_rt/writer.py:252-261 | A dead child's job is given up and only then its temporary is removed |
| `Supervisor.SourceSupervisor.StopWorker` | dataset_rt/writer.py:241-262 | A child that survives farewell, terminate and kill keeps its temporary and its owner; one that stops gives both up |
| `Supervisor.SourceSupervisor.StopAll` | dataset_rt/writer.py:472-482 | Every child is tried; when all are stopped only the temporaries found at the start remain |
| `Supervisor.Preflight` | dataset_rt/writer.py:297-330 | Accepted exactly when no two usable names share an identity; otherwise every source gets its own error and nothing starts |
| `Supervisor.ExpectedIsDue` | dataset_rt/writer.py:485-503 | What the ledger expects of a job is what its source is due: the native writer's verdict under the caller's directory, or its own refusal |
| `Supervisor.WriteParallel` | dataset_rt/writer.py:430-503 | One result per source in input order: what the source is due, or the cause that stopped the pool; only a stopped pool leaves any of the latter, a calm run none; temporaries are left as they were found; a calm run starts one child per source up to the limit |
| `PrefixOffsets.BuildOffsets` | src/dataset_rt/arrow_metadata.rs:27-43 | Offsets are the prefix sums, and the only error is an overflowing total |
| `PrefixOffsets.PartitionPoint` | src/dataset_rt/arrow_metadata.rs:91-95 | The bisection point: everything before it is at most the row, everything from it on is greater |
| `PrefixOffsets.Locate` | src/dataset_rt/arrow_metadata.rs:91-100 | The block found starts at or before the position, and contains it exactly when it is below the total |
| `PrefixOffsets.LocateInverts` | src/dataset_rt/runtime.rs:294-321 | Searching the offset of any row gives that row back, empty blocks notwithstanding |
| `PrefixOffsets.FlatAt` | src/dataset_rt/arrow_metadata.rs:79-101 | Indexing the concatenation is indexing the block at its offset |
| `ArrowViews.New` | src/dataset_rt/arrow_metadata.rs:27-43 | A table shows the concatenation of its batches; refused exactly on row overflow |
| `ArrowViews.Select` | src/dataset_rt/arrow_metadata.rs:46-61 | Refused exactly on nulls or rows out of range; otherwise the view shows the selected rows in order, repeats included |
| `ArrowViews.ArrowMetadata.Location` | src/dataset_rt/arrow_metadata.rs:79-101 | Found exactly for positions inside the view, always at an existing row |
| `ArrowViews.ArrowMetadata.LocationShows` | src/dataset_rt/arrow_metadata.rs:79-101 | The row found is the one flat indexing shows, even with empty batches |
| `ArrowViews.MetadataReader.SharedBatch` | src/dataset_rt/arrow_metadata.rs:212-218 | A nonempty stretch of the view of at most 65,536 rows that ends only at the limit, the end, or a row of another batch |
| `ArrowViews.MetadataReader.SelectedBatch` | src/dataset_rt/arrow_metadata.rs:221-237 | The same for selected rows; it ends only at the limit, the end, or a row of another batch |
| `ArrowViews.MetadataReader.Next` | src/dataset_rt/arrow_metadata.rs:189-207 | No batch exactly at the end, otherwise the next stretch |
| `ArrowViews.Export` | src/dataset_rt/arrow_metadata.rs:185-237 | Reading to the end terminates with nonempty batches of at most 65,536 rows that concatenate to the view |
| `Identities.CacheLookup` | src/dataset_rt/dataset.rs:594-603 | Accepted exactly for distinct cache ids, and then inverse to the list |
| `Identities.IdentityRoundTrip` | src/dataset_rt/samples_metadata.rs:486-517 | Every valid identity has a physical index below the total that locates back to it, and the direct read finds the same row |
| `Identities.UnknownIdentity` | src/dataset_rt/samples_metadata.rs:486-517 | Any other pair is refused by both paths |
| `Identities.PhysicalRoundTrip` | src/dataset_rt/runtime.rs:294-321 | Exactly the indices below the total locate a sample, whose identity maps back to the index |
| `CacheLoading.InsertSorts` | src/dataset_rt/dataset.rs:583-591 | Insertion by position keeps the list ascending and loses nothing |
| `CacheLoading.SortedByPath` | src/dataset_rt/dataset.rs:583-591 | Sorting by position puts each cache at its own path's place |
| `CacheLoading.Gather` | src/dataset_rt/dataset.rs:531-562 | Any completion order gathers each position exactly once with its own path's cache; an error is a real load error |
| `CacheLoading.LoadCaches` | src/dataset_rt/dataset.rs:531-591 | The caches come back in path order, or an error for an empty list or a cache that does not load |
| `EndToEnd.LoadsPushed` | src/dataset_rt/runtime.rs:242-262 | A physical index below the total loads the sample at that place among all that were pushed, across all caches |
| `EndToEnd.DrainEpoch` | src/dataset_rt/runtime.rs:184-262 | Draining an epoch over finished caches yields the pushed payloads and metadata in plan order, for every plan and completion order, and all of them when nothing fails |
| `EndToEnd.ShelfIsReadable` | dataset_rt/integrations/loader.py:184-201 | A loader over finished caches in a calm run can read every row of its stream, so its quiet passes succeed |
| `PublishedCaches.AcceptedIsTaken` | src/dataset_rt/writer/pipeline.rs:562-581 | A source whose samples the pipeline accepts is one that the builder takes in full |
| `PublishedCaches.Build` | src/dataset_rt/storage.rs:256-369 | The builder over a source succeeds exactly by the verdicts the pipeline uses, and the cache holds the samples |
| `PublishedCaches.WriteThenRead` | src/dataset_rt/writer/pipeline.rs:47-71 | After a normal run a source that succeeded has its complete cache at its path, and reading that cache gives back every sample of the source in order, with and without validation |
| `MetadataBatches.ColumnFits` | src/dataset_rt/storage.rs:598-631 | No column of an accepted batch exceeds the signed 32-bit offset limit |
| `MetadataBatches.MeasureRow` | src/dataset_rt/storage.rs:606-620 | A row is measured exactly when every string fits a 32-bit offset and its total a machine word |
| `MetadataBatches.MetadataBatchLen` | src/dataset_rt/storage.rs:598-631 | At least one row, at most the limits, as many as fit; the batch total cannot overflow, and an error names an unstorable row |
| `MetadataBatches.WriteBatches` | src/dataset_rt/storage.rs:564-596 | Fails exactly when some row cannot be stored; otherwise batches of 1 to 65,536 rows within 8 MiB or with all bytes in the first row concatenate to all rows, and each is cut only where a limit is reached |

## Left out

- LZ4 and Brotli (RFC 7932) codecs, SHA-256, Arrow IPC encoding, ChaCha8 and weighted sampling: foreign code; only the size-prefix guards and abstract functions are modelled.
- Conversion between Python and native values, pickling, memory mapping, file handles and flushing to disk: plumbing; durability appears only as the status of a migrated manifest.
- Mutex poisoning, allocation failure and panics, and a pool whose threads have died: a job yields exactly one result, and in `Pipeline` the pool accepts every job.
- Wall-clock time: a timeout is a free choice; `Supervisor` keeps a clock that only has to move forward.
- Failing removals of temporary directories: removal is taken to succeed, in `SourceCommit`, `Pipeline` and `Supervisor`.
- Signal handlers that raise something other than a keyboard interrupt or a system exit: not modelled in `Pipeline`.
- The single-source twin `SampleWritePipeline` in writer.rs: the same reorder-and-commit scheme with one source and no results list.
- A native source called `tmp`: the native writer does not reserve the name; the model keeps final and temporary paths apart, as the Python entry point does by refusing it.
- Seed fields of epoch and worker plans: seeds are treated in `Seeds` on their own.
- Floating-point weights and their sums: a weight table is either accepted or refused.
- Configuration and option parsing, progress output, profiling, logging, benchmarks beyond the span validator: a reading of each branch settles them.
- Row extraction and metadata visiting in samples_metadata.rs other than the identity lookup: element-wise conversion.
- Runtime.RuntimeIterator.ScheduleNext: after a refused job the plan may have moved on, so validity is not promised; the caller then fails the iterator at once.
- Supervisor.WriteParallel: which sources a stopped pool had already delivered depends on when children die, so that set is only named, not computed.
- The bytes at a published path: a directory entry records the samples of its cache, and `PublishedCaches` speaks of the cache the builder makes of them.
- An empty partition of the loader, and reuse of its native state in another process: the first yields nothing, the second is refused.
- Migration.Migrator.Check: only says that a run without faults never stops, because each hook may fail at will.
