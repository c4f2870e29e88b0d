# ECL pipeline engine: model and proofs

A Dafny model of the ECL pipeline engine (Extract, Cogitate, Load) and of the file and data algorithms beside it, with
proofs of what they promise. `dafny verify dfyconfig.toml` checks everything.

| files | what they model |
|---|---|
| `Graphs`, `Schedule`, `ScheduleProperties`, `ResourceGraph` | the scheduler: from the resources that stages declare to parallel batches |
| `Batch`, `BatchProperties` | one stage over its items: retries, permits, tasks that finish in any order |
| `Pool`, `State`, `RunnerModel`, `RunnerProperties`, `BatchEffects`, `Routing`, `ItemStates`, `BatchStates`, `PipelineRunner` | the runner object: enumeration, routing by stream, merging, checkpoints, finalisation |
| `Store` | the three-table transactional store against the two-cell store in memory |
| `Protocol`, `ProtocolProperties`, `Resume`, `Confluence` | every history of runs, store writes, crashes and resumes; what uninterrupted runs have in common |
| `Assemble`, `Aggregate`, `AggregateGroups`, `AggregateProperties`, `AggregateKeys`, `Doubles` | the two batch stages: indexed join, grouping, arithmetic on doubles |
| `Lifecycle` | archiving objects by copy and delete over requests that can be lost |
| `Drive`, `DriveTrails`, `DriveTermination` | the folder traversal of the Google Drive adapter, its filters, and when it ends |
| `Avro`, `AvroProperties` | conversion of JSON records by schema, and the Confluent header |
| `Seqs`, `Order`, `Ids`, `Json`, `Items` | sequences, string order and stable sort, shared datatypes |

How it is set up:

- Code that changes state is modelled by methods and classes (`StageResult`, `Runner`, the two stores, `Bucket`), each
  proved equal to a function or a relation; what the code promises is then proved of that function or relation.
- Concurrency is nondeterminism. `Batch.Tasks` is the transition system of the executor, and `ExecuteStageItems` takes
  an arbitrary enabled step at every turn. `Runner.ExecuteBatch` merges the results of the stages of a batch in an
  arbitrary order.
- Time, crashes and resumes are a second transition system, `Protocol.System`: the disk and, if one is alive, a process.
  `Runner.Run` is proved to take only steps of it, so what is proved of every history holds of the runner.
- What the network, the adapters and the stage handlers answer is a parameter (`process`, `listing`, `list`, `answers`,
  `encode`, glob matching), and so are parsing numbers, their text, and the rounding of every arithmetic operation.
  They are arbitrary unless a contract says otherwise.

Where the code and its comments disagree, or a promise holds only under a condition, the model follows the code and the
difference is a theorem:

- The schedule is documented to keep write-write conflicts out of a batch; the writers are never read.
  `WritersApartIff` says exactly when two writers are kept apart, `WriteConflictExample` is a schedule with a conflict.
- Incrementality is documented to skip unchanged items. Content hashes are filled in nowhere, so it never applies
  (`IncrementalityNeverApplies`); and an item that is marked is still executed by every stage that accepts it
  (`StaysUnchangedIff`).
- A resume is documented to continue the work. The pool of active items is not part of a checkpoint: after a crash no item
  ever changes again exactly when the next run has nothing to enumerate (`FrozenIff`). `CrashExample` reaches such a state
  with pending items; from there no batch can fail (`StarvedBatchesSucceed`) and the run can complete
  (`ResumeCompletesOnNothing`).
- A completed run chooses between a success and a failure action by its failed items. A failure ends the process before the
  checkpoint, so without push sources that count is always 0 there (`NoFailureIsPersisted`).
- The outputs of a batch stage are recorded with its first input; without an input they are dropped (`BatchAccounts`).
- A concurrency of 0 hangs every per-item stage that has items (`ExecuteStageItems`).
- Every join names a foreign key, but joins on one stream all use that of the last, and every missing or non-string key
  counts as the empty one (`JoinHonouredIff`, `NumbersJoin`).
- A composite group key tells a record's group-by values exactly when all of them are non-empty strings and none of several
  contains the separator (`KeyDeterminesIff`, `NumbersCollide`).
- Counts of groups add up to the count of the input; sums do so, and an average lies between the extremes, where addition
  and division are exact (`ExactSumsAddUp`, `ExactAverageIsBetween`). Rounding breaks the latter
  (`RoundedAverageEscapes`).
- A successful move archives a content exactly when nothing is moved away from its destination from its last namesake on,
  and that namesake brings the same content (`ArchivedIff`); two objects of one basename overwrite each other
  (`NamesakesOverwrite`).
- A Drive traversal ends exactly when no folder it reaches is below itself or some listing it reaches fails (`EndsIff`).
- A Drive path spells out all the names exactly when it does not start with an empty one (`PathSpellsAllNamesIff`).

## Model

| member | source | states |
|---|---|---|
| Graphs.TightIsLongest | crates/ecl-pipeline-topo/src/schedule.rs:81-105 | a layering in which every positive depth has a predecessor one layer down is the longest-chain layering |
| Graphs.LayeringHasNoCycle | crates/ecl-pipeline-topo/src/schedule.rs:107-115 | a graph with a dependency-respecting layering has no cycle |
| Graphs.WalkBack | crates/ecl-pipeline-topo/src/schedule.rs:107-115 | a non-empty set of nodes each with a predecessor in the set contains a cycle, reached backwards from any member |
| Graphs.LongestIsEarliest | crates/ecl-pipeline-topo/src/schedule.rs:81-94 | no layering places a node below the length of its longest chain |
| Schedule.BuildEdges | crates/ecl-pipeline-topo/src/schedule.rs:40-67 | the adjacency map is the creator-to-reader relation without self-edges, and each in-degree counts the distinct predecessors |
| Schedule.FollowDegree | crates/ecl-pipeline-topo/src/schedule.rs:97-102 | following an edge keeps every in-degree equal to the number of predecessors still waited for; the decrement never underflows and no stage is enqueued twice |
| Schedule.FollowDepth | crates/ecl-pipeline-topo/src/schedule.rs:89-95 | raising a neighbour's depth keeps depths above those of followed predecessors, and tight |
| Schedule.RelaxNeighbors | crates/ecl-pipeline-topo/src/schedule.rs:89-104 | after the inner loop all edges of the stage are followed with both invariants kept |
| Schedule.Kahn | crates/ecl-pipeline-topo/src/schedule.rs:73-105 | the loop ends with an empty queue, the processed count equal to the number of distinct stages taken, in-degrees and depths exact |
| Schedule.StuckIffBehindCycle | crates/ecl-pipeline-topo/src/schedule.rs:107-115 | a stage keeps a positive in-degree exactly when it is on or downstream of a cycle |
| Schedule.CycleIffStuck | crates/ecl-pipeline-topo/src/schedule.rs:107-108 | fewer stages are processed than listed exactly when the graph has a cycle |
| Schedule.ReportCycle | crates/ecl-pipeline-topo/src/schedule.rs:108-115 | the report lists, in input order, exactly the stages on or downstream of a cycle |
| Schedule.GroupByDepth | crates/ecl-pipeline-topo/src/schedule.rs:117-124 | bucket `i` lists, in input order, the stages of depth `i`, up to the greatest depth |
| Schedule.MakeBatches | crates/ecl-pipeline-topo/src/schedule.rs:117-134 | from tight depths come non-empty sorted batches, batch `i` holding exactly the stages with a longest chain of length `i` |
| Schedule.ComputeSchedule | crates/ecl-pipeline-topo/src/schedule.rs:30-135 | fails exactly when the creator-to-reader graph has a cycle, with the exact report; otherwise returns the longest-chain layering |
| Order.LessIff | crates/ecl-pipeline-state/src/ids.rs:11 | a name is less than another exactly when, where the two first differ, it ends or has the smaller character |
| ScheduleProperties.NamesAscend | crates/ecl-pipeline-topo/src/schedule.rs:126-129 | of two stages of a batch, the earlier name ends or has the smaller character where the two first differ |
| ScheduleProperties.DependenciesFirst | crates/ecl-pipeline-topo/src/schedule.rs:20-25 | the source of every dependency is in a strictly earlier batch |
| ScheduleProperties.EarliestBatches | crates/ecl-pipeline-topo/src/schedule.rs:24-25 | no valid layering places any stage earlier or uses fewer batches |
| ScheduleProperties.InExactlyOneBatch | crates/ecl-pipeline-topo/src/schedule.rs:121-124 | no stage is in two batches |
| ScheduleProperties.ScheduleUnique | crates/ecl-pipeline-topo/src/schedule.rs:117-134 | a dependency graph has exactly one schedule |
| ScheduleProperties.OrderIrrelevant | crates/ecl-pipeline-topo/src/schedule.rs:126-129 | listing the stages in another order gives the same graph and the same schedule |
| ScheduleProperties.ScheduleIsPermutation | crates/ecl-pipeline-topo/src/schedule.rs:117-134 | the batches flatten to a permutation of the stages |
| ScheduleProperties.ReportContainsCycle | crates/ecl-pipeline-topo/src/schedule.rs:107-115 | the reported stages contain a whole cycle, and each has a reported predecessor |
| ScheduleProperties.WritersApartIff | crates/ecl-pipeline-topo/src/schedule.rs:69-71 | two stages share a batch exactly when their longest chains are equally long, whatever they write |
| ScheduleProperties.WriteConflictExample | crates/ecl-pipeline-topo/src/schedule.rs:24-25 | two writers of one resource are scheduled into one batch |
| ResourceGraph.RegisterCreates | crates/ecl-pipeline-topo/src/resource_graph.rs:48-57 | registers one stage's creations, or stops at the first resource that has a creator |
| ResourceGraph.Build | crates/ecl-pipeline-topo/src/resource_graph.rs:38-82 | fails exactly when a resource occurs twice among all `creates` lists, naming the first repetition; otherwise all four tables are exact |
| ResourceGraph.ReadersOfReads | crates/ecl-pipeline-topo/src/resource_graph.rs:59-65 | a stage is listed as reader of a resource exactly when its specification reads it |
| ResourceGraph.CreationsCreate | crates/ecl-pipeline-topo/src/resource_graph.rs:48-57 | a creation is declared exactly when the specification of its stage creates it |
| ResourceGraph.GraphMatchesSpec | crates/ecl-pipeline-topo/src/resource_graph.rs:38-82 | the graph that is scheduled is the needs relation of the specification |
| ResourceGraph.ResolveSchedule | crates/ecl-pipeline-topo/src/resource_graph.rs:117-119 | specification to schedule: fails exactly on a duplicate creator or a cyclic need, otherwise returns the schedule of the needs relation |
| ResourceGraph.CreatorRunsFirst | crates/ecl-pipeline-topo/src/resource_graph.rs:112-119 | what a stage reads and another creates is created in a strictly earlier batch |
| Batch.ExecuteWithRetry | crates/ecl-pipeline/src/batch.rs:260-289 | the result is that of the last call made; all calls before it failed; there are at most max_attempts of them, or one when that is 0; on an error there are no fewer |
| Batch.RetrySettles | crates/ecl-pipeline/src/batch.rs:260-289 | exactly one outcome satisfies that description |
| Batch.StageResult.RecordSuccess | crates/ecl-pipeline/src/batch.rs:70-81 | appends one success and changes nothing else |
| Batch.StageResult.RecordSkipped | crates/ecl-pipeline/src/batch.rs:84-86 | appends one skip and changes nothing else |
| Batch.StageResult.RecordFailure | crates/ecl-pipeline/src/batch.rs:89-95 | appends one failure and changes nothing else |
| Batch.StepKeepsInvariant | crates/ecl-pipeline/src/batch.rs:118-154 | every step keeps each task in one place and within the permits, and shrinks the remaining work |
| Batch.RunsAreBounded | crates/ecl-pipeline/src/batch.rs:105-143 | no interleaving has more tasks in flight than permits, or more than three steps per item |
| Batch.StopsOnlyWhenDone | crates/ecl-pipeline/src/batch.rs:118-154 | an interleaving gets stuck exactly when everything is collected, or when there are items and no permits |
| Batch.ExecuteStageItems | crates/ecl-pipeline/src/batch.rs:112-181 | under every scheduling the result is the collection of all items in some completion order; it hangs exactly when concurrency is 0 and there are items |
| Batch.ExecuteStageBatch | crates/ecl-pipeline/src/batch.rs:188-241 | the first input carries all outputs, the others none; an error is recorded for every input after one attempt |
| BatchProperties.CollectedSums | crates/ecl-pipeline/src/batch.rs:152-171 | each list is the sum of the items' contributions, a failure carrying the full attempt count |
| BatchProperties.ExecutionsAgree | crates/ecl-pipeline/src/batch.rs:152-171 | any two completion orders give the same three multisets |
| BatchProperties.NothingLostOrRepeated | crates/ecl-pipeline/src/batch.rs:152-171 | every input id is in exactly one list, as often as it occurs among the inputs |
| BatchProperties.Classification | crates/ecl-pipeline/src/batch.rs:160-169 | `skip_on_error` decides which list is empty; every recorded failure used max_attempts attempts, or one when that is 0 |
| BatchProperties.BatchAccounts | crates/ecl-pipeline/src/batch.rs:203-241 | a batch stage accounts for every input id, and loses its outputs exactly when it had no input |
| Pool.MergeClosedForm | crates/ecl-pipeline/src/runner.rs:527-530 | merging results that do not interfere leaves what nobody consumed plus every output |
| Pool.MergeConfluence | crates/ecl-pipeline/src/runner.rs:527-530 | replacing consumed items by outputs, result by result, leaves the same multiset in any order of the results |
| Pool.MergeCommutesIff | crates/ecl-pipeline/src/runner.rs:527-530 | two results commute exactly when each takes the same items out of the other's outputs |
| Pool.ConsumedIffTaken | crates/ecl-pipeline/src/runner.rs:412-427 | a result consumes an id exactly when its stage's input streams accept a pool item with that id |
| Pool.RetainedInOrder | crates/ecl-pipeline/src/runner.rs:527-529 | the pool keeps exactly the items whose id is not consumed, in order |
| Routing.StageIsGiven | crates/ecl-pipeline/src/runner.rs:412-427 | a stage is given exactly the untagged items and those whose tag it lists, or all of them when it lists none or has no specification, in the order of the pool |
| Routing.ResultMentions | crates/ecl-pipeline/src/runner.rs:719-730 | a stage's result has an entry for exactly the ids of the items that go to it |
| Routing.TakenByNoneIff | crates/ecl-pipeline/src/runner.rs:719-730 | no stage of a batch takes an id exactly when no item with that id goes to any of them by the specification |
| Routing.BatchSettles | crates/ecl-pipeline/src/runner.rs:471-525 | after a successful batch a known item is Completed or Skipped if some item with its id went to some stage, and untouched if none did |
| Routing.UntaggedAreConsumed | crates/ecl-pipeline/src/runner.rs:719-730 | a successful batch with a stage consumes every untagged item: what the pool then holds of it are outputs, and the known items with its id are Completed or Skipped |
| Routing.OutputsAre | crates/ecl-pipeline/src/runner.rs:489-495 | a stage adds to the pool what its handler returns, in its first successful call for one of the items that go to it or in its call for all of them, with every field as returned but the stream, which is the stage's output stream if it has one |
| Routing.CountersCount | crates/ecl-pipeline/src/runner.rs:532-551 | the processed counter grows by the number of items the handler succeeds on, the skipped or the failed counter by the number of the others; the stage is Completed unless one failed, and the message names their number and the stage |
| BatchEffects.ResultsAgree | crates/ecl-pipeline/src/batch.rs:112-241 | any result a stage can return agrees, list by list, with the one collected in input order |
| BatchEffects.MergedPool | crates/ecl-pipeline/src/runner.rs:258-264 | the pool after merging results as they arrive is the pool merged result by result |
| BatchEffects.StageSucceedsIff | crates/ecl-pipeline/src/batch.rs:152-241 | a stage fails no item exactly when it skips errors or its handler succeeds on every accepted item within the attempts |
| BatchEffects.BatchSucceedsIff | crates/ecl-pipeline/src/runner.rs:217-268 | an execution of a batch succeeds exactly when every stage is known and fails no item, in whatever order they finish |
| BatchEffects.BatchLeaves | crates/ecl-pipeline/src/runner.rs:217-268 | whatever order tasks and stages finish in, a successful batch leaves in the pool the items no stage accepted, untouched, plus everything the stages put out, retagged; for stages that put out no id another stage of the batch takes |
| BatchEffects.ExecutionsLeaveTheSame | crates/ecl-pipeline/src/runner.rs:258-264 | two executions of a batch from the same state agree on success and on the pool |
| Confluence.BatchConfluence | crates/ecl-pipeline/src/runner.rs:217-268 | executed from two pools that are equal up to order, a batch succeeds on both or neither and leaves pools equal up to order |
| Confluence.RunsAgree | crates/ecl-pipeline/src/runner.rs:147-182 | two runs without a crash from one state and the same listing persist the same batches, agree on success, and leave pools equal up to order |
| BatchEffects.StaysUnchangedIff | crates/ecl-pipeline/src/runner.rs:345-363 | after a successful batch an item marked Unchanged still is exactly when no stage of the batch accepts a pool item with its id |
| BatchEffects.MarkingKeepsThePool | crates/ecl-pipeline/src/runner.rs:422-426 | whatever hashes are stored, a first enumeration leaves every listed item in the pool |
| BatchEffects.EnumerationFailsIff | crates/ecl-pipeline/src/runner.rs:278-285 | an enumeration step ends the process exactly when some adapter fails |
| BatchEffects.ExecutionFailsIff | crates/ecl-pipeline/src/runner.rs:162-169 | an execution step ends the process exactly when some stage of the batch is unknown or fails an item |
| State.UpdateStats | crates/ecl-pipeline-state/src/lib.rs:74-100 | the statistics are the totals over all sources, unchanged items counted by the source counter and by status |
| State.StatsCount | crates/ecl-pipeline-state/src/lib.rs:74-100 | processed and failed are the numbers of Completed and Failed items over all sources; the unchanged ones are counted on top of the sources' own counters |
| State.PrepareCheckpoint | crates/ecl-pipeline-state/src/checkpoint.rs:46-67 | the nested loops make exactly the items in Processing and the stages in Running Pending, set Interrupted, and change nothing else of any item or stage |
| State.ResumeChangesOnlyStatusIff | crates/ecl-pipeline-state/src/checkpoint.rs:46-67 | only the pipeline status changes exactly when nothing was mid-flight; nothing is mid-flight afterwards |
| Store.InMemoryStateStore.SaveCheckpoint | crates/ecl-pipeline-state/src/memory_store.rs:36-43 | the checkpoint cell is overwritten, the other kept |
| Store.InMemoryStateStore.SaveCompletedHashes | crates/ecl-pipeline-state/src/memory_store.rs:57-65 | the hash cell is overwritten, the other kept |
| Store.RedbStateStore.SaveCheckpoint | crates/ecl-pipeline-state/src/redb_store.rs:78-127 | a crash before the commit changes nothing; a committed write is the two-cell write |
| Store.RedbStateStore.LoadCheckpoint | crates/ecl-pipeline-state/src/redb_store.rs:134-190 | a consistent store never answers an error and returns the last committed checkpoint |
| Store.RedbStateStore.LoadPreviousHashes | crates/ecl-pipeline-state/src/redb_store.rs:197-249 | the accumulating loop returns exactly the stored hashes |
| Store.RedbStateStore.SaveCompletedHashes | crates/ecl-pipeline-state/src/redb_store.rs:256-333 | drain and insert leave exactly the new map, or, after a crash at any table operation, the old tables |
| Store.StepRefines | crates/ecl-pipeline-state/src/redb_store.rs:71-334 | every operation keeps the tables consistent and acts as the two-cell store does |
| Store.StoresAgree | crates/ecl-pipeline-state/src/memory_store.rs:35-66 | for every history of calls and crashes both stores give the same answers |
| Store.LatestIsStored | crates/ecl-pipeline-state/src/redb_store.rs:26-35 | in every history `latest_run_id` names a stored checkpoint that decodes |
| RunnerProperties.EnumeratesEverything | crates/ecl-pipeline/src/runner.rs:275-338 | when every adapter answers, each listed item is in the state of its source, Pending, with its name and a blank hash, the last of those with one id deciding; the counts match, and the pool holds the listings one after another |
| RunnerProperties.PoolSize | crates/ecl-pipeline/src/runner.rs:321-333 | the pool holds as many items as the sources list together |
| RunnerProperties.PoolHolds | crates/ecl-pipeline/src/runner.rs:321-333 | the j-th item of a source stands in the pool after all items of the sources before it and j of its own, with its id, name and type, the name and stream of its source, and no record |
| RunnerProperties.MarkedIff | crates/ecl-pipeline/src/runner.rs:345-363 | an item becomes Unchanged exactly when its content hash is stored under its id and not blank; nothing else of it changes |
| RunnerProperties.MarkedAreCounted | crates/ecl-pipeline/src/runner.rs:359 | the source's counter of unchanged items grows by the number of these items |
| RunnerProperties.ErrorIff | crates/ecl-pipeline/src/runner.rs:278-285 | enumeration fails exactly when some adapter does |
| RunnerProperties.ItemAfterMerge | crates/ecl-pipeline/src/runner.rs:471-525 | a merge leaves an item alone unless it consumes it; otherwise the last failure, else the last skip, else a success decides the status, with one stage record for each success |
| RunnerProperties.StatesCommuteIff | crates/ecl-pipeline/src/runner.rs:471-525 | the results of two stages leave the same item states in either order exactly when no known item is consumed by both |
| RunnerProperties.CountersAddUp | crates/ecl-pipeline/src/runner.rs:532-551 | a stage's counters grow by exactly the number of items it was given, and it is Completed exactly when nothing failed |
| ItemStates.MergedStates | crates/ecl-pipeline/src/runner.rs:258-264 | the item states after merging results as they arrive are those of marking one result after another |
| ItemStates.StatesAgreeIff | crates/ecl-pipeline/src/runner.rs:258-264 | the results of distinct stages leave the same item states in every order of arrival exactly when no two of them consume one known item |
| BatchStates.StatesDeterminedIff | crates/ecl-pipeline/src/runner.rs:217-268 | all successful executions of a batch from one state leave the same item states exactly when no known item is taken from the pool by two of its stages |
| PipelineRunner.Runner.New | crates/ecl-pipeline/src/runner.rs:69-136 | refuses exactly a drifted checkpoint; resumes from the prepared one, or starts with all scheduled stages Pending, all counters 0 and no sources; sequence 0 and an empty pool either way; the new runner is the creation step of the protocol, which there is exactly without drift |
| PipelineRunner.Runner.EnumerateSources | crates/ecl-pipeline/src/runner.rs:275-338 | state and pool are those of the sources listed in order up to the first that fails |
| PipelineRunner.Runner.ApplyIncrementality | crates/ecl-pipeline/src/runner.rs:345-363 | marks exactly the items whose non-empty stored hash equals their content hash, and recounts |
| PipelineRunner.Runner.SaveState | crates/ecl-pipeline/src/runner.rs:366-380 | persists the state under the next sequence number |
| PipelineRunner.Runner.MergeStageResult | crates/ecl-pipeline/src/runner.rs:452-563 | items, stage counters, pool and statistics after one result; fails with the first failure of the result |
| PipelineRunner.Runner.ExecuteBatch | crates/ecl-pipeline/src/runner.rs:217-268 | whichever order stages finish in, the new state merges results that the stages return for what each accepted from the pool at the start, all of them on success |
| PipelineRunner.Runner.SaveCompletedHashes | crates/ecl-pipeline/src/runner.rs:383-396 | an id is stored exactly when some source has it Completed, with its content hash in the last such source by name |
| RunnerModel.CompletedHashesAre | crates/ecl-pipeline/src/runner.rs:384-391 | the hashes computed from the sources, which a finalisation step writes, are exactly these |
| PipelineRunner.Runner.AdvanceBatch | crates/ecl-pipeline/src/runner.rs:161-171 | a turn extends the history by exactly the execution of the current batch and a checkpoint, and moves on by one batch; or by the failed execution alone |
| PipelineRunner.Runner.Finalise | crates/ecl-pipeline/src/runner.rs:177-182 | finalisation extends the history by exactly a hash write and the completing checkpoint |
| PipelineRunner.Runner.Run | crates/ecl-pipeline/src/runner.rs:147-182 | a whole run is a history of the protocol: a failed enumeration, or the enumeration or its skipping, the batches one by one each with its checkpoint, and then the completing steps without an error, the failed batch with one; it hangs only with concurrency 0 |
| Protocol.BatchKeepsGood | crates/ecl-pipeline/src/runner.rs:161-171 | a successful batch turns a state at batch k into a good state at batch k + 1: its stages Completed, later ones Pending, records in batch order |
| Protocol.EnumerationLists | crates/ecl-pipeline/src/runner.rs:275-338 | enumeration lists every item Pending, with a blank hash and no stage records |
| Protocol.NothingIsUnchanged | crates/ecl-pipeline/src/runner.rs:345-363 | over blank content hashes the incrementality check marks nothing |
| ProtocolProperties.SchedulesAreUsable | crates/ecl-pipeline-topo/src/schedule.rs:117-134 | every schedule the scheduler returns meets what the protocol needs of one |
| ProtocolProperties.StepKeeps | crates/ecl-pipeline/src/runner.rs:147-182 | every step, crash and resume keeps the invariant between disk and process |
| ProtocolProperties.HistoryKeeps | crates/ecl-pipeline/src/runner.rs:69-182 | so every state of every history from an empty store satisfies it |
| ProtocolProperties.Monotone | crates/ecl-pipeline/src/runner.rs:161-171 | the persisted batch never decreases and a checkpoint never disappears, across crashes and resumes |
| ProtocolProperties.NoBatchTwice | crates/ecl-pipeline/src/runner.rs:162-166 | no batch below the persisted one is executed again |
| ProtocolProperties.CompletedMeansAllBatches | crates/ecl-pipeline/src/runner.rs:177-182 | a persisted Completed status implies that all batches ran and every scheduled stage is Completed |
| ProtocolProperties.CheckpointShape | crates/ecl-pipeline-state/src/checkpoint.rs:46-67 | every checkpoint at batch k has the earlier stages Completed, the others Pending, stage records in batch order; a resume changes only the status |
| ProtocolProperties.IncrementalityNeverApplies | crates/ecl-pipeline/src/runner.rs:314 | in every history all stored hashes are blank and no item is ever Unchanged |
| ProtocolProperties.NoFailureIsPersisted | crates/ecl-pipeline/src/runner.rs:186-196 | in every history no persisted item is Failed and the failure count of the statistics is 0 |
| ProtocolProperties.FinalisationIsIdempotent | crates/ecl-pipeline/src/runner.rs:177-182 | once the last batch is persisted, any crashes and resumes lead to the same stored hashes, those of the items that its checkpoint has Completed, and nothing is executed again |
| Resume.FrozenIff | crates/ecl-pipeline/src/runner.rs:128-157 | once a process has died with a checkpoint, no continuation changes an item state exactly when there is no source or the next run's guard skips enumeration |
| Resume.CrashExample | crates/ecl-pipeline/src/runner.rs:153-157 | for every pipeline with a source, a history that ends with pending items persisted, no process, and enumeration to be skipped |
| Resume.ResumeCompletesOnNothing | crates/ecl-pipeline/src/runner.rs:153-182 | from there a run without a crash completes, with the persisted item states unchanged |
| Resume.StarvedBatchesSucceed | crates/ecl-pipeline/src/runner.rs:217-268 | and in no continuation does a batch fail |
| Assemble.Partition | crates/ecl-stages/src/assemble.rs:97-102 | each stream's list holds its items in input order, untagged ones under the empty name |
| Assemble.StreamHolds | crates/ecl-stages/src/assemble.rs:97-102 | a stream holds exactly the items tagged with it, and the untagged ones if it is the empty one, in input order |
| Assemble.BuildIndex | crates/ecl-stages/src/assemble.rs:120-134 | each key's entry lists the matching records in input order |
| Assemble.ProcessBatch | crates/ecl-stages/src/assemble.rs:92-195 | the indexed join equals the nested-loop join, errors included |
| Assemble.OnePerPrimary | crates/ecl-stages/src/assemble.rs:138-194 | one output per primary item, in order; fails exactly when one has no record |
| Assemble.NestedField | crates/ecl-stages/src/assemble.rs:159-184 | a nested field holds the array, the first element or Null of what the last join that writes it finds under the primary's own key |
| Assemble.MatchingIff | crates/ecl-stages/src/assemble.rs:122-134 | a record is indexed under a key exactly when an item carries it and its foreign key is that string, the empty key standing for every missing or non-string one |
| Assemble.MatchingIsGenuine | crates/ecl-stages/src/assemble.rs:160-167 | under a key that is a non-empty string, what is found are the records whose foreign key is that very value |
| Assemble.NumbersJoin | crates/ecl-stages/src/assemble.rs:123-128 | with numeric keys a record is found whatever its number is |
| Assemble.JoinHonouredIff | crates/ecl-stages/src/assemble.rs:104-184 | for a primary record a join finds, on every input, the records whose foreign key equals the primary's key value for value exactly when it does not name the primary stream, the last join on its stream has the same foreign key and the key is a non-empty string; or when it names the primary stream and the key is missing |
| Aggregate.JoinInjective | crates/ecl-stages/src/aggregate.rs:75-82 | the joined key is injective on tuples without the separator |
| Aggregate.KeyIdentifiesIff | crates/ecl-stages/src/aggregate.rs:75-82 | among tuples of strings, a key identifies its tuple exactly when there is at most one field or no value contains the separator |
| Aggregate.Collision | crates/ecl-stages/src/aggregate.rs:75-82 | otherwise this is another tuple with the same key |
| AggregateGroups.ProcessBatch | crates/ecl-stages/src/aggregate.rs:152-217 | fails exactly at the first item without a record; otherwise one reduced output per group, in key order |
| AggregateGroups.GroupsPartition | crates/ecl-stages/src/aggregate.rs:159-170 | whatever items contribute, the groups together contribute the same |
| AggregateGroups.GroupsHoldAllItems | crates/ecl-stages/src/aggregate.rs:159-170 | the groups together are a permutation of the input |
| AggregateGroups.GroupIsStable | crates/ecl-stages/src/aggregate.rs:169 | a group lists its members in input order |
| AggregateGroups.ArraysCollectAll | crates/ecl-stages/src/aggregate.rs:193-208 | the collected arrays together are a permutation of the projected inputs |
| AggregateGroups.ValuesAddUp | crates/ecl-stages/src/aggregate.rs:85-93 | the groups' numeric values of a field together are a permutation of the field's values |
| AggregateProperties.NumbersAre | crates/ecl-stages/src/aggregate.rs:85-93 | the values of a field are, in order, those of the records in which it is a number, an integer rounded, or a string that parses; "count" is the number of these records |
| AggregateProperties.FirstAndLast | crates/ecl-stages/src/aggregate.rs:117-124 | "first" and "last" are the field's value, or Null, in the first and the last item of the input with the group's key |
| AggregateProperties.CountsAddUp | crates/ecl-stages/src/aggregate.rs:116 | the groups' counts of a field add up to the count over all inputs |
| AggregateProperties.ExactSumsAddUp | crates/ecl-stages/src/aggregate.rs:96 | where addition is exact, the groups' sums of finite values add up to the sum over all inputs |
| AggregateProperties.ExtremesOfField | crates/ecl-stages/src/aggregate.rs:97-108 | min and max are values of the field that bound all the others but NaN; they are Null exactly when there is no such value or the bound is infinite |
| AggregateProperties.ExactAverageIsBetween | crates/ecl-stages/src/aggregate.rs:109-115 | where addition and division are exact, the average of finite values lies between any bounds of theirs |
| AggregateProperties.RoundedAverageEscapes | crates/ecl-stages/src/aggregate.rs:109-115 | where three times x divided by 3 rounds up, as it does for x = 0.1 in double precision, the average of three records with x exceeds their maximum |
| AggregateProperties.OutputField | crates/ecl-stages/src/aggregate.rs:172-214 | an output is the group's first item under a new id, each field of its record the last array collected there, else the last aggregate, else the group-by field of the first record |
| AggregateKeys.KeyDeterminesIff | crates/ecl-stages/src/aggregate.rs:75-82 | for distinct group-by fields, or one listed any number of times, a record's key tells its group-by values among all records exactly when all of them are non-empty strings and there is only one field or none contains the separator |
| AggregateKeys.NumbersCollide | crates/ecl-stages/src/aggregate.rs:79 | two items that differ only in a numeric group-by field share a group, whose output carries the first one's number |
| AggregateKeys.GroupFieldIsShared | crates/ecl-stages/src/aggregate.rs:180-185 | when an item's key tells its group-by values, its group's output carries the item's own values, present and equal |
| Lifecycle.ArchiveNameIdentifies | crates/ecl-pipeline/src/lifecycle.rs:64-79 | an archive name determines the run and the basename, so archives of different runs never meet |
| Lifecycle.ArchiveName | crates/ecl-pipeline/src/lifecycle.rs:64-80 | an object is archived as what follows its last '/', under the prefix without the slashes it ends in and, unless it is empty, the run |
| Lifecycle.Bucket.CopyObject | crates/ecl-pipeline/src/lifecycle.rs:161-190 | a copy happens unless the source is missing or the request is lost, and succeeds only if it is answered |
| Lifecycle.Bucket.DeleteObject | crates/ecl-pipeline/src/lifecycle.rs:193-221 | a delete happens unless the object is missing or the request is lost, and succeeds only if it is answered |
| Lifecycle.Bucket.MoveObjects | crates/ecl-pipeline/src/lifecycle.rs:128-146 | every state the bucket goes through, the state it ends in and the verdict are those of the copy-then-delete run |
| Lifecycle.Bucket.MoveToHistorical | crates/ecl-pipeline/src/lifecycle.rs:64-80 | the move goes to the folder of the run under the trimmed historical prefix |
| Lifecycle.OthersUntouched | crates/ecl-pipeline/src/lifecycle.rs:128-146 | no request changes a name that is neither a source nor a destination |
| Lifecycle.NothingIsLost | crates/ecl-pipeline/src/lifecycle.rs:128-146 | after every request, answered or not, each original content is under its source or its destination, for distinct basenames and destinations that are not sources still to be moved |
| Lifecycle.EveryMoment | crates/ecl-pipeline/src/lifecycle.rs:128-146 | for any list and any answers, after every request of a run all listed contents are under their source or their destination exactly when each is carried to one of them, by the list alone, up to that moment |
| Lifecycle.SourceRemainsIff | crates/ecl-pipeline/src/lifecycle.rs:133-138 | after a successful move a source name is in use exactly when some object was moved to it and it was not moved away from then on |
| Lifecycle.ArchivedIff | crates/ecl-pipeline/src/lifecycle.rs:133-138 | a successful move leaves a content under its destination exactly when, from its last namesake on, no source is that destination, and what that namesake brings, traced to its origin, is the same content |
| Lifecycle.NamesakesOverwrite | crates/ecl-pipeline/src/lifecycle.rs:134-137 | of two sources with one basename and different contents only the second survives a successful move |
| Lifecycle.CarriesOrigin | crates/ecl-pipeline/src/lifecycle.rs:133-138 | what is found under a source in its turn is the original content of the object the chain of earlier moves leads back to |
| Lifecycle.SimpleListsAreSafe | crates/ecl-pipeline/src/lifecycle.rs:133-138 | distinct basenames and destinations that are not sources still to be moved meet that condition |
| Drive.ShouldInclude | crates/ecl-adapter-gdrive/src/lib.rs:275-313 | a file passes exactly when a file type matches or none is set, the last matching rule includes it, and it is not known to be older than the threshold |
| Drive.MatchesTypeIff | crates/ecl-adapter-gdrive/src/lib.rs:277-290 | a file type matches by MIME type, or by what follows the last '.' of the path, or all of it, in either case of its ASCII letters |
| Drive.VisitFiles | crates/ecl-adapter-gdrive/src/lib.rs:158-190 | one listing adds its subfolders to the queue and its files that pass the filters to the items |
| DriveTrails.TurnExplores | crates/ecl-adapter-gdrive/src/lib.rs:155-190 | a turn keeps the account: every way down has been explored, once, or leads through a queued folder |
| DriveTrails.EnumerateRecursive | crates/ecl-adapter-gdrive/src/lib.rs:146-195 | whenever the traversal ends, it fails exactly when some way down ends at a folder whose listing fails, with such an error; otherwise it returns, in id order, exactly one item for each way down to a file that passes the filters, with the file's id, name and type and the path that the names on the way spell |
| DriveTrails.InventoryIsFiles | crates/ecl-adapter-gdrive/src/lib.rs:158-189 | an item is returned exactly when some way down ends at a file that passes the filters and has the item's id, name and type, and the names on that way spell its path |
| Drive.PathIsJoined | crates/ecl-adapter-gdrive/src/lib.rs:159-163 | a path is the names on the way joined by '/', without the empty names it starts with |
| Drive.PathSpellsAllNamesIff | crates/ecl-adapter-gdrive/src/lib.rs:159-163 | it spells out every name exactly when the outermost is not empty or is the only one |
| DriveTermination.EndsIff | crates/ecl-adapter-gdrive/src/lib.rs:155-169 | on finitely many folders the traversal ends exactly when no folder it can reach is below itself or the listing of some folder it can reach fails |
| DriveTermination.FailureEnds | crates/ecl-adapter-gdrive/src/lib.rs:155-156 | a queue below which some listing fails comes to an end, cycles or not |
| DriveTermination.CyclesNeverDrain | crates/ecl-adapter-gdrive/src/lib.rs:155-169 | from folders that keep leading back into themselves the queue never runs dry |
| Avro.ConversionIsTyped | crates/ecl-sink-kafka/src/avro.rs:92-164 | for every schema, conversion fails exactly when a null or missing value meets a union without null or another value one with nothing but null, and says so; otherwise a value converted to a scalar schema conforms, one to a nested record schema never does |
| Avro.IntsWrapIff | crates/ecl-sink-kafka/src/avro.rs:102-105 | the result is congruent modulo 2^32 exactly when the integer fits 64 signed bits or is a multiple of 2^32, and equal exactly when it fits 32 |
| AvroProperties.KeptIffRepresented | crates/ecl-sink-kafka/src/avro.rs:92-164 | for every schema, the value read back is the original exactly when the schema represents it, which for a float schema means that rounding to single precision leaves the number alone |
| AvroProperties.TextConverts | crates/ecl-sink-kafka/src/avro.rs:106-114 | the decimal text of an integer, with an optional sign and leading zeros, converts to that integer when it fits the schema, and to 0 otherwise; all other text converts to 0 |
| AvroProperties.MistypedBecomes | crates/ecl-sink-kafka/src/avro.rs:97-164 | a value of another kind becomes false, 0 or its JSON text |
| AvroProperties.IntegersBecomeDoubles | crates/ecl-sink-kafka/src/avro.rs:116-125 | an integer under a floating-point schema is rounded to double precision, and then to single for a float schema |
| AvroProperties.EntriesAreFields | crates/ecl-sink-kafka/src/avro.rs:69-89 | an entry of a converted record has its field's name, and holds the record's value exactly when the field's schema represents it; false, 0, nothing or null when the record lacks it |
| Avro.ConvertRecord | crates/ecl-sink-kafka/src/avro.rs:69-89 | one entry per schema field, in order; fails exactly when the schema is not a record or a field does not convert |
| Avro.RecordsAreTyped | crates/ecl-sink-kafka/src/avro.rs:69-89 | a record converts unless a field meets an unmatched union, and conforms when each field is converted to a scalar schema |
| Avro.BytesRoundTrip | crates/ecl-sink-kafka/src/avro.rs:53 | the big-endian bytes of every 32-bit schema id decode back to it |
| Avro.SerializeRecord | crates/ecl-sink-kafka/src/avro.rs:38-57 | a reader gets back the schema id and the datum of the converted record; fails exactly when conversion or encoding does |

## Left out

- Push sources: the runner is modelled without them, so phase 3 of a run and the receive loop are missing.
- The lifecycle phase at the end of a run, the delete and none actions and the on-failure actions: `Lifecycle` covers the move that the historical and error actions share.
- Several `run` calls on one runner object: a process runs once, then a new one is created.
- Panicking or cancelled tasks and closed semaphores: every spawned task returns. After a failed stage the other stages of the batch are dropped without effect on the runner.
- Errors of the store other than a crash: opening, inserting or committing either happens or the process dies.
- Timestamps, durations, logging, spans and the run id derived from the clock (a parameter here); the specification embedded in a checkpoint.
- Item content, metadata and provenance, modification times and source hashes of listed items, and stage contexts: nothing modelled depends on them.
- Condition expressions: every stage executes, as in the code. Validation of missing inputs always succeeds there and is not modelled.
- Serialisation, redb, backon and apache_avro internals: the codec is assumed to round-trip, transactions to be atomic, and every error to be retried up to the limit; the Avro datum encoding is a parameter.
- HTTP, tokens, pagination and the other adapters and sinks: a folder listing is one answer, stable during one enumeration.
- The algorithms of floating-point arithmetic and of parsing numbers: they are parameters, with infinities and NaN as results. Zeros of either sign are one value, and JSON numbers are finite.
- Iteration order of ordered maps where the result does not depend on it (scheduler, statistics, incrementality, stores): any order is allowed there. Field order inside a JSON record is not modelled.
- Widths of counters, and Unicode: strings are sequences of characters, and splitting and comparing follow characters.
- Glob patterns and timestamps in Drive filters: a pattern is a predicate on paths and a time is an integer or unreadable.
- The order of Drive items with equal ids: the result is stated up to that order, which the stable sort takes from the traversal.
- Spec validation, registries and the single-record stages (field map, CSV, dates, filters, emit): easy members only.
- Batch.RunsAreBounded: counts steps of the model, where a retried item is one step however many attempts it takes.
- Avro.ConversionIsTyped: says nothing about conformance to schema kinds without a conversion of their own (bytes, enums, arrays, maps, logical types), which get text or null.
- DriveTrails.EnumerateRecursive: is given a turn by which the traversal ends, since otherwise neither the original nor the method returns; `DriveTermination.EndsIff` says when there is one.
- AggregateKeys.KeyDeterminesIff: for several different fields of which one is listed twice, only `AggregateKeys.TextDetermines` is proved: non-empty strings without the separator suffice.
- BatchStates.StatesDeterminedIff: is stated for pools with distinct ids and for batches that succeed.
- Confluence.RunsAgree: is stated for batch stages that answer alike whatever the order of their input, and for runs in which no stage puts out an id that another stage of its batch takes; otherwise `Pool.MergeCommutesIff` says when two stages still commute.
- BatchEffects.BatchLeaves: is stated for batches without repeated stages, which is what the scheduler returns.
- Resume.ResumeCompletesOnNothing: gives one completing continuation; another crash can always come in between.
