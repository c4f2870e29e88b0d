/** The runner's operations as functions on its state. */
module RunnerModel {
  import opened Seqs
  import opened Order
  import opened Ids
  import opened Items
  import opened Batch
  import opened Pool
  import opened State

  datatype StageSpec = StageSpec(inputStreams: seq<string>, outputStream: Option<string>)

  datatype SourceSpec = SourceSpec(name: string, stream: Option<string>)

  /** The resolved pipeline, without push sources. Sources are listed in key order. */
  datatype Topology = Topology(
    name: string,
    specHash: string,
    sources: seq<SourceSpec>,
    specs: map<StageId, StageSpec>,
    stages: map<StageId, ResolvedStage>,
    schedule: seq<seq<StageId>>,
    concurrency: nat)

  /** Resolved stages carry the id they are registered under. */
  ghost predicate WellKeyed(t: Topology) {
    forall id :: id in t.stages ==> t.stages[id].id == id
  }

  /** What the source adapters answer when enumerated. */
  type Listing = string -> Result<seq<SourceItem>, string>

  datatype RunError =
    | ConfigDrift(checkpointHash: string, currentHash: string)
    | SourceEnumeration(sourceName: string, detail: string)
    | ItemFailed(stage: string, itemId: string, detail: string)
    | Hung

  // -- Fresh state ------------------------------------------------------------------

  function Scheduled(schedule: seq<seq<StageId>>): set<StageId> {
    set batch <- schedule, id <- batch :: id
  }

  const FRESH_STAGE := StageState(StageStatus.Pending, 0, 0, 0)
  const NO_STATS := PipelineStats(0, 0, 0, 0)

  function FreshState(t: Topology, runId: string): PipelineState {
    PipelineState(runId, t.name, PipelineStatus.Pending, 0, map[], map id <- Scheduled(t.schedule) :: FRESH_STAGE,
                  NO_STATS)
  }

  // -- Enumeration ------------------------------------------------------------------

  function NewItem(item: SourceItem, source: string): ItemState {
    ItemState(item.displayName, item.id, source, "", ItemStatus.Pending, [])
  }

  function AddItems(s: SourceState, items: seq<SourceItem>, source: string): SourceState {
    if items == [] then s
    else
      var last := items[|items| - 1];
      var before := AddItems(s, items[..|items| - 1], source);
      before.(itemsAccepted := before.itemsAccepted + 1, items := before.items[last.id := NewItem(last, source)])
  }

  function PoolItem(item: SourceItem, source: SourceSpec): PipelineItem {
    PipelineItem(item.id, item.displayName, item.mimeType, source.name, None, source.stream)
  }

  function PoolItems(items: seq<SourceItem>, source: SourceSpec): seq<PipelineItem> {
    seq(|items|, i requires 0 <= i < |items| => PoolItem(items[i], source))
  }

  datatype Enumerated = Enumerated(sources: Sources, pool: seq<PipelineItem>, error: Option<RunError>)

  const NO_SOURCE_STATE := SourceState(0, 0, 0, map[])

  /** One source; nothing more happens once a source has failed. */
  function EnumerateSource(e: Enumerated, source: SourceSpec, listing: Listing): Enumerated {
    if e.error.Some? then e
    else
      match listing(source.name)
      case Err(detail) => e.(error := Some(SourceEnumeration(source.name, detail)))
      case Ok(items) =>
        var was := if source.name in e.sources then e.sources[source.name] else NO_SOURCE_STATE;
        Enumerated(e.sources[source.name := AddItems(was.(itemsDiscovered := |items|), items, source.name)],
                   e.pool + PoolItems(items, source), None)
  }

  function EnumerateAll(e: Enumerated, list: seq<SourceSpec>, listing: Listing): Enumerated {
    if list == [] then e
    else EnumerateSource(EnumerateAll(e, list[..|list| - 1], listing), list[|list| - 1], listing)
  }

  // -- Incrementality -----------------------------------------------------------------

  predicate IsUnchanged(id: string, item: ItemState, previous: map<string, string>) {
    id in previous && previous[id] != "" && item.contentHash == previous[id]
  }

  function MarkUnchanged(s: SourceState, previous: map<string, string>): SourceState {
    s.(items := map id <- s.items ::
                  if IsUnchanged(id, s.items[id], previous) then s.items[id].(status := ItemStatus.Unchanged)
                  else s.items[id],
       itemsSkippedUnchanged :=
         s.itemsSkippedUnchanged + |set id | id in s.items && IsUnchanged(id, s.items[id], previous)|)
  }

  function Incremental(sources: Sources, previous: map<string, string>): Sources {
    map name <- sources :: MarkUnchanged(sources[name], previous)
  }

  // -- Merging -----------------------------------------------------------------------

  /** Rewrites the item with this id in every source that has one. */
  function Mark(sources: Sources, id: string, update: ItemState -> ItemState): Sources {
    map name <- sources ::
      if id in sources[name].items
      then sources[name].(items := sources[name].items[id := update(sources[name].items[id])])
      else sources[name]
  }

  function Succeed(stage: StageId): ItemState -> ItemState {
    (i: ItemState) => i.(status := ItemStatus.Completed, completedStages := i.completedStages + [stage])
  }

  function Skip(stage: StageId, s: StageItemSkipped): ItemState -> ItemState {
    (i: ItemState) => i.(status := ItemStatus.Skipped(stage.name, s.error.message))
  }

  function Fail(stage: StageId, f: StageItemFailure): ItemState -> ItemState {
    (i: ItemState) => i.(status := ItemStatus.Failed(stage.name, f.error.message, f.attempts))
  }

  function MarkSuccesses(sources: Sources, list: seq<StageItemSuccess>, stage: StageId): Sources {
    if list == [] then sources
    else Mark(MarkSuccesses(sources, list[..|list| - 1], stage), list[|list| - 1].itemId, Succeed(stage))
  }

  function MarkSkips(sources: Sources, list: seq<StageItemSkipped>, stage: StageId): Sources {
    if list == [] then sources
    else Mark(MarkSkips(sources, list[..|list| - 1], stage), list[|list| - 1].itemId, Skip(stage, list[|list| - 1]))
  }

  function MarkFailures(sources: Sources, list: seq<StageItemFailure>, stage: StageId): Sources {
    if list == [] then sources
    else Mark(MarkFailures(sources, list[..|list| - 1], stage), list[|list| - 1].itemId, Fail(stage, list[|list| - 1]))
  }

  function MarkOutcome(sources: Sources, o: Outcome): Sources {
    MarkFailures(MarkSkips(MarkSuccesses(sources, o.successes, o.stageId), o.skipped, o.stageId), o.failures, o.stageId)
  }

  function MergedStage(s: StageState, o: Outcome): StageState {
    StageState(
      if o.failures != []
      then StageStatus.Failed(Decimal(|o.failures|) + " item(s) failed in stage '" + o.stageId.name + "'")
      else StageStatus.Completed,
      s.itemsProcessed + |o.successes|, s.itemsFailed + |o.failures|, s.itemsSkipped + |o.skipped|)
  }

  function InputStreams(t: Topology, stage: StageId): seq<string> {
    if stage in t.specs then t.specs[stage].inputStreams else []
  }

  function OutputStream(t: Topology, stage: StageId): Option<string> {
    if stage in t.specs then t.specs[stage].outputStream else None
  }

  /** The runner's mutable fields. */
  datatype Volatile = Volatile(state: PipelineState, sequence: nat, pool: seq<PipelineItem>)

  /** Merging one stage's result; the statistics are refreshed only when nothing failed. */
  ghost function Merged(t: Topology, v: Volatile, o: Outcome): Volatile {
    var sources := MarkOutcome(v.state.sources, o);
    v.(state := v.state.(
         sources := sources,
         stages := if o.stageId in v.state.stages
                   then v.state.stages[o.stageId := MergedStage(v.state.stages[o.stageId], o)] else v.state.stages,
         stats := if o.failures == [] then StatsOf(sources) else v.state.stats),
       pool := MergePool(v.pool, TaggedOutcome(o, OutputStream(t, o.stageId))))
  }

  /** Results merged as they arrive, up to and including the first with a failure. */
  ghost function MergedAll(t: Topology, v: Volatile, arrived: seq<Outcome>): (Volatile, bool)
    decreases |arrived|
  {
    if arrived == [] then (v, true)
    else
      var v' := Merged(t, v, arrived[0]);
      if arrived[0].failures != [] then (v', false) else MergedAll(t, v', arrived[1..])
  }

  function MarkRunning(stages: map<StageId, StageState>, batch: seq<StageId>): map<StageId, StageState> {
    map id <- stages :: if id in batch then stages[id].(status := StageStatus.Running) else stages[id]
  }

  function Started(v: Volatile, batch: seq<StageId>): Volatile {
    v.(state := v.state.(stages := MarkRunning(v.state.stages, batch)))
  }

  function StageIdsOf(arrived: seq<Outcome>): seq<StageId> {
    seq(|arrived|, i requires 0 <= i < |arrived| => arrived[i].stageId)
  }

  /** A result that some execution of the stage on these items ends with. */
  ghost predicate IsResult(stage: ResolvedStage, items: seq<PipelineItem>, o: Outcome) {
    if stage.requiresBatch then o == BatchOutcome(stage, items)
    else exists order: seq<nat> :: IsPermutation(order, |items|) && o == Collected(stage, items, order)
  }

  /** A result of the stage for the items it accepts from the pool. */
  ghost predicate IsStageResult(t: Topology, pool: seq<PipelineItem>, o: Outcome) {
    o.stageId in t.stages && IsResult(t.stages[o.stageId], Accepted(pool, InputStreams(t, o.stageId)), o)
  }

  /** Results of distinct tasks of the batch, each for the items its stage accepted from the pool at the start. */
  ghost predicate ResultsOf(t: Topology, pool: seq<PipelineItem>, batch: seq<StageId>, arrived: seq<Outcome>) {
    && multiset(StageIdsOf(arrived)) <= multiset(batch)
    && forall i :: 0 <= i < |arrived| ==> IsStageResult(t, pool, arrived[i])
  }

  /** The first `k` stages of the batch are known, and the next is not. */
  ghost predicate MissingAt(t: Topology, batch: seq<StageId>, k: nat) {
    k < |batch| && batch[k] !in t.stages && forall j :: 0 <= j < k ==> batch[j] in t.stages
  }

  /**
   * What executing a batch may do: stop at a stage that is not in the topology, before any result is merged; or merge
   * results as they arrive, all of them if none has a failure, otherwise up to the first that has one.
   */
  ghost predicate BatchExecuted(t: Topology, batch: seq<StageId>, v: Volatile, v': Volatile, ok: bool) {
    if exists k: nat :: MissingAt(t, batch, k) then
      !ok && exists k: nat :: MissingAt(t, batch, k) && v' == Started(v, batch[..k])
    else
      exists arrived ::
        && ResultsOf(t, v.pool, batch, arrived) && (v', ok) == MergedAll(t, Started(v, batch), arrived)
        && (ok ==> multiset(StageIdsOf(arrived)) == multiset(batch))
  }

  lemma ArrivedResults(t: Topology, batch: seq<StageId>, v: Volatile, v': Volatile) returns (arrived: seq<Outcome>)
    requires BatchExecuted(t, batch, v, v', true)
    ensures ResultsOf(t, v.pool, batch, arrived) && (v', true) == MergedAll(t, Started(v, batch), arrived)
    ensures multiset(StageIdsOf(arrived)) == multiset(batch)
  {
    arrived :| ResultsOf(t, v.pool, batch, arrived) && (v', true) == MergedAll(t, Started(v, batch), arrived)
               && multiset(StageIdsOf(arrived)) == multiset(batch);
  }

  lemma {:induction false} MergingKeepsIndex(t: Topology, v: Volatile, arrived: seq<Outcome>)
    ensures MergedAll(t, v, arrived).0.state.currentBatch == v.state.currentBatch
    decreases |arrived|
  {
    if arrived != [] && arrived[0].failures == [] {
      MergingKeepsIndex(t, Merged(t, v, arrived[0]), arrived[1..]);
    }
  }

  lemma BatchKeepsIndex(t: Topology, batch: seq<StageId>, v: Volatile, v': Volatile, ok: bool)
    requires BatchExecuted(t, batch, v, v', ok)
    ensures v'.state.currentBatch == v.state.currentBatch
  {
    if !exists k: nat :: MissingAt(t, batch, k) {
      var arrived: seq<Outcome> :|
        ResultsOf(t, v.pool, batch, arrived) && (v', ok) == MergedAll(t, Started(v, batch), arrived);
      MergingKeepsIndex(t, Started(v, batch), arrived);
    }
  }

  // -- Finalisation ---------------------------------------------------------------------

  /** The completed items' hashes, source by source; a later source overrides an earlier one. */
  function HashesFrom(sources: Sources, names: seq<string>): map<string, string> {
    if names == [] then map[]
    else
      var before := HashesFrom(sources, names[..|names| - 1]);
      var name := names[|names| - 1];
      if name !in sources then before
      else before + CompletedIn(sources[name])
  }

  function CompletedIn(s: SourceState): map<string, string> {
    map id | id in s.items && s.items[id].status.Completed? :: s.items[id].contentHash
  }

  ghost function CompletedHashes(sources: Sources): map<string, string> {
    HashesFrom(sources, KeyOrder(sources.Keys))
  }

  /** The source has this item Completed. */
  ghost predicate CompletedAt(sources: Sources, name: string, id: string) {
    name in sources && id in sources[name].items && sources[name].items[id].status.Completed?
  }

  /** The last source, by name, that has it Completed. */
  ghost predicate LastCompletedAt(sources: Sources, name: string, id: string) {
    CompletedAt(sources, name, id) && forall m :: CompletedAt(sources, m, id) ==> !Less(name, m)
  }

  /** An id is stored exactly when some source has it Completed, with the content hash it has in the last of them. */
  ghost predicate HashesOfCompleted(sources: Sources, hashes: map<string, string>) {
    forall id :: IsHashOf(sources, hashes, id)
  }

  ghost predicate IsHashOf(sources: Sources, hashes: map<string, string>, id: string) {
    && (id in hashes <==> exists name :: CompletedAt(sources, name, id))
    && forall name :: LastCompletedAt(sources, name, id) ==>
         id in hashes && hashes[id] == sources[name].items[id].contentHash
  }

  /** What `names` have contributed: nothing, or the hash under the last of them that has the item Completed. */
  lemma {:induction false} HashesFromNames(sources: Sources, names: seq<string>, id: string)
    ensures var hashes := HashesFrom(sources, names);
            if id in hashes then
              exists k :: 0 <= k < |names| && LastIn(sources, names, k, id)
                          && hashes[id] == sources[names[k]].items[id].contentHash
            else forall k :: 0 <= k < |names| ==> !CompletedAt(sources, names[k], id)
  {
    if names != [] {
      var n := |names| - 1;
      var init := names[..n];
      HashesFromNames(sources, init, id);
      if CompletedAt(sources, names[n], id) {
        assert LastIn(sources, names, n, id);
      } else if id in HashesFrom(sources, init) {
        var k :| 0 <= k < n && LastIn(sources, init, k, id)
                 && HashesFrom(sources, init)[id] == sources[init[k]].items[id].contentHash;
        assert names[k] == init[k];
        assert LastIn(sources, names, k, id) by {
          forall j | k < j < |names| ensures !CompletedAt(sources, names[j], id) {
            assert j < n ==> init[j] == names[j];
          }
        }
      } else {
        assert forall k :: 0 <= k < n ==> init[k] == names[k];
      }
    }
  }

  ghost predicate LastIn(sources: Sources, names: seq<string>, k: int, id: string)
    requires 0 <= k < |names|
  {
    CompletedAt(sources, names[k], id) && forall j :: k < j < |names| ==> !CompletedAt(sources, names[j], id)
  }

  lemma CompletedHashesAre(sources: Sources)
    ensures HashesOfCompleted(sources, CompletedHashes(sources))
  {
    var names := KeyOrder(sources.Keys);
    forall id ensures IsHashOf(sources, CompletedHashes(sources), id) {
      HashesFromNames(sources, names, id);
      forall name | CompletedAt(sources, name, id) ensures id in CompletedHashes(sources) {
        assert name in Elements(names);
      }
      forall name | LastCompletedAt(sources, name, id)
        ensures id in CompletedHashes(sources) &&
                CompletedHashes(sources)[id] == sources[name].items[id].contentHash
      {
        LastIsLast(sources, names, name, id);
      }
    }
  }

  /** The last by name is the last in the listing. */
  lemma LastIsLast(sources: Sources, names: seq<string>, name: string, id: string)
    requires StrictlySorted(names) && Elements(names) == sources.Keys && LastCompletedAt(sources, name, id)
    ensures forall k :: 0 <= k < |names| && LastIn(sources, names, k, id) ==> names[k] == name
  {
    assert name in Elements(names);
    var i :| 0 <= i < |names| && names[i] == name;
    forall k | 0 <= k < |names| && LastIn(sources, names, k, id) ensures names[k] == name {
      assert i <= k;
      assert !Less(names[i], names[k]);
    }
  }

  function CheckpointOf(t: Topology, v: Volatile): Checkpoint {
    Checkpoint(1, v.sequence + 1, t.schedule, t.specHash, v.state)
  }
}
