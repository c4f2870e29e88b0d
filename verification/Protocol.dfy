/** The checkpoint, crash and resume protocol as a transition system over the store and one process. */
module Protocol {
  import opened Ids
  import opened Items
  import opened Batch
  import opened State
  import opened Store
  import opened RunnerModel

  /** Where a running process stands in `run`. */
  datatype Phase = Starting | Listed | Looping | BatchDone | Completing | Returned

  datatype Process = Process(v: Volatile, phase: Phase)

  /** The persistent store, and the process if one is alive. */
  datatype System = System(disk: Disk, process: Option<Process>)

  datatype Event =
    | Create(runId: string)
    | Enumerate(listing: Listing)
    | SkipEnumeration
    | Persist
    | Execute(batch: nat)
    | SaveHashes
    | Complete
    | Crash

  ghost predicate NeedsEnumeration(s: PipelineState) {
    s.currentBatch == 0 && s.stats.discovered == 0
  }

  function InitialState(t: Topology, disk: Disk, runId: string): PipelineState {
    if disk.checkpoint.Some? then PrepareForResume(disk.checkpoint.value).state else FreshState(t, runId)
  }

  /** Enumeration followed by the incrementality check; an adapter error ends the process. */
  ghost function AfterEnumeration(t: Topology, disk: Disk, v: Volatile, listing: Listing): Process {
    var e := EnumerateAll(Enumerated(v.state.sources, v.pool, None), t.sources, listing);
    var marked := Incremental(e.sources, disk.hashes);
    if e.error.Some? then Process(v.(state := v.state.(sources := e.sources), pool := e.pool), Returned)
    else Process(v.(state := v.state.(sources := marked, stats := StatsOf(marked)), pool := e.pool), Listed)
  }

  ghost predicate Transition(t: Topology, s: System, e: Event, s': System) {
    match e
    case Create(runId) =>
      && s.process.None? && (s.disk.checkpoint.Some? ==> !ConfigDrifted(s.disk.checkpoint.value, t.specHash))
      && s' == s.(process := Some(Process(Volatile(InitialState(t, s.disk, runId), 0, []), Starting)))
    case Enumerate(listing) =>
      && s.process.Some? && s.process.value.phase.Starting? && NeedsEnumeration(s.process.value.v.state)
      && s' == s.(process := Some(AfterEnumeration(t, s.disk, s.process.value.v, listing)))
    case SkipEnumeration =>
      && s.process.Some? && s.process.value.phase.Starting? && !NeedsEnumeration(s.process.value.v.state)
      && s' == s.(process := Some(s.process.value.(phase := Looping)))
    case Persist =>
      && s.process.Some? && (s.process.value.phase.Listed? || s.process.value.phase.BatchDone?)
      && s' == Persisted(t, s.disk, s.process.value.v, Looping)
    case Execute(batch) =>
      && s.process.Some? && s.process.value.phase.Looping?
      && batch == s.process.value.v.state.currentBatch && batch < |t.schedule|
      && s'.disk == s.disk && s'.process.Some? && BatchStep(t, batch, s.process.value.v, s'.process.value)
    case SaveHashes =>
      && s.process.Some? && s.process.value.phase.Looping? && |t.schedule| <= s.process.value.v.state.currentBatch
      && s' == System(s.disk.(hashes := CompletedHashes(s.process.value.v.state.sources)),
                      Some(s.process.value.(phase := Completing)))
    case Complete =>
      && s.process.Some? && s.process.value.phase.Completing?
      && s' == Persisted(t, s.disk, WithStatus(s.process.value.v, PipelineStatus.Completed), Returned)
    case Crash =>
      s' == s.(process := None)
  }

  function WithStatus(v: Volatile, status: PipelineStatus): Volatile {
    v.(state := v.state.(status := status))
  }

  /** The checkpoint write. */
  function Persisted(t: Topology, disk: Disk, v: Volatile, next: Phase): System {
    System(disk.(checkpoint := Some(CheckpointOf(t, v))), Some(Process(v.(sequence := v.sequence + 1), next)))
  }

  ghost predicate BatchStep(t: Topology, batch: nat, v: Volatile, p: Process)
    requires batch < |t.schedule|
  {
    exists v', ok :: BatchExecuted(t, t.schedule[batch], v, v', ok) && p == AfterBatch(v', batch, ok)
  }

  function AfterBatch(v: Volatile, batch: nat, ok: bool): Process {
    if ok then Process(v.(state := v.state.(currentBatch := batch + 1)), BatchDone) else Process(v, Returned)
  }

  /** A history: states joined by events, from an empty store. */
  ghost predicate IsHistory(t: Topology, states: seq<System>, events: seq<Event>) {
    Follows(t, states, events) && states[0] == System(EMPTY_DISK, None)
  }

  /** The states are joined by the events. */
  ghost predicate Follows(t: Topology, states: seq<System>, events: seq<Event>) {
    && |states| == |events| + 1
    && forall k {:trigger Joined(t, states, events, k)} :: 0 <= k < |events| ==> Joined(t, states, events, k)
  }

  ghost predicate Joined(t: Topology, states: seq<System>, events: seq<Event>, k: int)
    requires 0 <= k < |events| && |states| == |events| + 1
  {
    Transition(t, states[k], events[k], states[k + 1])
  }

  datatype History = History(states: seq<System>, events: seq<Event>)

  /** The history leads from `first` to `last` by steps of the protocol. */
  ghost predicate Reaches(t: Topology, h: History, first: System, last: System) {
    Follows(t, h.states, h.events) && h.states[0] == first && h.states[|h.events|] == last
  }

  /** The batches from `from` on, up to `to`, each executed and persisted. */
  function Turns(from: nat, to: nat): seq<Event>
    requires from <= to
  {
    if from == to then [] else Turns(from, to - 1) + [Execute(to - 1), Persist]
  }

  /** How a run starts. */
  function Opening(enumerates: bool, listing: Listing): seq<Event> {
    if enumerates then [Enumerate(listing), Persist] else [SkipEnumeration]
  }

  /** How a run ends once it has persisted the batches below `to`: in completion, or in the failure of the next. */
  function Ending(to: nat, ok: bool): seq<Event> {
    if ok then [SaveHashes, Complete] else [Execute(to)]
  }

  /** The steps of an uninterrupted run that got past its enumeration. */
  function RunEvents(enumerates: bool, listing: Listing, from: nat, to: nat, ok: bool): seq<Event>
    requires from <= to
  {
    Opening(enumerates, listing) + Turns(from, to) + Ending(to, ok)
  }

  // -- What a checkpoint looks like ---------------------------------------------------------

  /** No stage appears in two batches. */
  ghost predicate Usable(schedule: seq<seq<StageId>>) {
    forall i, j, id :: 0 <= i < |schedule| && 0 <= j < |schedule| && id in schedule[i] && id in schedule[j] ==> i == j
  }

  /** The batch of a stage, or the schedule length if it has none. */
  function BatchIndex(schedule: seq<seq<StageId>>, id: StageId): nat {
    if schedule == [] then 0 else if id in schedule[0] then 0 else 1 + BatchIndex(schedule[1..], id)
  }

  lemma {:induction false} BatchIndexOf(schedule: seq<seq<StageId>>, id: StageId, k: nat)
    requires k < |schedule| && id in schedule[k] && forall j :: 0 <= j < k ==> id !in schedule[j]
    ensures BatchIndex(schedule, id) == k
  {
    if 0 < k {
      assert schedule[1..][k - 1] == schedule[k];
      assert id !in schedule[0];
      BatchIndexOf(schedule[1..], id, k - 1);
    }
  }

  /** An item's stage records come in batch order, from batches before `k`. */
  ghost predicate Ordered(schedule: seq<seq<StageId>>, k: nat, records: seq<StageId>) {
    && (forall i :: 0 <= i < |records| ==> BatchIndex(schedule, records[i]) < k)
    && (forall i, j :: 0 <= i < j < |records| ==> BatchIndex(schedule, records[i]) <= BatchIndex(schedule, records[j]))
  }

  ghost predicate GoodItem(schedule: seq<seq<StageId>>, k: nat, i: ItemState) {
    && Ordered(schedule, k, i.completedStages)
    && !i.status.Processing? && !i.status.Unchanged? && !i.status.Failed? && i.contentHash == ""
    && (i.status.Completed? ==> i.completedStages != [])
  }

  ghost predicate GoodSource(schedule: seq<seq<StageId>>, k: nat, s: SourceState) {
    && (forall id :: id in s.items ==> GoodItem(schedule, k, s.items[id]))
    && (s.items != map[] ==> 0 < s.itemsDiscovered)
  }

  ghost predicate GoodSources(schedule: seq<seq<StageId>>, k: nat, sources: Sources) {
    forall n :: n in sources ==> GoodSource(schedule, k, sources[n])
  }

  ghost predicate GoodStages(schedule: seq<seq<StageId>>, k: nat, stages: map<StageId, StageState>) {
    && stages.Keys == Scheduled(schedule)
    && forall i, id :: 0 <= i < |schedule| && id in schedule[i] ==>
         id in stages && stages[id].status == if i < k then StageStatus.Completed else StageStatus.Pending
  }

  ghost predicate Good(t: Topology, s: PipelineState) {
    && s.currentBatch <= |t.schedule|
    && GoodStages(t.schedule, s.currentBatch, s.stages)
    && GoodSources(t.schedule, s.currentBatch, s.sources)
    && s.stats == StatsOf(s.sources)
  }

  // -- One merge keeps items good --------------------------------------------------------------

  /** `sources'` differs from `sources` only inside items. */
  ghost predicate SameShape(sources: Sources, sources': Sources) {
    && sources'.Keys == sources.Keys
    && forall n :: n in sources ==>
         sources'[n].itemsDiscovered == sources[n].itemsDiscovered && sources'[n].items.Keys == sources[n].items.Keys
  }

  lemma MarkKeeps(schedule: seq<seq<StageId>>, k: nat, sources: Sources, id: string, update: ItemState -> ItemState)
    requires GoodSources(schedule, k, sources)
    requires forall i :: GoodItem(schedule, k, i) ==> GoodItem(schedule, k, update(i))
    ensures GoodSources(schedule, k, Mark(sources, id, update)) && SameShape(sources, Mark(sources, id, update))
  {
    var marked := Mark(sources, id, update);
    forall n | n in sources
      ensures GoodSource(schedule, k, marked[n]) && marked[n].items.Keys == sources[n].items.Keys
    {
      assert GoodSource(schedule, k, sources[n]);
    }
  }

  lemma SucceedKeeps(schedule: seq<seq<StageId>>, k: nat, stage: StageId, i: ItemState)
    requires BatchIndex(schedule, stage) == k && GoodItem(schedule, k + 1, i)
    ensures GoodItem(schedule, k + 1, Succeed(stage)(i))
  {
  }

  lemma {:induction false} SuccessesKeep(schedule: seq<seq<StageId>>, k: nat, sources: Sources,
                                         list: seq<StageItemSuccess>, stage: StageId)
    requires GoodSources(schedule, k + 1, sources) && BatchIndex(schedule, stage) == k
    ensures GoodSources(schedule, k + 1, MarkSuccesses(sources, list, stage))
    ensures SameShape(sources, MarkSuccesses(sources, list, stage))
  {
    if list != [] {
      SuccessesKeep(schedule, k, sources, list[..|list| - 1], stage);
      forall i | GoodItem(schedule, k + 1, i) ensures GoodItem(schedule, k + 1, Succeed(stage)(i)) {
        SucceedKeeps(schedule, k, stage, i);
      }
      MarkKeeps(schedule, k + 1, MarkSuccesses(sources, list[..|list| - 1], stage), list[|list| - 1].itemId,
        Succeed(stage));
    }
  }

  lemma {:induction false} SkipsKeep(schedule: seq<seq<StageId>>, k: nat, sources: Sources, list: seq<StageItemSkipped>,
                                     stage: StageId)
    requires GoodSources(schedule, k, sources)
    ensures GoodSources(schedule, k, MarkSkips(sources, list, stage)) &&
            SameShape(sources, MarkSkips(sources, list, stage))
  {
    if list != [] {
      var last := list[|list| - 1];
      SkipsKeep(schedule, k, sources, list[..|list| - 1], stage);
      MarkKeeps(schedule, k, MarkSkips(sources, list[..|list| - 1], stage), last.itemId, Skip(stage, last));
    }
  }

  lemma MergeKeepsSources(schedule: seq<seq<StageId>>, k: nat, sources: Sources, o: Outcome)
    requires GoodSources(schedule, k + 1, sources) && BatchIndex(schedule, o.stageId) == k && o.failures == []
    ensures GoodSources(schedule, k + 1, MarkOutcome(sources, o)) && SameShape(sources, MarkOutcome(sources, o))
  {
    SuccessesKeep(schedule, k, sources, o.successes, o.stageId);
    SkipsKeep(schedule, k + 1, MarkSuccesses(sources, o.successes, o.stageId), o.skipped, o.stageId);
  }

  // -- A whole batch ------------------------------------------------------------------------------

  lemma {:induction false} MergedAllSources(t: Topology, k: nat, v: Volatile, arrived: seq<Outcome>)
    requires GoodSources(t.schedule, k + 1, v.state.sources) && v.state.stats == StatsOf(v.state.sources)
    requires forall i :: 0 <= i < |arrived| ==> BatchIndex(t.schedule, arrived[i].stageId) == k
    requires MergedAll(t, v, arrived).1
    ensures var v' := MergedAll(t, v, arrived).0;
            && GoodSources(t.schedule, k + 1, v'.state.sources) && v'.state.stats == StatsOf(v'.state.sources)
            && v'.state.currentBatch == v.state.currentBatch && v'.state.status == v.state.status
    decreases |arrived|
  {
    if arrived != [] {
      MergeKeepsSources(t.schedule, k, v.state.sources, arrived[0]);
      MergedAllSources(t, k, Merged(t, v, arrived[0]), arrived[1..]);
    }
  }

  ghost predicate Arrived(arrived: seq<Outcome>, id: StageId) {
    exists i :: 0 <= i < |arrived| && arrived[i].stageId == id
  }

  lemma {:induction false} MergedAllStages(t: Topology, v: Volatile, arrived: seq<Outcome>, id: StageId)
    requires MergedAll(t, v, arrived).1
    ensures var v' := MergedAll(t, v, arrived).0;
            && v'.state.stages.Keys == v.state.stages.Keys
            && (id in v.state.stages ==>
                  if Arrived(arrived, id) then v'.state.stages[id].status == StageStatus.Completed
                  else v'.state.stages[id] == v.state.stages[id])
    decreases |arrived|
  {
    if arrived != [] {
      var next := Merged(t, v, arrived[0]);
      MergedAllStages(t, next, arrived[1..], id);
      assert Arrived(arrived, id) <==> arrived[0].stageId == id || Arrived(arrived[1..], id) by {
        if i :| 0 <= i < |arrived| && arrived[i].stageId == id {
          assert i == 0 || arrived[1..][i - 1] == arrived[i];
        }
        if Arrived(arrived[1..], id) {
          var i :| 0 <= i < |arrived[1..]| && arrived[1..][i].stageId == id;
          assert arrived[i + 1].stageId == id;
        }
      }
    }
  }

  lemma ArrivedIffScheduled(arrived: seq<Outcome>, batch: seq<StageId>, id: StageId)
    requires multiset(StageIdsOf(arrived)) == multiset(batch)
    ensures Arrived(arrived, id) <==> id in batch
  {
    assert id in batch <==> id in multiset(StageIdsOf(arrived));
    if id in batch {
      var i :| 0 <= i < |arrived| && StageIdsOf(arrived)[i] == id;
      assert arrived[i].stageId == id;
    }
    if Arrived(arrived, id) {
      var i :| 0 <= i < |arrived| && arrived[i].stageId == id;
      assert StageIdsOf(arrived)[i] == id;
    }
  }

  lemma LaterSources(schedule: seq<seq<StageId>>, k: nat, sources: Sources)
    requires GoodSources(schedule, k, sources)
    ensures GoodSources(schedule, k + 1, sources)
  {
    forall n | n in sources ensures GoodSource(schedule, k + 1, sources[n]) {
      assert GoodSource(schedule, k, sources[n]);
    }
  }

  lemma BatchSources(t: Topology, k: nat, v: Volatile, arrived: seq<Outcome>)
    requires Usable(t.schedule) && k < |t.schedule|
    requires GoodSources(t.schedule, k, v.state.sources) && v.state.stats == StatsOf(v.state.sources)
    requires multiset(StageIdsOf(arrived)) == multiset(t.schedule[k]) && MergedAll(t, v, arrived).1
    ensures var v' := MergedAll(t, v, arrived).0;
            && GoodSources(t.schedule, k + 1, v'.state.sources) && v'.state.stats == StatsOf(v'.state.sources)
            && v'.state.currentBatch == v.state.currentBatch && v'.state.status == v.state.status
  {
    LaterSources(t.schedule, k, v.state.sources);
    forall i | 0 <= i < |arrived| ensures BatchIndex(t.schedule, arrived[i].stageId) == k {
      assert Arrived(arrived, arrived[i].stageId);
      ArrivedIffScheduled(arrived, t.schedule[k], arrived[i].stageId);
      BatchIndexOf(t.schedule, arrived[i].stageId, k);
    }
    MergedAllSources(t, k, v, arrived);
  }

  lemma BatchStages(t: Topology, k: nat, v: Volatile, arrived: seq<Outcome>)
    requires Usable(t.schedule) && k < |t.schedule| && GoodStages(t.schedule, k, v.state.stages)
    requires multiset(StageIdsOf(arrived)) == multiset(t.schedule[k])
    requires MergedAll(t, Started(v, t.schedule[k]), arrived).1
    ensures GoodStages(t.schedule, k + 1, MergedAll(t, Started(v, t.schedule[k]), arrived).0.state.stages)
  {
    var batch := t.schedule[k];
    var stages' := MergedAll(t, Started(v, batch), arrived).0.state.stages;
    MergedAllStages(t, Started(v, batch), arrived, StageId(""));
    forall i, id | 0 <= i < |t.schedule| && id in t.schedule[i]
      ensures id in stages' && stages'[id].status == if i < k + 1 then StageStatus.Completed else StageStatus.Pending
    {
      MergedAllStages(t, Started(v, batch), arrived, id);
      ArrivedIffScheduled(arrived, batch, id);
      assert id in v.state.stages;
    }
  }

  lemma MergedKeepsGood(t: Topology, v: Volatile, arrived: seq<Outcome>)
    requires Usable(t.schedule) && Good(t, v.state) && v.state.currentBatch < |t.schedule|
    requires multiset(StageIdsOf(arrived)) == multiset(t.schedule[v.state.currentBatch])
    requires MergedAll(t, Started(v, t.schedule[v.state.currentBatch]), arrived).1
    ensures var v' := MergedAll(t, Started(v, t.schedule[v.state.currentBatch]), arrived).0;
            Good(t, v'.state.(currentBatch := v.state.currentBatch + 1)) && v'.state.status == v.state.status
  {
    var k := v.state.currentBatch;
    BatchSources(t, k, Started(v, t.schedule[k]), arrived);
    BatchStages(t, k, v, arrived);
  }

  /** A successful batch turns a good state into the next good state. */
  lemma BatchKeepsGood(t: Topology, v: Volatile, v': Volatile)
    requires Usable(t.schedule) && Good(t, v.state) && v.state.currentBatch < |t.schedule|
    requires BatchExecuted(t, t.schedule[v.state.currentBatch], v, v', true)
    ensures Good(t, v'.state.(currentBatch := v.state.currentBatch + 1)) && v'.state.status == v.state.status
  {
    var arrived := ArrivedResults(t, t.schedule[v.state.currentBatch], v, v');
    MergedKeepsGood(t, v, arrived);
  }

  /** A batch ends the process, or leads to the next good state. */
  lemma BatchStepKeepsGood(t: Topology, v: Volatile, p: Process)
    requires Usable(t.schedule) && Good(t, v.state) && v.state.currentBatch < |t.schedule|
    requires BatchStep(t, v.state.currentBatch, v, p)
    ensures p.phase.Returned? || p.phase.BatchDone?
    ensures p.phase.BatchDone? ==> Good(t, p.v.state) && p.v.state.currentBatch == v.state.currentBatch + 1
                                   && p.v.state.status == v.state.status
  {
    var batch := v.state.currentBatch;
    var v', ok :| BatchExecuted(t, t.schedule[batch], v, v', ok) && p == AfterBatch(v', batch, ok);
    if ok {
      BatchKeepsGood(t, v, v');
    }
  }

  // -- Enumeration -----------------------------------------------------------------------------------

  /** Every item is as enumeration leaves it. */
  ghost predicate AllPending(sources: Sources) {
    forall n, id :: n in sources && id in sources[n].items ==> JustListed(sources[n].items[id])
  }

  predicate JustListed(i: ItemState) {
    i.status == ItemStatus.Pending && i.contentHash == "" && i.completedStages == []
  }

  lemma {:induction false} AddedItems(s: SourceState, items: seq<SourceItem>, source: string)
    requires s.items == map[]
    ensures var r := AddItems(s, items, source);
            && r.itemsDiscovered == s.itemsDiscovered && (r.items != map[] ==> items != [])
            && forall id :: id in r.items ==> JustListed(r.items[id])
  {
    if items != [] {
      AddedItems(s, items[..|items| - 1], source);
    }
  }

  ghost predicate NoItems(sources: Sources) {
    forall n :: n in sources ==> sources[n].items == map[]
  }

  ghost predicate FreshlyListed(sources: Sources) {
    AllPending(sources) && forall n :: n in sources && sources[n].items != map[] ==> 0 < sources[n].itemsDiscovered
  }

  ghost predicate DistinctSources(list: seq<SourceSpec>) {
    forall i, j :: 0 <= i < j < |list| ==> list[i].name != list[j].name
  }

  /** A source that has no items yet is listed afresh; the others stay as they are. */
  lemma SourceLists(e: Enumerated, source: SourceSpec, listing: Listing)
    requires FreshlyListed(e.sources) && (source.name in e.sources ==> e.sources[source.name].items == map[])
    ensures var r := EnumerateSource(e, source, listing);
            && FreshlyListed(r.sources)
            && forall n :: n in r.sources && n != source.name ==> n in e.sources && r.sources[n] == e.sources[n]
  {
    if e.error.None? && listing(source.name).Ok? {
      var items := listing(source.name).value;
      var was := if source.name in e.sources then e.sources[source.name] else NO_SOURCE_STATE;
      AddedItems(was.(itemsDiscovered := |items|), items, source.name);
    }
  }

  ghost predicate Named(list: seq<SourceSpec>, n: string) {
    exists i :: 0 <= i < |list| && list[i].name == n
  }

  lemma NamedPush(list: seq<SourceSpec>, n: string)
    requires list != []
    ensures Named(list, n) <==> Named(list[..|list| - 1], n) || list[|list| - 1].name == n
    ensures DistinctSources(list) ==>
            DistinctSources(list[..|list| - 1]) && !Named(list[..|list| - 1], list[|list| - 1].name)
  {
    assert forall i :: 0 <= i < |list| - 1 ==> list[..|list| - 1][i] == list[i];
  }

  /** Only the sources of the list have items afterwards, and those are as just listed. */
  lemma {:induction false} EnumerationLists(e: Enumerated, list: seq<SourceSpec>, listing: Listing)
    requires DistinctSources(list) && NoItems(e.sources)
    ensures var r := EnumerateAll(e, list, listing);
            && FreshlyListed(r.sources)
            && forall n :: n in r.sources && !Named(list, n) ==> r.sources[n].items == map[]
  {
    if list != [] {
      var init, last := list[..|list| - 1], list[|list| - 1];
      NamedPush(list, last.name);
      EnumerationLists(e, init, listing);
      SourceLists(EnumerateAll(e, init, listing), last, listing);
      forall n | n in EnumerateAll(e, list, listing).sources && !Named(list, n)
        ensures EnumerateAll(e, list, listing).sources[n].items == map[]
      {
        NamedPush(list, n);
      }
    }
  }

  /** With content hashes never filled in, the incrementality check marks nothing. */
  lemma NothingIsUnchanged(sources: Sources, previous: map<string, string>)
    requires forall n, id :: n in sources && id in sources[n].items ==> sources[n].items[id].contentHash == ""
    ensures Incremental(sources, previous) == sources
  {
    forall n | n in sources ensures MarkUnchanged(sources[n], previous) == sources[n] {
      var s := sources[n];
      assert forall id :: id in s.items ==> !IsUnchanged(id, s.items[id], previous);
      assert (set id | id in s.items && IsUnchanged(id, s.items[id], previous)) == {};
      assert MarkUnchanged(s, previous).items == s.items;
    }
  }

  lemma FreshlyListedIsGood(t: Topology, s: PipelineState, sources: Sources)
    requires Good(t, s) && s.currentBatch == 0 && FreshlyListed(sources)
    ensures Good(t, s.(sources := sources, stats := StatsOf(sources)))
  {
    forall n | n in sources ensures GoodSource(t.schedule, 0, sources[n]) {
    }
  }

  lemma NothingDiscovered(t: Topology, s: PipelineState)
    requires Good(t, s) && s.stats.discovered == 0
    ensures NoItems(s.sources)
  {
    TotalZero(s.sources, Discovered);
    forall n | n in s.sources ensures s.sources[n].items == map[] {
      assert GoodSource(t.schedule, s.currentBatch, s.sources[n]);
      assert Discovered(s.sources[n]) == 0;
    }
  }

  lemma FreshStateIsGood(t: Topology, runId: string)
    ensures Good(t, FreshState(t, runId))
  {
    TotalZero(map[], Discovered);
    TotalZero(map[], Processed);
    TotalZero(map[], SkippedUnchanged);
    TotalZero(map[], FailedItems);
    forall i, id | 0 <= i < |t.schedule| && id in t.schedule[i] ensures id in Scheduled(t.schedule) {
      assert t.schedule[i] in t.schedule;
    }
  }

  lemma GoodIsSettled(t: Topology, s: PipelineState)
    requires Good(t, s)
    ensures Settled(s)
  {
    forall n, id | n in s.sources && id in s.sources[n].items ensures !s.sources[n].items[id].status.Processing? {
      assert GoodSource(t.schedule, s.currentBatch, s.sources[n]);
      assert GoodItem(t.schedule, s.currentBatch, s.sources[n].items[id]);
    }
    forall id | id in s.stages ensures !s.stages[id].status.Running? {
      assert id in Scheduled(t.schedule);
      var batch :| batch in t.schedule && id in batch;
      var i :| 0 <= i < |t.schedule| && t.schedule[i] == batch;
    }
  }
}
