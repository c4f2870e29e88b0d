/** The mutable execution state, its checkpoint, and how a checkpoint is prepared for resume. */
module State {
  import opened Ids

  datatype PipelineStatus =
    | Pending
    | Running(currentStage: string)
    | Completed
    | Failed(error: string)
    | Interrupted

  datatype ItemStatus =
    | Pending
    | Processing(stage: string)
    | Completed
    | Failed(stage: string, error: string, attempts: nat)
    | Skipped(stage: string, reason: string)
    | Unchanged

  datatype StageStatus =
    | Pending
    | Running
    | Completed
    | Skipped(reason: string)
    | Failed(error: string)

  datatype ItemState = ItemState(
    displayName: string,
    sourceId: string,
    sourceName: string,
    contentHash: string,
    status: ItemStatus,
    completedStages: seq<StageId>)

  datatype SourceState = SourceState(
    itemsDiscovered: nat,
    itemsAccepted: nat,
    itemsSkippedUnchanged: nat,
    items: map<string, ItemState>)

  datatype StageState = StageState(status: StageStatus, itemsProcessed: nat, itemsFailed: nat, itemsSkipped: nat)

  datatype PipelineStats = PipelineStats(discovered: nat, processed: nat, skippedUnchanged: nat, failed: nat)

  type Sources = map<string, SourceState>

  datatype PipelineState = PipelineState(
    runId: string,
    pipelineName: string,
    status: PipelineStatus,
    currentBatch: nat,
    sources: Sources,
    stages: map<StageId, StageState>,
    stats: PipelineStats)

  datatype Checkpoint = Checkpoint(
    version: nat,
    sequence: nat,
    schedule: seq<seq<StageId>>,
    specHash: string,
    state: PipelineState)

  // -- Statistics -------------------------------------------------------------------

  function CountWhere(items: map<string, ItemState>, p: ItemStatus -> bool): nat {
    |set id | id in items && p(items[id].status)|
  }

  /** The sum of `f` over all sources. */
  ghost function Total(sources: Sources, f: SourceState -> nat): nat
    decreases |sources|
  {
    if sources == map[] then 0
    else
      var name :| name in sources;
      f(sources[name]) + Total(sources - {name}, f)
  }

  lemma {:induction false} TotalOf(sources: Sources, f: SourceState -> nat, name: string)
    requires name in sources
    ensures Total(sources, f) == f(sources[name]) + Total(sources - {name}, f)
    decreases |sources|
  {
    var pick :| pick in sources && Total(sources, f) == f(sources[pick]) + Total(sources - {pick}, f);
    if pick != name {
      TotalOf(sources - {pick}, f, name);
      TotalOf(sources - {name}, f, pick);
      assert sources - {pick} - {name} == sources - {name} - {pick};
    }
  }

  lemma {:induction false} TotalZero(sources: Sources, f: SourceState -> nat)
    ensures Total(sources, f) == 0 <==> forall name :: name in sources ==> f(sources[name]) == 0
    decreases |sources|
  {
    if sources != map[] {
      var name :| name in sources;
      var rest := sources - {name};
      TotalOf(sources, f, name);
      TotalZero(rest, f);
      assert forall n :: n in sources <==> n == name || n in rest;
      assert forall n :: n in rest ==> rest[n] == sources[n];
    }
  }

  function Discovered(s: SourceState): nat { s.itemsDiscovered }
  function Processed(s: SourceState): nat { CountWhere(s.items, (t: ItemStatus) => t.Completed?) }
  function FailedItems(s: SourceState): nat { CountWhere(s.items, (t: ItemStatus) => t.Failed?) }
  /** The source counter and the items' own statuses are both added. */
  function SkippedUnchanged(s: SourceState): nat {
    s.itemsSkippedUnchanged + CountWhere(s.items, (t: ItemStatus) => t.Unchanged?)
  }

  ghost function StatsOf(sources: Sources): PipelineStats {
    PipelineStats(Total(sources, Discovered), Total(sources, Processed), Total(sources, SkippedUnchanged),
                  Total(sources, FailedItems))
  }

  /** Recomputes the statistics by walking the sources in any order. */
  method UpdateStats(sources: Sources) returns (stats: PipelineStats)
    ensures stats == StatsOf(sources)
  {
    var discovered, processed, skipped, failed := 0, 0, 0, 0;
    var rest := sources;
    assert Total(map[], Discovered) == Total(map[], Processed) == 0;
    assert Total(map[], SkippedUnchanged) == Total(map[], FailedItems) == 0;
    while rest != map[]
      invariant discovered + Total(rest, Discovered) == Total(sources, Discovered)
      invariant processed + Total(rest, Processed) == Total(sources, Processed)
      invariant skipped + Total(rest, SkippedUnchanged) == Total(sources, SkippedUnchanged)
      invariant failed + Total(rest, FailedItems) == Total(sources, FailedItems)
      decreases |rest|
    {
      var name :| name in rest;
      var source := rest[name];
      TotalOf(rest, Discovered, name);
      TotalOf(rest, Processed, name);
      TotalOf(rest, SkippedUnchanged, name);
      TotalOf(rest, FailedItems, name);
      discovered := discovered + source.itemsDiscovered;
      processed := processed + Processed(source);
      skipped := skipped + SkippedUnchanged(source);
      failed := failed + FailedItems(source);
      rest := rest - {name};
    }
    stats := PipelineStats(discovered, processed, skipped, failed);
  }

  /** The items of all sources with such a status, each under its source. */
  ghost function Pairs(sources: Sources, p: ItemStatus -> bool): set<(string, string)> {
    set name, id | name in sources && id in sources[name].items && p(sources[name].items[id].status) :: (name, id)
  }

  lemma PairsOf(sources: Sources, p: ItemStatus -> bool, name: string)
    requires name in sources
    ensures |Pairs(sources, p)| == CountWhere(sources[name].items, p) + |Pairs(sources - {name}, p)|
  {
    var ids := set id | id in sources[name].items && p(sources[name].items[id].status);
    PairsSplit(sources, p, name, ids);
    PairedSize(name, ids);
    assert (set id | id in ids :: (name, id)) !! Pairs(sources - {name}, p);
  }

  lemma PairsSplit(sources: Sources, p: ItemStatus -> bool, name: string, ids: set<string>)
    requires name in sources && ids == set id | id in sources[name].items && p(sources[name].items[id].status)
    ensures Pairs(sources, p) == (set id | id in ids :: (name, id)) + Pairs(sources - {name}, p)
  {
  }

  lemma {:induction false} PairedSize(name: string, ids: set<string>)
    ensures |set id | id in ids :: (name, id)| == |ids|
  {
    if id :| id in ids {
      PairedSize(name, ids - {id});
      assert (set x | x in ids :: (name, x)) == (set x | x in ids - {id} :: (name, x)) + {(name, id)};
    } else {
      assert (set x | x in ids :: (name, x)) == {};
    }
  }

  /** A total of counts, on top of other amounts, is the number of the items counted plus the total of the others. */
  lemma {:induction false} TotalCounts(sources: Sources, f: SourceState -> nat, g: SourceState -> nat,
                                       p: ItemStatus -> bool)
    requires forall s :: f(s) == g(s) + CountWhere(s.items, p)
    ensures Total(sources, f) == Total(sources, g) + |Pairs(sources, p)|
    decreases |sources|
  {
    if sources == map[] {
      assert Pairs(sources, p) == {};
    } else {
      var name :| name in sources;
      TotalOf(sources, f, name);
      TotalOf(sources, g, name);
      PairsOf(sources, p, name);
      TotalCounts(sources - {name}, f, g, p);
    }
  }

  /** The statistics count items over all sources: Completed, Failed, and Unchanged on top of the sources' counters. */
  lemma StatsCount(sources: Sources)
    ensures StatsOf(sources).discovered == Total(sources, (s: SourceState) => s.itemsDiscovered)
    ensures StatsOf(sources).processed == |Pairs(sources, (t: ItemStatus) => t.Completed?)|
    ensures StatsOf(sources).failed == |Pairs(sources, (t: ItemStatus) => t.Failed?)|
    ensures StatsOf(sources).skippedUnchanged ==
            Total(sources, (s: SourceState) => s.itemsSkippedUnchanged)
            + |Pairs(sources, (t: ItemStatus) => t.Unchanged?)|
  {
    var none := (s: SourceState) => 0;
    TotalZero(sources, none);
    TotalCounts(sources, Processed, none, (t: ItemStatus) => t.Completed?);
    TotalCounts(sources, FailedItems, none, (t: ItemStatus) => t.Failed?);
    var counters := (s: SourceState) => s.itemsSkippedUnchanged;
    TotalCounts(sources, SkippedUnchanged, counters, (t: ItemStatus) => t.Unchanged?);
    SameTotal(sources, Discovered, (s: SourceState) => s.itemsDiscovered);
  }

  lemma {:induction false} SameTotal(sources: Sources, f: SourceState -> nat, g: SourceState -> nat)
    requires forall s :: f(s) == g(s)
    ensures Total(sources, f) == Total(sources, g)
    decreases |sources|
  {
    if name :| name in sources {
      TotalOf(sources, f, name);
      TotalOf(sources, g, name);
      SameTotal(sources - {name}, f, g);
    }
  }

  // -- Resume ------------------------------------------------------------------------

  function ResetItem(i: ItemState): ItemState {
    if i.status.Processing? then i.(status := ItemStatus.Pending) else i
  }

  function ResetSource(s: SourceState): SourceState {
    s.(items := map id <- s.items :: ResetItem(s.items[id]))
  }

  function ResetStage(s: StageState): StageState {
    if s.status.Running? then s.(status := StageStatus.Pending) else s
  }

  function PrepareForResume(cp: Checkpoint): Checkpoint {
    cp.(state := cp.state.(
      status := PipelineStatus.Interrupted,
      sources := map name <- cp.state.sources :: ResetSource(cp.state.sources[name]),
      stages := map id <- cp.state.stages :: ResetStage(cp.state.stages[id])))
  }

  /** The nested loops of the reset, over sources and their items in any order. */
  method ResetSources(sources0: Sources) returns (sources: Sources)
    ensures sources == map name <- sources0 :: ResetSource(sources0[name])
  {
    sources := sources0;
    var pending := sources0.Keys;
    while pending != {}
      invariant pending <= sources0.Keys == sources.Keys
      invariant forall n :: n in sources ==>
                sources[n] == if n in pending then sources0[n] else ResetSource(sources0[n])
    {
      var name :| name in pending;
      var items := sources[name].items;
      var left := items.Keys;
      while left != {}
        invariant left <= items.Keys == sources0[name].items.Keys
        invariant forall id :: id in items ==>
          items[id] == if id in left then sources0[name].items[id] else ResetItem(sources0[name].items[id])
      {
        var id :| id in left;
        if items[id].status.Processing? {
          items := items[id := items[id].(status := ItemStatus.Pending)];
        }
        left := left - {id};
      }
      assert items == ResetSource(sources0[name]).items;
      sources := sources[name := sources[name].(items := items)];
      pending := pending - {name};
    }
  }

  method ResetStages(stages0: map<StageId, StageState>) returns (stages: map<StageId, StageState>)
    ensures stages == map id <- stages0 :: ResetStage(stages0[id])
  {
    stages := stages0;
    var pending := stages0.Keys;
    while pending != {}
      invariant pending <= stages0.Keys == stages.Keys
      invariant forall n :: n in stages ==> stages[n] == if n in pending then stages0[n] else ResetStage(stages0[n])
    {
      var id :| id in pending;
      stages := stages[id := ResetStage(stages[id])];
      pending := pending - {id};
    }
  }

  /** An item in Processing is Pending again; nothing else of any item has changed. */
  ghost predicate ItemsReset(before: Sources, after: Sources) {
    && after.Keys == before.Keys
    && forall name :: name in before ==>
         && after[name] == before[name].(items := after[name].items)
         && after[name].items.Keys == before[name].items.Keys
         && forall id :: id in before[name].items ==>
              && after[name].items[id] == before[name].items[id].(status := after[name].items[id].status)
              && after[name].items[id].status == if before[name].items[id].status.Processing? then ItemStatus.Pending
                                                 else before[name].items[id].status
  }

  /** A stage in Running is Pending again, with its counters; nothing else of any stage has changed. */
  ghost predicate StagesReset(before: map<StageId, StageState>, after: map<StageId, StageState>) {
    && after.Keys == before.Keys
    && forall id :: id in before ==>
         && after[id] == before[id].(status := after[id].status)
         && after[id].status == if before[id].status.Running? then StageStatus.Pending else before[id].status
  }

  method PrepareCheckpoint(cp: Checkpoint) returns (r: Checkpoint)
    ensures r == PrepareForResume(cp)
    ensures ItemsReset(cp.state.sources, r.state.sources) && StagesReset(cp.state.stages, r.state.stages)
    ensures r.state.status == PipelineStatus.Interrupted
    ensures r == cp.(state := cp.state.(status := r.state.status, sources := r.state.sources, stages := r.state.stages))
  {
    var sources := ResetSources(cp.state.sources);
    var stages := ResetStages(cp.state.stages);
    r := cp.(state := cp.state.(status := PipelineStatus.Interrupted, sources := sources, stages := stages));
  }

  /** Nothing is mid-flight. */
  ghost predicate Settled(s: PipelineState) {
    && (forall name, id :: name in s.sources && id in s.sources[name].items ==>
          !s.sources[name].items[id].status.Processing?)
    && (forall id :: id in s.stages ==> !s.stages[id].status.Running?)
  }

  /** Preparing for resume changes only the pipeline status exactly when nothing was mid-flight. */
  lemma ResumeChangesOnlyStatusIff(cp: Checkpoint)
    ensures PrepareForResume(cp) == cp.(state := cp.state.(status := PipelineStatus.Interrupted)) <==> Settled(cp.state)
    ensures Settled(PrepareForResume(cp).state)
  {
    var s, r := cp.state, PrepareForResume(cp).state;
    if Settled(s) {
      forall name | name in s.sources ensures r.sources[name] == s.sources[name] {
        assert r.sources[name].items == s.sources[name].items;
      }
      assert r.sources == s.sources && r.stages == s.stages;
    }
    if r == s.(status := PipelineStatus.Interrupted) {
      forall name, id | name in s.sources && id in s.sources[name].items
        ensures !s.sources[name].items[id].status.Processing?
      {
        assert r.sources[name].items[id] == s.sources[name].items[id];
      }
      forall id | id in s.stages ensures !s.stages[id].status.Running? {
        assert r.stages[id] == s.stages[id];
      }
    }
  }

  predicate ConfigDrifted(cp: Checkpoint, currentSpecHash: string) {
    cp.specHash != currentSpecHash
  }
}
