/** What every history of runs, crashes and resumes keeps. */
module ProtocolProperties {
  import opened Order
  import opened Ids
  import opened Graphs
  import opened Schedule
  import opened ScheduleProperties
  import opened State
  import opened Store
  import opened RunnerModel
  import opened Protocol

  ghost predicate Valid(t: Topology) {
    Usable(t.schedule) && DistinctSources(t.sources)
  }

  /** Every schedule the scheduler produces is usable. */
  lemma SchedulesAreUsable(g: Graph, schedule: seq<seq<StageId>>)
    requires IsSchedule(g, schedule)
    ensures Usable(schedule)
  {
    forall i, j, id | 0 <= i < |schedule| && 0 <= j < |schedule| && id in schedule[i] && id in schedule[j]
      ensures i == j
    {
      InExactlyOneBatch(g, schedule, i, j, id);
    }
  }

  /** A persisted checkpoint: a good state whose status is Completed only after the last batch. */
  ghost predicate GoodCheckpoint(t: Topology, cp: Checkpoint) {
    && Good(t, cp.state) && cp.specHash == t.specHash && cp.schedule == t.schedule
    && (cp.state.status.Pending? || cp.state.status.Interrupted? || cp.state.status.Completed?)
    && (cp.state.status.Completed? ==> cp.state.currentBatch == |t.schedule|)
  }

  /** The live process agrees with the store up to the batch it has yet to persist. */
  ghost predicate GoodProcess(t: Topology, disk: Disk, p: Process) {
    && (!p.phase.Returned? ==> Good(t, p.v.state) && (p.v.state.status.Pending? || p.v.state.status.Interrupted?))
    && match p.phase
       case Starting => Agrees(disk, p.v.state) || (disk.checkpoint.None? && NeedsEnumeration(p.v.state))
       case Listed =>
         && p.v.state.currentBatch == 0 && AllPending(p.v.state.sources)
         && (disk.checkpoint.Some? ==> disk.checkpoint.value.state.currentBatch == 0)
       case Looping => Agrees(disk, p.v.state)
       case BatchDone => disk.checkpoint.Some? && p.v.state.currentBatch == disk.checkpoint.value.state.currentBatch + 1
       case Completing =>
         && Agrees(disk, p.v.state) && p.v.state.currentBatch == |t.schedule|
         && disk.hashes == CompletedHashes(p.v.state.sources)
       case Returned => true
  }

  /** The checkpoint is this state, up to the pipeline status. */
  ghost predicate Agrees(disk: Disk, s: PipelineState) {
    disk.checkpoint.Some? && s == disk.checkpoint.value.state.(status := s.status)
  }

  ghost predicate BlankHashes(hashes: map<string, string>) {
    forall id :: id in hashes ==> hashes[id] == ""
  }

  ghost predicate Invariant(t: Topology, s: System) {
    && (s.disk.checkpoint.Some? ==> GoodCheckpoint(t, s.disk.checkpoint.value))
    && BlankHashes(s.disk.hashes)
    && (s.process.Some? ==> GoodProcess(t, s.disk, s.process.value))
  }

  lemma {:induction false} HashesAreBlank(t: Topology, k: nat, sources: Sources, names: seq<string>)
    requires GoodSources(t.schedule, k, sources)
    ensures BlankHashes(HashesFrom(sources, names))
  {
    if names != [] {
      HashesAreBlank(t, k, sources, names[..|names| - 1]);
      var name := names[|names| - 1];
      if name in sources {
        assert GoodSource(t.schedule, k, sources[name]);
      }
    }
  }

  lemma CreateKeeps(t: Topology, s: System, runId: string, s': System)
    requires Invariant(t, s) && Transition(t, s, Create(runId), s')
    ensures Invariant(t, s')
  {
    if s.disk.checkpoint.Some? {
      GoodIsSettled(t, s.disk.checkpoint.value.state);
      ResumeChangesOnlyStatusIff(s.disk.checkpoint.value);
    } else {
      FreshStateIsGood(t, runId);
    }
  }

  lemma EnumerateKeeps(t: Topology, s: System, listing: Listing, s': System)
    requires Valid(t) && Invariant(t, s) && Transition(t, s, Enumerate(listing), s')
    ensures Invariant(t, s')
  {
    var v := s.process.value.v;
    NothingDiscovered(t, v.state);
    var start := Enumerated(v.state.sources, v.pool, None);
    EnumerationLists(start, t.sources, listing);
    var e := EnumerateAll(start, t.sources, listing);
    if e.error.None? {
      NothingIsUnchanged(e.sources, s.disk.hashes);
      FreshlyListedIsGood(t, v.state, e.sources);
    }
  }

  lemma BatchKeepsProcess(t: Topology, disk: Disk, v: Volatile, p: Process)
    requires Valid(t) && GoodProcess(t, disk, Process(v, Looping)) && v.state.currentBatch < |t.schedule|
    requires BatchStep(t, v.state.currentBatch, v, p)
    ensures GoodProcess(t, disk, p)
  {
    BatchStepKeepsGood(t, v, p);
  }

  lemma StepKeeps(t: Topology, s: System, e: Event, s': System)
    requires Valid(t) && Invariant(t, s) && Transition(t, s, e, s')
    ensures Invariant(t, s')
  {
    match e
    case Create(runId) => CreateKeeps(t, s, runId, s');
    case Enumerate(listing) => EnumerateKeeps(t, s, listing, s');
    case Execute(batch) => BatchKeepsProcess(t, s.disk, s.process.value.v, s'.process.value);
    case SaveHashes =>
      HashesAreBlank(t, s.process.value.v.state.currentBatch, s.process.value.v.state.sources,
                     KeyOrder(s.process.value.v.state.sources.Keys));
    case _ =>
  }

  lemma {:induction false} FollowsKeeps(t: Topology, states: seq<System>, events: seq<Event>, k: nat)
    requires Valid(t) && Follows(t, states, events) && Invariant(t, states[0]) && k < |states|
    ensures Invariant(t, states[k])
  {
    if 0 < k {
      FollowsKeeps(t, states, events, k - 1);
      assert Joined(t, states, events, k - 1);
      StepKeeps(t, states[k - 1], events[k - 1], states[k]);
    }
  }

  lemma HistoryKeeps(t: Topology, states: seq<System>, events: seq<Event>, k: nat)
    requires Valid(t) && IsHistory(t, states, events) && k < |states|
    ensures Invariant(t, states[k])
  {
    FollowsKeeps(t, states, events, k);
  }

  // -- Progress is never lost -------------------------------------------------------------------

  function PersistedBatch(s: System): nat {
    if s.disk.checkpoint.Some? then s.disk.checkpoint.value.state.currentBatch else 0
  }

  lemma StepIsMonotone(t: Topology, s: System, e: Event, s': System)
    requires Invariant(t, s) && Transition(t, s, e, s')
    ensures PersistedBatch(s) <= PersistedBatch(s')
    ensures s.disk.checkpoint.Some? ==> s'.disk.checkpoint.Some?
    ensures e.Execute? ==> e.batch == PersistedBatch(s)
  {
  }

  lemma {:induction false} Monotone(t: Topology, states: seq<System>, events: seq<Event>, i: nat, j: nat)
    requires Valid(t) && IsHistory(t, states, events) && i <= j < |states|
    ensures PersistedBatch(states[i]) <= PersistedBatch(states[j])
    ensures states[i].disk.checkpoint.Some? ==> states[j].disk.checkpoint.Some?
    decreases j
  {
    if i < j {
      Monotone(t, states, events, i, j - 1);
      HistoryKeeps(t, states, events, j - 1);
      assert Joined(t, states, events, j - 1);
      StepIsMonotone(t, states[j - 1], events[j - 1], states[j]);
    }
  }

  /** The persisted batch never decreases, and no batch below it is executed again. */
  lemma NoBatchTwice(t: Topology, states: seq<System>, events: seq<Event>, i: nat, j: nat)
    requires Valid(t) && IsHistory(t, states, events) && i <= j < |events|
    ensures PersistedBatch(states[i]) <= PersistedBatch(states[j])
    ensures events[j].Execute? ==> PersistedBatch(states[i]) <= events[j].batch
  {
    Monotone(t, states, events, i, j);
    HistoryKeeps(t, states, events, j);
    assert Joined(t, states, events, j);
    StepIsMonotone(t, states[j], events[j], states[j + 1]);
  }

  /** A persisted Completed status means every batch has run and every stage is Completed. */
  lemma CompletedMeansAllBatches(t: Topology, states: seq<System>, events: seq<Event>, k: nat)
    requires Valid(t) && IsHistory(t, states, events) && k < |states|
    requires states[k].disk.checkpoint.Some? && states[k].disk.checkpoint.value.state.status.Completed?
    ensures states[k].disk.checkpoint.value.state.currentBatch == |t.schedule|
    ensures forall id :: id in Scheduled(t.schedule) ==>
              id in states[k].disk.checkpoint.value.state.stages
              && states[k].disk.checkpoint.value.state.stages[id].status == StageStatus.Completed
  {
    HistoryKeeps(t, states, events, k);
    forall id | id in Scheduled(t.schedule)
      ensures id in states[k].disk.checkpoint.value.state.stages
              && states[k].disk.checkpoint.value.state.stages[id].status == StageStatus.Completed
    {
      var batch :| batch in t.schedule && id in batch;
      var i :| 0 <= i < |t.schedule| && t.schedule[i] == batch;
    }
  }

  /**
   * Every persisted checkpoint is at a batch boundary: earlier stages Completed, later ones Pending, no item
   * mid-flight, stage records in batch order; so a resume changes nothing but the pipeline status.
   */
  lemma CheckpointShape(t: Topology, states: seq<System>, events: seq<Event>, k: nat)
    requires Valid(t) && IsHistory(t, states, events) && k < |states| && states[k].disk.checkpoint.Some?
    ensures var cp := states[k].disk.checkpoint.value;
            && GoodStages(t.schedule, cp.state.currentBatch, cp.state.stages)
            && (forall n, id :: n in cp.state.sources && id in cp.state.sources[n].items ==>
                  Ordered(t.schedule, cp.state.currentBatch, cp.state.sources[n].items[id].completedStages))
            && PrepareForResume(cp) == cp.(state := cp.state.(status := PipelineStatus.Interrupted))
  {
    var cp := states[k].disk.checkpoint.value;
    HistoryKeeps(t, states, events, k);
    GoodIsSettled(t, cp.state);
    ResumeChangesOnlyStatusIff(cp);
    forall n, id | n in cp.state.sources && id in cp.state.sources[n].items
      ensures Ordered(t.schedule, cp.state.currentBatch, cp.state.sources[n].items[id].completedStages)
    {
      assert GoodSource(t.schedule, cp.state.currentBatch, cp.state.sources[n]);
      assert GoodItem(t.schedule, cp.state.currentBatch, cp.state.sources[n].items[id]);
    }
  }

  ghost predicate NeverSkipped(sources: Sources) {
    forall n, id :: n in sources && id in sources[n].items ==>
      !sources[n].items[id].status.Unchanged? && sources[n].items[id].contentHash == ""
  }

  /**
   * The incrementality check never skips anything: every stored hash is blank, every item's hash is blank, and no
   * item is ever Unchanged.
   */
  lemma IncrementalityNeverApplies(t: Topology, states: seq<System>, events: seq<Event>, k: nat)
    requires Valid(t) && IsHistory(t, states, events) && k < |states|
    ensures BlankHashes(states[k].disk.hashes)
    ensures states[k].disk.checkpoint.Some? ==> NeverSkipped(states[k].disk.checkpoint.value.state.sources)
  {
    HistoryKeeps(t, states, events, k);
    if states[k].disk.checkpoint.Some? {
      var s := states[k].disk.checkpoint.value.state;
      forall n, id | n in s.sources && id in s.sources[n].items
        ensures !s.sources[n].items[id].status.Unchanged? && s.sources[n].items[id].contentHash == ""
      {
        assert GoodSource(t.schedule, s.currentBatch, s.sources[n]);
        assert GoodItem(t.schedule, s.currentBatch, s.sources[n].items[id]);
      }
    }
  }

  /**
   * No persisted checkpoint has a failed item, since a failure ends the process before the checkpoint: so the failure
   * count that decides between the two lifecycle actions at the end of a run is always 0.
   */
  lemma NoFailureIsPersisted(t: Topology, states: seq<System>, events: seq<Event>, k: nat)
    requires Valid(t) && IsHistory(t, states, events) && k < |states| && states[k].disk.checkpoint.Some?
    ensures var s := states[k].disk.checkpoint.value.state;
            && s.stats.failed == 0
            && forall n, id :: n in s.sources && id in s.sources[n].items ==> !s.sources[n].items[id].status.Failed?
  {
    var s := states[k].disk.checkpoint.value.state;
    HistoryKeeps(t, states, events, k);
    forall n, id | n in s.sources && id in s.sources[n].items ensures !s.sources[n].items[id].status.Failed? {
      assert GoodSource(t.schedule, s.currentBatch, s.sources[n]);
      assert GoodItem(t.schedule, s.currentBatch, s.sources[n].items[id]);
    }
    TotalZero(s.sources, FailedItems);
    forall n | n in s.sources ensures FailedItems(s.sources[n]) == 0 {
      assert (set id | id in s.sources[n].items && s.sources[n].items[id].status.Failed?) == {};
      NoneCounted(s.sources[n].items, (i: ItemStatus) => i.Failed?);
    }
  }

  lemma NoneCounted(items: map<string, ItemState>, p: ItemStatus -> bool)
    requires forall id :: id in items ==> !p(items[id].status)
    ensures CountWhere(items, p) == 0
  {
    assert (set id | id in items && p(items[id].status)) == {};
  }

  // -- Finalisation --------------------------------------------------------------------------------

  /** All batches are persisted, and these are the hashes the run should leave. */
  ghost predicate Finalising(t: Topology, s: System, hashes: map<string, string>) {
    && s.disk.checkpoint.Some? && s.disk.checkpoint.value.state.currentBatch == |t.schedule|
    && CompletedHashes(s.disk.checkpoint.value.state.sources) == hashes
  }

  lemma {:induction false} NoCompletedNoHashes(sources: Sources, names: seq<string>)
    requires forall n, id :: n in sources && id in sources[n].items ==> !sources[n].items[id].status.Completed?
    ensures HashesFrom(sources, names) == map[]
  {
    if names != [] {
      NoCompletedNoHashes(sources, names[..|names| - 1]);
    }
  }

  lemma RecordsNeedBatches(schedule: seq<seq<StageId>>, k: nat, records: seq<StageId>)
    requires Ordered(schedule, k, records) && records != []
    ensures 0 < k
  {
    assert BatchIndex(schedule, records[0]) < k;
  }

  lemma NothingCompletedAtZero(t: Topology, s: PipelineState)
    requires Good(t, s) && s.currentBatch == 0
    ensures CompletedHashes(s.sources) == map[]
  {
    forall n, id | n in s.sources && id in s.sources[n].items ensures !s.sources[n].items[id].status.Completed? {
      assert GoodSource(t.schedule, 0, s.sources[n]);
      var i := s.sources[n].items[id];
      assert GoodItem(t.schedule, 0, i);
      if i.completedStages != [] {
        RecordsNeedBatches(t.schedule, 0, i.completedStages);
      }
    }
    NoCompletedNoHashes(s.sources, KeyOrder(s.sources.Keys));
  }

  lemma FinalisingStep(t: Topology, s: System, e: Event, s': System, hashes: map<string, string>)
    requires Valid(t) && Invariant(t, s) && Transition(t, s, e, s') && Finalising(t, s, hashes)
    ensures Finalising(t, s', hashes)
    ensures s'.disk.hashes == if e.SaveHashes? then hashes else s.disk.hashes
    ensures e.Complete? ==> s'.disk.hashes == hashes
    ensures !e.Execute?
  {
    if e.Persist? {
      var p := s.process.value;
      if p.phase.Listed? {
        NothingCompletedAtZero(t, p.v.state);
        NothingCompletedAtZero(t, s.disk.checkpoint.value.state);
      }
    }
  }

  /** From `i` to `j`, the finalising checkpoint stays, and at most its hashes are written. */
  ghost predicate FinalisesFrom(t: Topology, states: seq<System>, events: seq<Event>, i: int, j: int,
                                hashes: map<string, string>)
    requires 0 <= i <= j < |states| && |states| == |events| + 1
  {
    && Finalising(t, states[j], hashes)
    && (states[j].disk.hashes == states[i].disk.hashes || states[j].disk.hashes == hashes)
    && (i < j ==> !events[j - 1].Execute? && (events[j - 1].Complete? ==> states[j].disk.hashes == hashes))
  }

  lemma FinalisesNext(t: Topology, states: seq<System>, events: seq<Event>, i: nat, k: nat, hashes: map<string, string>)
    requires i <= k < |events| && |states| == |events| + 1 && FinalisesFrom(t, states, events, i, k, hashes)
    requires Finalising(t, states[k + 1], hashes) && !events[k].Execute?
    requires states[k + 1].disk.hashes == if events[k].SaveHashes? then hashes else states[k].disk.hashes
    requires events[k].Complete? ==> states[k + 1].disk.hashes == hashes
    ensures FinalisesFrom(t, states, events, i, k + 1, hashes)
  {
  }

  lemma {:induction false} StaysFinalising(t: Topology, states: seq<System>, events: seq<Event>, i: nat, j: nat,
                                           hashes: map<string, string>)
    requires Valid(t) && IsHistory(t, states, events) && i <= j < |states| && Finalising(t, states[i], hashes)
    ensures FinalisesFrom(t, states, events, i, j, hashes)
    decreases j
  {
    if i < j {
      StaysFinalising(t, states, events, i, j - 1, hashes);
      assert Finalising(t, states[j - 1], hashes);
      FinalisingTurn(t, states, events, j - 1, hashes);
      FinalisesNext(t, states, events, i, j - 1, hashes);
    }
  }

  /**
   * Once the last batch is persisted, any number of crashes and resumes leaves the same hashes to save, those of the
   * items that this checkpoint has Completed: each save writes exactly them, and a run that completes leaves exactly
   * them in the store. Nothing is executed again.
   */
  lemma FinalisationIsIdempotent(t: Topology, states: seq<System>, events: seq<Event>, i: nat, j: nat,
                                 hashes: map<string, string>)
    requires Valid(t) && IsHistory(t, states, events) && i <= j < |states| && Finalising(t, states[i], hashes)
    ensures HashesOfCompleted(states[i].disk.checkpoint.value.state.sources, hashes)
    ensures FinalisesFrom(t, states, events, i, j, hashes)
  {
    CompletedHashesAre(states[i].disk.checkpoint.value.state.sources);
    StaysFinalising(t, states, events, i, j, hashes);
  }

  lemma FinalisingTurn(t: Topology, states: seq<System>, events: seq<Event>, k: nat, hashes: map<string, string>)
    requires Valid(t) && IsHistory(t, states, events) && k < |events| && Finalising(t, states[k], hashes)
    ensures Finalising(t, states[k + 1], hashes) && !events[k].Execute?
    ensures states[k + 1].disk.hashes == if events[k].SaveHashes? then hashes else states[k].disk.hashes
    ensures events[k].Complete? ==> states[k + 1].disk.hashes == hashes
  {
    HistoryKeeps(t, states, events, k);
    assert Joined(t, states, events, k);
    FinalisingStep(t, states[k], events[k], states[k + 1], hashes);
  }
}
