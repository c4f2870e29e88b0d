/** The pipeline runner: the object that enumerates, executes batches, checkpoints and finalises. */
module PipelineRunner {
  import opened Seqs
  import opened Order
  import opened Ids
  import opened Items
  import opened Batch
  import opened BatchProperties
  import opened Pool
  import opened State
  import opened Store
  import opened RunnerModel
  import opened Protocol
  import opened Confluence

  class Runner {
    const topology: Topology
    const store: InMemoryStateStore
    var state: PipelineState
    var checkpointSequence: nat
    var activeItems: seq<PipelineItem>

    function View(): Volatile
      reads this
    {
      Volatile(state, checkpointSequence, activeItems)
    }

    constructor (topology: Topology, store: InMemoryStateStore, state: PipelineState)
      ensures this.topology == topology && this.store == store && View() == Volatile(state, 0, [])
    {
      this.topology, this.store, this.state := topology, store, state;
      checkpointSequence, activeItems := 0, [];
    }

    /** Resume from the stored checkpoint unless its specification drifted; otherwise start afresh. */
    static method New(topology: Topology, store: InMemoryStateStore, runId: string)
      returns (r: Result<Runner, RunError>)
      ensures r.Err? <==> store.View().checkpoint.Some? && store.View().checkpoint.value.specHash != topology.specHash
      ensures r.Err? <==> forall s :: !Transition(topology, System(store.View(), None), Create(runId), s)
      ensures r.Ok? ==> fresh(r.value) && r.value.topology == topology && r.value.store == store
      ensures r.Ok? ==> r.value.View() == Volatile(
        if store.View().checkpoint.Some? then PrepareForResume(store.View().checkpoint.value).state
        else FreshState(topology, runId), 0, [])
      ensures r.Ok? && store.View().checkpoint.None? ==>
        && r.value.state.sources == map[] && r.value.state.currentBatch == 0
        && (forall batch, id :: batch in topology.schedule && id in batch ==> id in r.value.state.stages)
        && forall id :: id in r.value.state.stages ==>
             r.value.state.stages[id] == StageState(StageStatus.Pending, 0, 0, 0)
      ensures r.Ok? ==> Transition(topology, System(store.View(), None), Create(runId), r.value.At(Starting))
    {
      var loaded := store.LoadCheckpoint();
      var initial: PipelineState;
      if loaded.Some? {
        if ConfigDrifted(loaded.value, topology.specHash) {
          return Err(ConfigDrift(loaded.value.specHash, topology.specHash));
        }
        var prepared := PrepareCheckpoint(loaded.value);
        initial := prepared.state;
      } else {
        var stages := FreshStages(topology.schedule);
        initial := PipelineState(runId, topology.name, PipelineStatus.Pending, 0, map[], stages, NO_STATS);
      }
      var runner := new Runner(topology, store, initial);
      assert Transition(topology, System(store.View(), None), Create(runId), runner.At(Starting));
      return Ok(runner);
    }

    method EnumerateSources(listing: Listing) returns (error: Option<RunError>)
      modifies this
      ensures var e := EnumerateAll(Enumerated(old(state.sources), old(activeItems), None), topology.sources, listing);
              error == e.error && View() == old(View()).(
                state := old(state).(sources := e.sources,
                                     stats := if error.None? then StatsOf(e.sources) else old(state.stats)),
                pool := e.pool)
      ensures error != Some(Hung)
    {
      ghost var start := Enumerated(state.sources, activeItems, None);
      for k := 0 to |topology.sources|
        invariant EnumerateAll(start, topology.sources[..k], listing) == Enumerated(state.sources, activeItems, None)
        invariant View() == old(View()).(state := old(state).(sources := state.sources), pool := activeItems)
      {
        var source := topology.sources[k];
        assert topology.sources[..k + 1][..k] == topology.sources[..k];
        PrefixError(start, topology.sources, listing, k + 1);
        var items := listing(source.name);
        if items.Err? {
          return Some(SourceEnumeration(source.name, items.error));
        }
        AddSource(source, items.value, listing);
      }
      assert topology.sources[..|topology.sources|] == topology.sources;
      var stats := UpdateStats(state.sources);
      state := state.(stats := stats);
      return None;
    }

    /** One source's items enter its state and the pool. */
    method AddSource(source: SourceSpec, items: seq<SourceItem>, ghost listing: Listing)
      requires listing(source.name) == Ok(items)
      modifies this`state, this`activeItems
      ensures var e := EnumerateSource(Enumerated(old(state.sources), old(activeItems), None), source, listing);
              e.error.None? && state == old(state).(sources := e.sources) && activeItems == e.pool
    {
      var was := if source.name in state.sources then state.sources[source.name] else NO_SOURCE_STATE;
      var added := AddAll(was.(itemsDiscovered := |items|), items, source.name);
      state := state.(sources := state.sources[source.name := added]);
      activeItems := activeItems + PoolItems(items, source);
    }

    method ApplyIncrementality()
      modifies this
      ensures var marked := Incremental(old(state.sources), store.View().hashes);
              View() == old(View()).(state := old(state).(sources := marked, stats := StatsOf(marked)))
    {
      var previous := store.LoadPreviousHashes();
      var sources := state.sources;
      var left := sources.Keys;
      while left != {}
        invariant left <= sources.Keys == state.sources.Keys
        invariant View() == old(View())
        invariant forall n :: n in sources ==>
          sources[n] == if n in left then state.sources[n] else MarkUnchanged(state.sources[n], previous)
      {
        var name :| name in left;
        sources := sources[name := MarkUnchanged(sources[name], previous)];
        left := left - {name};
      }
      assert sources == Incremental(state.sources, previous);
      var stats := UpdateStats(sources);
      state := state.(sources := sources, stats := stats);
    }

    method SaveState()
      modifies this`checkpointSequence, store
      ensures View() == old(View()).(sequence := old(checkpointSequence) + 1)
      ensures store.View() == old(store.View()).(checkpoint := Some(CheckpointOf(topology, old(View()))))
    {
      checkpointSequence := checkpointSequence + 1;
      store.SaveCheckpoint(Checkpoint(1, checkpointSequence, topology.schedule, topology.specHash, state));
    }

    method MergeStageResult(o: Outcome) returns (error: Option<RunError>)
      modifies this
      ensures View() == Merged(topology, old(View()), o)
      ensures error == if o.failures == [] then None
                       else Some(ItemFailed(o.stageId.name, o.failures[0].itemId, o.failures[0].error.message))
    {
      var outputStream := OutputStream(topology, o.stageId);
      var sources, consumed, newItems := RecordSuccesses(state.sources, o.successes, o.stageId, outputStream);
      var more;
      sources, more := RecordSkips(sources, o.skipped, o.stageId);
      consumed := consumed + more;
      sources, more := RecordFailures(sources, o.failures, o.stageId);
      consumed := consumed + more;
      activeItems := Retained(activeItems, consumed) + newItems;
      var stages := state.stages;
      if o.stageId in stages {
        stages := stages[o.stageId := MergedStage(stages[o.stageId], o)];
      }
      state := state.(sources := sources, stages := stages);
      if o.failures != [] {
        return Some(ItemFailed(o.stageId.name, o.failures[0].itemId, o.failures[0].error.message));
      }
      var stats := UpdateStats(sources);
      state := state.(stats := stats);
      return None;
    }

    /** Mark the batch's stages running and hand each its items; stops at a stage the topology lacks. */
    method StartBatch(batch: seq<StageId>) returns (tasks: seq<Task>, error: Option<RunError>)
      modifies this`state
      ensures error.None? ==>
              View() == Started(old(View()), batch) && TasksFor(topology, old(activeItems), batch, tasks)
      ensures error.None? ==> forall k: nat :: !MissingAt(topology, batch, k)
      ensures error != Some(Hung)
      ensures error.Some? ==>
              exists k: nat :: MissingAt(topology, batch, k) && View() == Started(old(View()), batch[..k])
    {
      tasks, error := [], None;
      for k := 0 to |batch|
        invariant View() == Started(old(View()), batch[..k])
        invariant TasksFor(topology, activeItems, batch[..k], tasks)
        invariant forall j :: 0 <= j < k ==> batch[j] in topology.stages
      {
        var id := batch[k];
        if id !in topology.stages {
          assert MissingAt(topology, batch, k);
          return [], Some(ItemFailed(id.name, "", "stage '" + id.name + "' not found in topology"));
        }
        StartedPush(View(), old(View()), batch, k);
        TasksPush(topology, activeItems, batch, k, tasks);
        tasks := tasks + [Task(topology.stages[id], Accepted(activeItems, InputStreams(topology, id)))];
        if id in state.stages {
          state := state.(stages := state.stages[id := state.stages[id].(status := StageStatus.Running)]);
        }
      }
      assert batch[..|batch|] == batch;
    }

    /** Stages run concurrently, so their results arrive in any order; the first failure aborts the rest. */
    method ExecuteBatch(batch: seq<StageId>) returns (error: Option<RunError>)
      requires WellKeyed(topology)
      modifies this
      ensures error != Some(Hung) ==> BatchExecuted(topology, batch, old(View()), View(), error.None?)
      ensures error == Some(Hung) ==> topology.concurrency == 0
      ensures checkpointSequence == old(checkpointSequence)
    {
      var tasks;
      tasks, error := StartBatch(batch);
      if error.Some? {
        MissingWitness(topology, batch, old(View()), View());
        return;
      }
      ghost var arrived: seq<Outcome> := [];
      ghost var start := View();
      NothingArrived(topology, start, batch, tasks);
      while tasks != []
        invariant Joining(topology, start, batch, arrived, tasks, View())
        invariant error.None? && checkpointSequence == old(checkpointSequence)
        decreases |tasks|
      {
        var k :| 0 <= k < |tasks|;
        var result, hung := RunTask(topology, start.pool, tasks[k]);
        if hung {
          return Some(Hung);
        }
        TakeTask(topology, start, batch, arrived, tasks, k, result.Contents(), View());
        arrived := arrived + [result.Contents()];
        error := MergeStageResult(result.Contents());
        if error.Some? {
          BatchWitness(topology, batch, old(View()), View(), error.None?, arrived);
          return;
        }
        tasks := Without(tasks, k);
      }
      AllArrived(topology, start, batch, arrived, View());
      BatchWitness(topology, batch, old(View()), View(), error.None?, arrived);
    }

    method SaveCompletedHashes()
      modifies store
      ensures store.View() == old(store.View()).(hashes := CompletedHashes(state.sources))
      ensures HashesOfCompleted(state.sources, store.View().hashes)
    {
      var hashes := CollectHashes(state.sources);
      store.SaveCompletedHashes(state.runId, hashes);
    }

    ghost function At(phase: Phase): System
      reads this, store
    {
      System(store.View(), Some(Process(View(), phase)))
    }

    /** A checkpoint between phases. */
    method PersistProgress(phase: Phase, ghost h: History, ghost first: System) returns (ghost h': History)
      requires (phase.Listed? || phase.BatchDone?) && Reaches(topology, h, first, At(phase))
      modifies this`checkpointSequence, store
      ensures Reaches(topology, h', first, At(Looping)) && state == old(state) && h'.events == h.events + [Persist]
    {
      ghost var after := Persisted(topology, store.View(), View(), Looping);
      SaveState();
      assert At(Looping) == after;
      h' := Append(topology, h, Persist, after);
    }

    /** Phase 1: enumerate unless that was done before. */
    method Discover(listing: Listing, ghost h: History, ghost first: System)
      returns (error: Option<RunError>, ghost h': History)
      requires Reaches(topology, h, first, At(Starting))
      modifies this, store
      ensures Reaches(topology, h', first, At(if error.None? then Looping else Returned))
      ensures error != Some(Hung)
      ensures h'.events == h.events + if error.Some? then [Event.Enumerate(listing)]
                                      else Opening(old(NeedsEnumeration(state)), listing)
      ensures error.Some? ==> old(NeedsEnumeration(state))
      ensures error.None? ==> state.currentBatch == old(state.currentBatch)
    {
      if state.currentBatch == 0 && state.stats.discovered == 0 {
        error := EnumerateSources(listing);
        if error.Some? {
          h' := Append(topology, h, Event.Enumerate(listing), At(Returned));
          return;
        }
        ApplyIncrementality();
        h' := Append(topology, h, Event.Enumerate(listing), At(Listed));
        h' := PersistProgress(Listed, h', first);
      } else {
        error := None;
        h' := Append(topology, h, SkipEnumeration, At(Looping));
      }
    }

    /** The execution half of a turn of phase 2. */
    method ExecuteCurrent(ghost h: History, ghost first: System) returns (error: Option<RunError>, ghost h': History)
      requires WellKeyed(topology) && state.currentBatch < |topology.schedule| &&
               Reaches(topology, h, first, At(Looping))
      modifies this
      ensures error != Some(Hung) ==>
        && Reaches(topology, h', first,
                   System(store.View(), Some(AfterBatch(View(), old(state.currentBatch), error.None?))))
        && h'.events == h.events + [Execute(old(state.currentBatch))] && state.currentBatch == old(state.currentBatch)
      ensures error == Some(Hung) ==> topology.concurrency == 0 && h' == h
    {
      ghost var before := View();
      error := ExecuteBatch(topology.schedule[state.currentBatch]);
      h' := h;
      if error != Some(Hung) {
        BatchKeepsIndex(topology, topology.schedule[before.state.currentBatch], before, View(), error.None?);
        ExecuteTransition(topology, store.View(), before, View(), error.None?);
        h' := Append(topology, h, Execute(before.state.currentBatch),
                     System(store.View(), Some(AfterBatch(View(), before.state.currentBatch, error.None?))));
      }
    }

    /** One turn of phase 2: execute the current batch and checkpoint. */
    method AdvanceBatch(ghost h: History, ghost first: System) returns (error: Option<RunError>, ghost h': History)
      requires WellKeyed(topology) && state.currentBatch < |topology.schedule| &&
               Reaches(topology, h, first, At(Looping))
      modifies this, store
      ensures error != Some(Hung) ==> Reaches(topology, h', first, At(if error.None? then Looping else Returned))
      ensures error != Some(Hung) ==>
        h'.events == h.events + if error.None? then [Execute(old(state.currentBatch)), Persist]
                                else [Execute(old(state.currentBatch))]
      ensures error != Some(Hung) ==> state.currentBatch == old(state.currentBatch) + if error.None? then 1 else 0
      ensures error == Some(Hung) ==> topology.concurrency == 0 && h' == h && store.View() == old(store.View())
    {
      var batchIndex := state.currentBatch;
      error, h' := ExecuteCurrent(h, first);
      if error.Some? {
        return;
      }
      state := state.(currentBatch := batchIndex + 1);
      h' := PersistProgress(BatchDone, h', first);
    }

    /** Phase 4: save the hashes and the completing checkpoint. */
    method Finalise(ghost h: History, ghost first: System) returns (ghost h': History)
      requires |topology.schedule| <= state.currentBatch && Reaches(topology, h, first, At(Looping))
      modifies this, store
      ensures Reaches(topology, h', first, At(Returned))
      ensures h'.events == h.events + [SaveHashes, Complete] && state.currentBatch == old(state.currentBatch)
    {
      SaveCompletedHashes();
      h' := Append(topology, h, SaveHashes, At(Completing));
      state := state.(status := PipelineStatus.Completed);
      SaveState();
      h' := Append(topology, h', Complete, At(Returned));
    }

    /**
     * A whole run. The ghost history shows that it takes only steps of the protocol, from the state it started in to
     * the state it leaves: a failed enumeration, or its opening, its batches one by one, and completion or, with an
     * error, the batch that failed. It hangs only without permits.
     */
    method Run(listing: Listing) returns (error: Option<RunError>, ghost h: History)
      requires WellKeyed(topology)
      modifies this, store
      ensures error != Some(Hung) ==> Reaches(topology, h, old(At(Starting)), At(Returned))
      ensures error != Some(Hung) ==>
        || (error.Some? && old(NeedsEnumeration(state)) && h.events == [Event.Enumerate(listing)])
        || IsWholeRun(topology, h, listing, state.currentBatch, error.None?)
      ensures error.None? ==> |topology.schedule| <= state.currentBatch
      ensures error == Some(Hung) ==>
        && topology.concurrency == 0 && Follows(topology, h.states, h.events)
        && h.states[0] == old(At(Starting)) && h.states[|h.events|].disk == store.View()
    {
      ghost var first, from, enumerates := At(Starting), state.currentBatch, NeedsEnumeration(state);
      h := History([first], []);
      error, h := Discover(listing, h, first);
      if error.Some? {
        return;
      }
      for batchIndex := 0 to |topology.schedule|
        invariant batchIndex <= state.currentBatch && from <= state.currentBatch
        invariant Reaches(topology, h, first, At(Looping))
        invariant h.events == Opening(enumerates, listing) + Turns(from, state.currentBatch)
      {
        if state.currentBatch == batchIndex {
          error, h := AdvanceBatch(h, first);
          if error.Some? {
            return;
          }
        }
      }
      h := Finalise(h, first);
      error := None;
    }
  }

  /** A spawned stage with the items it was given. */
  datatype Task = Task(stage: ResolvedStage, items: seq<PipelineItem>)

  ghost predicate GoodTask(t: Topology, pool: seq<PipelineItem>, task: Task) {
    && task.stage.id in t.stages && task.stage == t.stages[task.stage.id]
    && task.items == Accepted(pool, InputStreams(t, task.stage.id))
  }

  function TaskIds(tasks: seq<Task>): seq<StageId> {
    seq(|tasks|, i requires 0 <= i < |tasks| => tasks[i].stage.id)
  }

  ghost predicate TasksFor(t: Topology, pool: seq<PipelineItem>, batch: seq<StageId>, tasks: seq<Task>) {
    WellKeyed(t) ==>
      TaskIds(tasks) == batch && forall i :: 0 <= i < |tasks| ==> GoodTask(t, pool, tasks[i])
  }

  lemma TasksPush(t: Topology, pool: seq<PipelineItem>, batch: seq<StageId>, k: nat, tasks: seq<Task>)
    requires k < |batch| && batch[k] in t.stages && TasksFor(t, pool, batch[..k], tasks)
    ensures TasksFor(t, pool, batch[..k + 1],
                     tasks + [Task(t.stages[batch[k]], Accepted(pool, InputStreams(t, batch[k])))])
  {
    var more := tasks + [Task(t.stages[batch[k]], Accepted(pool, InputStreams(t, batch[k])))];
    if WellKeyed(t) {
      assert TaskIds(more) == TaskIds(tasks) + [batch[k]] == batch[..k + 1];
    }
  }

  lemma StartedPush(v: Volatile, start: Volatile, batch: seq<StageId>, k: nat)
    requires k < |batch| && v == Started(start, batch[..k])
    ensures Started(start, batch[..k + 1]) ==
            if batch[k] !in v.state.stages then v
            else v.(state := v.state.(stages :=
                   v.state.stages[batch[k] := v.state.stages[batch[k]].(status := StageStatus.Running)]))
  {
    assert batch[..k + 1] == batch[..k] + [batch[k]];
    assert forall id :: id in batch[..k + 1] <==> id in batch[..k] || id == batch[k];
  }

  method RunTask(t: Topology, ghost pool: seq<PipelineItem>, task: Task) returns (result: StageResult, hung: bool)
    requires GoodTask(t, pool, task)
    ensures fresh(result)
    ensures hung ==> t.concurrency == 0
    ensures !hung ==> result.Contents().stageId == task.stage.id && IsResult(task.stage, task.items, result.Contents())
  {
    hung := false;
    if task.stage.requiresBatch {
      result := ExecuteStageBatch(task.stage, task.items);
    } else {
      ghost var order;
      result, hung, order := ExecuteStageItems(task.stage, task.items, t.concurrency);
      if !hung {
        CollectedStage(task.stage, task.items, order);
      }
    }
  }

  /** Part of the batch has been merged and the rest is still running. */
  ghost predicate Joining(t: Topology, start: Volatile, batch: seq<StageId>, arrived: seq<Outcome>, tasks: seq<Task>,
                          now: Volatile)
  {
    && (now, true) == MergedAll(t, start, arrived)
    && ResultsOf(t, start.pool, batch, arrived)
    && multiset(StageIdsOf(arrived)) + multiset(TaskIds(tasks)) == multiset(batch)
    && AllGood(t, start.pool, tasks)
  }

  ghost predicate AllGood(t: Topology, pool: seq<PipelineItem>, tasks: seq<Task>) {
    forall i :: 0 <= i < |tasks| ==> GoodTask(t, pool, tasks[i])
  }

  lemma NothingArrived(t: Topology, start: Volatile, batch: seq<StageId>, tasks: seq<Task>)
    requires TasksFor(t, start.pool, batch, tasks) && WellKeyed(t)
    ensures Joining(t, start, batch, [], tasks, start)
  {
  }

  lemma AllArrived(t: Topology, start: Volatile, batch: seq<StageId>, arrived: seq<Outcome>, now: Volatile)
    requires Joining(t, start, batch, arrived, [], now)
    ensures (now, true) == MergedAll(t, start, arrived) && ResultsOf(t, start.pool, batch, arrived)
    ensures multiset(StageIdsOf(arrived)) == multiset(batch)
  {
    assert TaskIds([]) == [];
  }

  lemma ExecuteTransition(t: Topology, disk: Disk, v: Volatile, v': Volatile, ok: bool)
    requires v.state.currentBatch < |t.schedule| && BatchExecuted(t, t.schedule[v.state.currentBatch], v, v', ok)
    ensures Transition(t, System(disk, Some(Process(v, Looping))), Execute(v.state.currentBatch),
                       System(disk, Some(AfterBatch(v', v.state.currentBatch, ok))))
  {
  }

  lemma MissingWitness(t: Topology, batch: seq<StageId>, v: Volatile, v': Volatile)
    requires exists k: nat :: MissingAt(t, batch, k) && v' == Started(v, batch[..k])
    ensures BatchExecuted(t, batch, v, v', false)
  {
  }

  lemma BatchWitness(t: Topology, batch: seq<StageId>, v: Volatile, v': Volatile, ok: bool, arrived: seq<Outcome>)
    requires forall k: nat :: !MissingAt(t, batch, k)
    requires ResultsOf(t, v.pool, batch, arrived) && (v', ok) == MergedAll(t, Started(v, batch), arrived)
    requires ok ==> multiset(StageIdsOf(arrived)) == multiset(batch)
    ensures BatchExecuted(t, batch, v, v', ok)
  {
  }

  /** The next result, whichever task it comes from. */
  lemma TakeTask(t: Topology, start: Volatile, batch: seq<StageId>, arrived: seq<Outcome>, tasks: seq<Task>, k: nat,
                 o: Outcome, now: Volatile)
    requires k < |tasks| && o.stageId == tasks[k].stage.id && IsResult(tasks[k].stage, tasks[k].items, o)
    requires Joining(t, start, batch, arrived, tasks, now)
    ensures ResultsOf(t, start.pool, batch, arrived + [o])
    ensures MergedAll(t, start, arrived + [o]) == (Merged(t, now, o), o.failures == [])
    ensures o.failures == [] ==> Joining(t, start, batch, arrived + [o], Without(tasks, k), Merged(t, now, o))
  {
    IdsMove(arrived, tasks, k, o);
    assert GoodTask(t, start.pool, tasks[k]);
    ResultsGrow(t, start.pool, batch, arrived, o, multiset(TaskIds(Without(tasks, k))));
    MergedAllSnoc(t, start, arrived, o);
    StillGood(t, start.pool, tasks, k);
  }

  lemma StillGood(t: Topology, pool: seq<PipelineItem>, tasks: seq<Task>, k: nat)
    requires k < |tasks| && AllGood(t, pool, tasks)
    ensures AllGood(t, pool, Without(tasks, k))
  {
  }

  lemma ResultsGrow(t: Topology, pool: seq<PipelineItem>, batch: seq<StageId>, arrived: seq<Outcome>, o: Outcome,
                    rest: multiset<StageId>)
    requires ResultsOf(t, pool, batch, arrived) && IsStageResult(t, pool, o)
    requires multiset(StageIdsOf(arrived + [o])) + rest == multiset(batch)
    ensures ResultsOf(t, pool, batch, arrived + [o])
  {
    var all := arrived + [o];
    forall i | 0 <= i < |all| ensures IsStageResult(t, pool, all[i]) {
      assert all[i] == if i < |arrived| then arrived[i] else o;
    }
  }

  lemma IdsMove(arrived: seq<Outcome>, tasks: seq<Task>, k: nat, o: Outcome)
    requires k < |tasks| && o.stageId == tasks[k].stage.id
    ensures multiset(StageIdsOf(arrived + [o])) + multiset(TaskIds(Without(tasks, k))) ==
            multiset(StageIdsOf(arrived)) + multiset(TaskIds(tasks))
  {
    assert StageIdsOf(arrived + [o]) == StageIdsOf(arrived) + [o.stageId];
    assert TaskIds(Without(tasks, k)) == Without(TaskIds(tasks), k);
    MultisetWithout(TaskIds(tasks), k);
  }

  lemma {:induction false} MergedAllSnoc(t: Topology, v: Volatile, arrived: seq<Outcome>, o: Outcome)
    requires MergedAll(t, v, arrived).1
    ensures MergedAll(t, v, arrived + [o]) == (Merged(t, MergedAll(t, v, arrived).0, o), o.failures == [])
    decreases |arrived|
  {
    if arrived == [] {
      assert [o][1..] == [];
    } else {
      assert (arrived + [o])[1..] == arrived[1..] + [o];
      MergedAllSnoc(t, Merged(t, v, arrived[0]), arrived[1..], o);
    }
  }

  ghost method Append(t: Topology, h: History, e: Event, s: System) returns (h': History)
    requires Follows(t, h.states, h.events) && Transition(t, h.states[|h.events|], e, s)
    ensures h' == History(h.states + [s], h.events + [e]) && Reaches(t, h', h.states[0], s)
  {
    h' := History(h.states + [s], h.events + [e]);
    forall k | 0 <= k < |h'.events| ensures Joined(t, h'.states, h'.events, k) {
      if k < |h.events| {
        assert Joined(t, h.states, h.events, k);
      }
    }
  }

  method RecordSuccesses(sources0: Sources, list: seq<StageItemSuccess>, stage: StageId, outputStream: Option<string>)
    returns (sources: Sources, consumed: set<string>, newItems: seq<PipelineItem>)
    ensures sources == MarkSuccesses(sources0, list, stage) && consumed == SuccessIds(list)
    ensures newItems == AllOutputs(list, outputStream)
  {
    sources, consumed, newItems := sources0, {}, [];
    for k := 0 to |list|
      invariant sources == MarkSuccesses(sources0, list[..k], stage) && newItems == AllOutputs(list[..k], outputStream)
      invariant consumed == SuccessIds(list[..k])
    {
      assert list[..k + 1][..k] == list[..k] && list[..k + 1] == list[..k] + [list[k]];
      SuccessIdsPush(list[..k], list[k]);
      consumed := consumed + {list[k].itemId};
      sources := Mark(sources, list[k].itemId, Succeed(stage));
      newItems := newItems + Retag(list[k].outputs, outputStream);
    }
    assert list[..|list|] == list;
  }

  method RecordSkips(sources0: Sources, list: seq<StageItemSkipped>, stage: StageId)
    returns (sources: Sources, consumed: set<string>)
    ensures sources == MarkSkips(sources0, list, stage) && consumed == SkipIds(list)
  {
    sources, consumed := sources0, {};
    for k := 0 to |list|
      invariant sources == MarkSkips(sources0, list[..k], stage) && consumed == SkipIds(list[..k])
    {
      assert list[..k + 1][..k] == list[..k] && list[..k + 1] == list[..k] + [list[k]];
      SkipIdsPush(list[..k], list[k]);
      consumed := consumed + {list[k].itemId};
      sources := Mark(sources, list[k].itemId, Skip(stage, list[k]));
    }
    assert list[..|list|] == list;
  }

  method RecordFailures(sources0: Sources, list: seq<StageItemFailure>, stage: StageId)
    returns (sources: Sources, consumed: set<string>)
    ensures sources == MarkFailures(sources0, list, stage) && consumed == FailureIds(list)
  {
    sources, consumed := sources0, {};
    for k := 0 to |list|
      invariant sources == MarkFailures(sources0, list[..k], stage) && consumed == FailureIds(list[..k])
    {
      assert list[..k + 1][..k] == list[..k] && list[..k + 1] == list[..k] + [list[k]];
      FailureIdsPush(list[..k], list[k]);
      consumed := consumed + {list[k].itemId};
      sources := Mark(sources, list[k].itemId, Fail(stage, list[k]));
    }
    assert list[..|list|] == list;
  }

  lemma {:induction false} PrefixError(e: Enumerated, list: seq<SourceSpec>, listing: Listing, k: nat)
    requires k <= |list|
    ensures EnumerateAll(e, list[..k], listing).error.Some? ==>
              EnumerateAll(e, list, listing) == EnumerateAll(e, list[..k], listing)
    decreases |list| - k
  {
    if k == |list| {
      assert list[..k] == list;
    } else {
      assert list[..k + 1][..k] == list[..k];
      PrefixError(e, list, listing, k + 1);
    }
  }

  /** Source by source in name order. */
  method CollectHashes(sources: Sources) returns (hashes: map<string, string>)
    ensures hashes == CompletedHashes(sources) && HashesOfCompleted(sources, hashes)
  {
    hashes := map[];
    var names := InKeyOrder(sources.Keys);
    for k := 0 to |names|
      invariant hashes == HashesFrom(sources, names[..k])
    {
      assert names[..k + 1][..k] == names[..k];
      assert names[k] in Elements(names);
      hashes := hashes + CompletedIn(sources[names[k]]);
    }
    assert names[..|names|] == names;
    CompletedHashesAre(sources);
  }

  /** Every scheduled stage, pending and with counters at 0. */
  method FreshStages(schedule: seq<seq<StageId>>) returns (stages: map<StageId, StageState>)
    ensures stages == map id <- Scheduled(schedule) :: FRESH_STAGE
    ensures forall batch, id :: batch in schedule && id in batch ==> id in stages
    ensures forall id :: id in stages ==> stages[id] == StageState(StageStatus.Pending, 0, 0, 0)
  {
    stages := map[];
    for i := 0 to |schedule|
      invariant stages == map id <- Scheduled(schedule[..i]) :: FRESH_STAGE
    {
      var batch := schedule[i];
      assert schedule[..i + 1] == schedule[..i] + [batch];
      for j := 0 to |batch|
        invariant stages == map id <- Scheduled(schedule[..i]) + Elements(batch[..j]) :: FRESH_STAGE
      {
        assert batch[..j + 1] == batch[..j] + [batch[j]];
        stages := stages[batch[j] := FRESH_STAGE];
      }
      assert batch[..|batch|] == batch;
      assert Scheduled(schedule[..i + 1]) == Scheduled(schedule[..i]) + Elements(batch);
    }
    assert schedule[..|schedule|] == schedule;
  }

  method AddAll(s: SourceState, items: seq<SourceItem>, source: string) returns (r: SourceState)
    ensures r == AddItems(s, items, source)
  {
    r := s;
    for k := 0 to |items|
      invariant r == AddItems(s, items[..k], source)
    {
      assert items[..k + 1][..k] == items[..k];
      r := r.(itemsAccepted := r.itemsAccepted + 1, items := r.items[items[k].id := NewItem(items[k], source)]);
    }
    assert items[..|items|] == items;
  }
}
