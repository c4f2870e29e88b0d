/** What a resume does not bring back: after a crash the pool is empty, and what that leads to. */
module Resume {
  import opened Seqs
  import opened Ids
  import opened Items
  import opened Batch
  import opened BatchProperties
  import opened Pool
  import opened State
  import opened Store
  import opened RunnerModel
  import opened Protocol
  import opened BatchEffects
  import opened BatchStates
  import opened ProtocolProperties

  // -- Nothing changes any more ---------------------------------------------------------------

  lemma NothingToSettle(o: Outcome)
    requires SettledIds(o) == multiset{}
    ensures o.successes == [] && o.skipped == [] && o.failures == []
  {
    LastIdsSettled(o);
  }

  lemma LastIdsSettled(o: Outcome)
    ensures o.successes != [] ==> SettledIds(o) != multiset{}
    ensures o.skipped != [] ==> SettledIds(o) != multiset{}
    ensures o.failures != [] ==> SettledIds(o) != multiset{}
  {
    if o.successes != [] {
      assert o.successes[|o.successes| - 1].itemId in SettledIds(o);
    }
    if o.skipped != [] {
      assert o.skipped[|o.skipped| - 1].itemId in SettledIds(o);
    }
    if o.failures != [] {
      assert o.failures[|o.failures| - 1].itemId in SettledIds(o);
    }
  }

  lemma {:induction false} EmptyPoolMerges(t: Topology, v: Volatile, arrived: seq<Outcome>)
    requires v.pool == [] && v.state.stats == StatsOf(v.state.sources)
    requires forall i :: 0 <= i < |arrived| ==> Accounts(arrived[i], [])
    ensures var (v', ok) := MergedAll(t, v, arrived);
            && ok && v'.pool == [] && v'.state.sources == v.state.sources && v'.state.stats == v.state.stats
            && v'.state.currentBatch == v.state.currentBatch
    decreases |arrived|
  {
    if arrived != [] {
      assert Accounts(arrived[0], []);
      NothingToSettle(arrived[0]);
      EmptyPoolMerges(t, Merged(t, v, arrived[0]), arrived[1..]);
    }
  }

  lemma EmptyPoolBatch(t: Topology, batch: seq<StageId>, v: Volatile, v': Volatile, ok: bool)
    requires v.pool == [] && v.state.stats == StatsOf(v.state.sources) && BatchExecuted(t, batch, v, v', ok)
    ensures v'.pool == [] && v'.state.sources == v.state.sources && v'.state.stats == v.state.stats
    ensures v'.state.currentBatch == v.state.currentBatch
  {
    if !exists k: nat :: MissingAt(t, batch, k) {
      var arrived: seq<Outcome> :|
        ResultsOf(t, v.pool, batch, arrived) && (v', ok) == MergedAll(t, Started(v, batch), arrived);
      forall i | 0 <= i < |arrived| ensures Accounts(arrived[i], []) {
        ResultAccounts(t.stages[arrived[i].stageId], Accepted([], InputStreams(t, arrived[i].stageId)), arrived[i]);
      }
      EmptyPoolMerges(t, Started(v, batch), arrived);
    }
  }

  /** Nothing is left to enumerate. */
  ghost predicate Idle(t: Topology, s: PipelineState) {
    t.sources == [] || !NeedsEnumeration(s)
  }

  /** These sources are persisted for good: no process holds an item, and none will list one. */
  ghost predicate Frozen(t: Topology, s: System, sources: Sources) {
    && s.disk.checkpoint.Some? && s.disk.checkpoint.value.state.sources == sources
    && Idle(t, s.disk.checkpoint.value.state)
    && (s.process.Some? ==>
          && s.process.value.v.pool == [] && s.process.value.v.state.sources == sources
          && Idle(t, s.process.value.v.state))
  }

  lemma NothingListed(t: Topology, disk: Disk, v: Volatile, listing: Listing)
    requires t.sources == [] && Good(t, v.state)
    ensures var p := AfterEnumeration(t, disk, v, listing); p.v.pool == v.pool && p.v.state.sources == v.state.sources
  {
    forall n, id | n in v.state.sources && id in v.state.sources[n].items
      ensures v.state.sources[n].items[id].contentHash == ""
    {
      assert GoodSource(t.schedule, v.state.currentBatch, v.state.sources[n]);
      assert GoodItem(t.schedule, v.state.currentBatch, v.state.sources[n].items[id]);
    }
    NothingIsUnchanged(v.state.sources, disk.hashes);
  }

  lemma FrozenExecute(t: Topology, s: System, batch: nat, s': System, sources: Sources)
    requires Valid(t) && Invariant(t, s) && Transition(t, s, Execute(batch), s') && Frozen(t, s, sources)
    ensures Frozen(t, s', sources)
  {
    var v := s.process.value.v;
    var v', ok :| BatchExecuted(t, t.schedule[batch], v, v', ok) && s'.process.value == AfterBatch(v', batch, ok);
    EmptyPoolBatch(t, t.schedule[batch], v, v', ok);
  }

  lemma FrozenCreate(t: Topology, s: System, runId: string, s': System, sources: Sources)
    requires Valid(t) && Invariant(t, s) && Transition(t, s, Create(runId), s') && Frozen(t, s, sources)
    ensures Frozen(t, s', sources)
  {
    GoodIsSettled(t, s.disk.checkpoint.value.state);
    ResumeChangesOnlyStatusIff(s.disk.checkpoint.value);
  }

  lemma FrozenStep(t: Topology, s: System, e: Event, s': System, sources: Sources)
    requires Valid(t) && Invariant(t, s) && Transition(t, s, e, s') && Frozen(t, s, sources)
    ensures Frozen(t, s', sources)
  {
    match e
    case Create(runId) => FrozenCreate(t, s, runId, s', sources);
    case Enumerate(listing) => NothingListed(t, s.disk, s.process.value.v, listing);
    case Execute(batch) => FrozenExecute(t, s, batch, s', sources);
    case _ =>
  }

  /** A history that goes on from `s`. */
  ghost predicate Continues(t: Topology, s: System, states: seq<System>, events: seq<Event>) {
    Follows(t, states, events) && states[0] == s
  }

  lemma {:induction false} StaysFrozen(t: Topology, states: seq<System>, events: seq<Event>, k: nat, sources: Sources)
    requires Valid(t) && Follows(t, states, events) && Invariant(t, states[0]) && Frozen(t, states[0], sources) &&
             k < |states|
    ensures Frozen(t, states[k], sources)
  {
    if 0 < k {
      StaysFrozen(t, states, events, k - 1, sources);
      FollowsKeeps(t, states, events, k - 1);
      assert Joined(t, states, events, k - 1);
      FrozenStep(t, states[k - 1], events[k - 1], states[k], sources);
    }
  }

  // -- A first listing --------------------------------------------------------------------------

  const ONE_ITEM := SourceItem("item", "item", "", "item")

  /** Every adapter lists one item. */
  function ListOne(): Listing {
    (name: string) => Ok([ONE_ITEM])
  }

  lemma AddedOne(s: SourceState, source: string)
    ensures var r := AddItems(s, [ONE_ITEM], source);
            r.itemsDiscovered == s.itemsDiscovered && ONE_ITEM.id in r.items && JustListed(r.items[ONE_ITEM.id])
  {
    assert [ONE_ITEM][..0] == [];
  }

  lemma {:induction false} ItemIsListed(e: Enumerated, list: seq<SourceSpec>)
    requires e.error.None?
    ensures EnumerateAll(e, list, ListOne()).error.None?
    ensures list != [] ==>
              var r, n := EnumerateAll(e, list, ListOne()), list[|list| - 1].name;
              && n in r.sources && ONE_ITEM.id in r.sources[n].items && r.sources[n].itemsDiscovered == 1
              && JustListed(r.sources[n].items[ONE_ITEM.id])
  {
    if list != [] {
      ItemIsListed(e, list[..|list| - 1]);
      var before, n := EnumerateAll(e, list[..|list| - 1], ListOne()), list[|list| - 1].name;
      var was := if n in before.sources then before.sources[n] else NO_SOURCE_STATE;
      AddedOne(was.(itemsDiscovered := 1), n);
    }
  }

  ghost predicate HasPending(sources: Sources) {
    exists n, id :: n in sources && id in sources[n].items && sources[n].items[id].status == ItemStatus.Pending
  }

  /** Persisted with pending items, and with nothing left to enumerate. */
  ghost predicate Stranded(s: System) {
    && s.process.None? && s.disk.checkpoint.Some?
    && HasPending(s.disk.checkpoint.value.state.sources) && !NeedsEnumeration(s.disk.checkpoint.value.state)
  }

  lemma ListedOne(t: Topology, disk: Disk, v: Volatile)
    requires Valid(t) && Good(t, v.state) && NeedsEnumeration(v.state) && t.sources != []
    ensures var p := AfterEnumeration(t, disk, v, ListOne());
            p.phase.Listed? && HasPending(p.v.state.sources) && !NeedsEnumeration(p.v.state)
  {
    var start := Enumerated(v.state.sources, v.pool, None);
    var e, n := EnumerateAll(start, t.sources, ListOne()), t.sources[|t.sources| - 1].name;
    ItemIsListed(start, t.sources);
    NothingDiscovered(t, v.state);
    EnumerationLists(start, t.sources, ListOne());
    NothingIsUnchanged(e.sources, disk.hashes);
    assert e.sources[n].items[ONE_ITEM.id].status == ItemStatus.Pending;
    TotalZero(e.sources, Discovered);
    assert Discovered(e.sources[n]) == 1;
  }

  /** A process that lists its items, checkpoints and dies. */
  lemma CrashAfterListing(t: Topology, s: System) returns (states: seq<System>, events: seq<Event>)
    requires Valid(t) && Invariant(t, s) && s.process.None? && t.sources != []
    requires s.disk.checkpoint.Some? ==> NeedsEnumeration(s.disk.checkpoint.value.state)
    ensures Continues(t, s, states, events) && Stranded(states[|events|])
  {
    var created := s.(process := Some(Process(Volatile(InitialState(t, s.disk, ""), 0, []), Starting)));
    CreateKeeps(t, s, "", created);
    var v := created.process.value.v;
    assert NeedsEnumeration(v.state);
    var listed := created.(process := Some(AfterEnumeration(t, s.disk, v, ListOne())));
    ListedOne(t, s.disk, v);
    var persisted := Persisted(t, s.disk, listed.process.value.v, Looping);
    var crashed := persisted.(process := None);
    states, events :=
      FourSteps(t, s, Create(""), created, Event.Enumerate(ListOne()), listed, Persist, persisted, Crash, crashed);
  }

  lemma FourSteps(t: Topology, a: System, e: Event, b: System, f: Event, c: System, g: Event, d: System, h: Event,
                  z: System)
    returns (states: seq<System>, events: seq<Event>)
    requires Transition(t, a, e, b) && Transition(t, b, f, c) && Transition(t, c, g, d) && Transition(t, d, h, z)
    ensures Continues(t, a, states, events) && states[|events|] == z
  {
    states, events := TwoSteps(t, c, g, d, h, z);
    Prepend(t, b, f, states, events);
    states, events := [b] + states, [f] + events;
    Prepend(t, a, e, states, events);
    states, events := [a] + states, [e] + events;
  }

  /** With a source to list there is a history whose last state has pending items that nothing will process. */
  lemma CrashExample(t: Topology) returns (states: seq<System>, events: seq<Event>)
    requires Valid(t) && t.sources != []
    ensures IsHistory(t, states, events) && Stranded(states[|events|])
  {
    states, events := CrashAfterListing(t, System(EMPTY_DISK, None));
  }

  /** Whatever happens next, the persisted sources are those of now. */
  ghost predicate NeverChanges(t: Topology, s: System)
    requires s.disk.checkpoint.Some?
  {
    forall states, events {:trigger Continues(t, s, states, events)} :: Continues(t, s, states, events) ==>
      SameSources(s, states[|events|])
  }

  ghost predicate SameSources(s: System, s': System)
    requires s.disk.checkpoint.Some?
  {
    s'.disk.checkpoint.Some? && s'.disk.checkpoint.value.state.sources == s.disk.checkpoint.value.state.sources
  }

  /**
   * After a process has died with a checkpoint, no item state ever changes again exactly when there is nothing to
   * list or the next run will not enumerate: its guard, a batch behind it or an item discovered, decides.
   */
  lemma FrozenIff(t: Topology, s: System)
    requires Valid(t) && Invariant(t, s) && s.process.None? && s.disk.checkpoint.Some?
    ensures NeverChanges(t, s) <==> t.sources == [] || !NeedsEnumeration(s.disk.checkpoint.value.state)
  {
    if Idle(t, s.disk.checkpoint.value.state) {
      forall states, events | Continues(t, s, states, events) ensures SameSources(s, states[|events|]) {
        StaysFrozen(t, states, events, |events|, s.disk.checkpoint.value.state.sources);
      }
    } else {
      var states, events := CrashAfterListing(t, s);
      NothingDiscovered(t, s.disk.checkpoint.value.state);
      assert !SameSources(s, states[|events|]);
    }
  }

  // -- And the run completes -------------------------------------------------------------------------

  /** Every scheduled stage is known. */
  ghost predicate StagesKnown(t: Topology) {
    forall id :: id in Scheduled(t.schedule) ==> id in t.stages
  }

  lemma NothingFails(t: Topology, id: StageId)
    requires id in t.stages
    ensures StageSucceeds(t, [], id)
  {
    StageSucceedsIff(t, [], id);
  }

  lemma BatchIsKnown(t: Topology, k: nat)
    requires StagesKnown(t) && k < |t.schedule|
    ensures forall id :: id in t.schedule[k] ==> id in t.stages
  {
    forall id | id in t.schedule[k] ensures id in t.stages {
      assert t.schedule[k] in t.schedule && id in Scheduled(t.schedule);
    }
  }

  /** An execution over an empty pool never fails. */
  lemma EmptyPoolSucceeds(t: Topology, k: nat, v: Volatile, v': Volatile, ok: bool)
    requires StagesKnown(t) && k < |t.schedule| && v.pool == [] && BatchExecuted(t, t.schedule[k], v, v', ok)
    ensures ok
  {
    BatchSucceedsIff(t, t.schedule[k], v, v', ok);
    BatchIsKnown(t, k);
    forall id | id in t.schedule[k] ensures StageSucceeds(t, v.pool, id) {
      NothingFails(t, id);
    }
  }

  lemma EmptyPoolExecutes(t: Topology, k: nat, v: Volatile) returns (v': Volatile)
    requires StagesKnown(t) && WellKeyed(t) && k < |t.schedule| && v.pool == []
    ensures BatchExecuted(t, t.schedule[k], v, v', true)
  {
    var batch := t.schedule[k];
    BatchIsKnown(t, k);
    var arrived: seq<Outcome> := seq(|batch|, i requires 0 <= i < |batch| => InOrder(t.stages[batch[i]], []));
    forall i | 0 <= i < |batch|
      ensures arrived[i].stageId == batch[i] && IsStageResult(t, [], arrived[i]) && arrived[i].failures == []
    {
      EmptyResult(t, batch[i]);
    }
    assert StageIdsOf(arrived) == batch;
    v' := Merges(t, batch, v, arrived);
  }

  /** Results of all stages of a batch, none with a failure, make an execution. */
  lemma Merges(t: Topology, batch: seq<StageId>, v: Volatile, arrived: seq<Outcome>) returns (v': Volatile)
    requires StageIdsOf(arrived) == batch && forall i :: 0 <= i < |batch| ==> batch[i] in t.stages
    requires forall i :: 0 <= i < |arrived| ==> IsStageResult(t, v.pool, arrived[i]) && arrived[i].failures == []
    ensures BatchExecuted(t, batch, v, v', true)
  {
    MergedWithoutFailures(t, Started(v, batch), arrived);
    v' := MergedAll(t, Started(v, batch), arrived).0;
    Witnessed(t, batch, v, v', arrived);
  }

  lemma EmptyResult(t: Topology, id: StageId)
    requires WellKeyed(t) && id in t.stages
    ensures var o := InOrder(t.stages[id], []);
            o.stageId == id && IsStageResult(t, [], o) && o.failures == []
  {
    var stage := t.stages[id];
    if !stage.requiresBatch {
      var none: seq<nat> := Range(0);
      assert IsPermutation(none, 0) && InOrder(stage, []) == Collected(stage, [], none);
    }
  }

  lemma Prepend(t: Topology, s: System, e: Event, states: seq<System>, events: seq<Event>)
    requires Follows(t, states, events) && Transition(t, s, e, states[0])
    ensures Continues(t, s, [s] + states, [e] + events) && ([s] + states)[|[e] + events|] == states[|events|]
  {
    var more, all := [s] + states, [e] + events;
    forall k | 0 <= k < |all| ensures Joined(t, more, all, k) {
      if 0 < k {
        assert Joined(t, states, events, k - 1);
      }
    }
  }

  ghost predicate NoCrash(events: seq<Event>) {
    forall k :: 0 <= k < |events| ==> !events[k].Crash?
  }

  /** A process about to execute, with nothing to execute. */
  ghost predicate Starved(t: Topology, s: System, sources: Sources) {
    && Invariant(t, s) && Frozen(t, s, sources)
    && s.process.Some? && s.process.value.phase.Looping? && s.process.value.v.state.currentBatch <= |t.schedule|
  }

  /** The last checkpoint says that the pipeline is complete. */
  ghost predicate CompletedWith(s: System, sources: Sources) {
    && s.disk.checkpoint.Some? && s.disk.checkpoint.value.state.status.Completed?
    && s.disk.checkpoint.value.state.sources == sources
  }

  lemma FinishOff(t: Topology, s: System, sources: Sources) returns (states: seq<System>, events: seq<Event>)
    requires Valid(t) && Starved(t, s, sources) && s.process.value.v.state.currentBatch == |t.schedule|
    ensures Continues(t, s, states, events) && NoCrash(events) && CompletedWith(states[|events|], sources)
  {
    var p := s.process.value;
    var saved := System(s.disk.(hashes := CompletedHashes(p.v.state.sources)), Some(p.(phase := Completing)));
    var done := Persisted(t, saved.disk, WithStatus(p.v, PipelineStatus.Completed), Returned);
    states, events := TwoSteps(t, s, SaveHashes, saved, Complete, done);
  }

  lemma TwoSteps(t: Topology, a: System, e: Event, b: System, f: Event, z: System)
    returns (states: seq<System>, events: seq<Event>)
    requires Transition(t, a, e, b) && Transition(t, b, f, z)
    ensures Continues(t, a, states, events) && events == [e, f] && states[|events|] == z
  {
    states, events := [a, b, z], [e, f];
    forall k | 0 <= k < |events| ensures Joined(t, states, events, k) {
      assert k == 0 || k == 1;
    }
  }

  lemma StarvedTurn(t: Topology, s: System, sources: Sources) returns (executed: System, persisted: System)
    requires Valid(t) && StagesKnown(t) && WellKeyed(t) && Starved(t, s, sources)
    requires s.process.value.v.state.currentBatch < |t.schedule|
    ensures Transition(t, s, Execute(s.process.value.v.state.currentBatch), executed)
    ensures Transition(t, executed, Persist, persisted)
    ensures Starved(t, persisted, sources)
    ensures persisted.process.value.v.state.currentBatch == s.process.value.v.state.currentBatch + 1
  {
    var v := s.process.value.v;
    var k := v.state.currentBatch;
    var v' := EmptyPoolExecutes(t, k, v);
    executed := s.(process := Some(AfterBatch(v', k, true)));
    persisted := Persisted(t, executed.disk, executed.process.value.v, Looping);
    assert BatchStep(t, k, v, executed.process.value);
    StepKeeps(t, s, Execute(k), executed);
    FrozenStep(t, s, Execute(k), executed, sources);
    StepKeeps(t, executed, Persist, persisted);
    FrozenStep(t, executed, Persist, persisted, sources);
  }

  lemma {:induction false} RunOut(t: Topology, s: System, sources: Sources)
    returns (states: seq<System>, events: seq<Event>)
    requires Valid(t) && StagesKnown(t) && WellKeyed(t) && Starved(t, s, sources)
    ensures Continues(t, s, states, events) && NoCrash(events) && CompletedWith(states[|events|], sources)
    decreases |t.schedule| - s.process.value.v.state.currentBatch
  {
    var k := s.process.value.v.state.currentBatch;
    if k == |t.schedule| {
      states, events := FinishOff(t, s, sources);
    } else {
      var executed, persisted := StarvedTurn(t, s, sources);
      states, events := RunOut(t, persisted, sources);
      Prepend(t, executed, Persist, states, events);
      states, events := [executed] + states, [Persist] + events;
      Prepend(t, s, Execute(k), states, events);
      states, events := [s] + states, [Execute(k)] + events;
    }
  }

  /**
   * A run that resumes without enumerating can complete, with the persisted sources, pending items included, unchanged.
   */
  lemma ResumeCompletesOnNothing(t: Topology, s: System) returns (states: seq<System>, events: seq<Event>)
    requires Valid(t) && StagesKnown(t) && WellKeyed(t) && Invariant(t, s)
    requires s.process.None? && s.disk.checkpoint.Some? && !NeedsEnumeration(s.disk.checkpoint.value.state)
    ensures Continues(t, s, states, events) && NoCrash(events)
    ensures CompletedWith(states[|events|], s.disk.checkpoint.value.state.sources)
  {
    var sources := s.disk.checkpoint.value.state.sources;
    var created := s.(process := Some(Process(Volatile(InitialState(t, s.disk, ""), 0, []), Starting)));
    FrozenStep(t, s, Create(""), created, sources);
    StepKeeps(t, s, Create(""), created);
    var v := created.process.value.v;
    GoodIsSettled(t, s.disk.checkpoint.value.state);
    ResumeChangesOnlyStatusIff(s.disk.checkpoint.value);
    var looping := created.(process := Some(created.process.value.(phase := Looping)));
    StepKeeps(t, created, SkipEnumeration, looping);
    FrozenStep(t, created, SkipEnumeration, looping, sources);
    states, events := RunOut(t, looping, sources);
    Prepend(t, created, SkipEnumeration, states, events);
    states, events := [created] + states, [SkipEnumeration] + events;
    Prepend(t, s, Create(""), states, events);
    states, events := [s] + states, [Create("")] + events;
  }

  /** In whatever continues such a state, no batch fails. */
  lemma StarvedBatchesSucceed(t: Topology, s: System, states: seq<System>, events: seq<Event>, k: nat)
    requires Valid(t) && StagesKnown(t) && Invariant(t, s) && Continues(t, s, states, events) && s.disk.checkpoint.Some?
    requires Frozen(t, s, s.disk.checkpoint.value.state.sources) && k < |events| && events[k].Execute?
    ensures states[k + 1].process.Some? && states[k + 1].process.value.phase.BatchDone?
  {
    StaysFrozen(t, states, events, k, s.disk.checkpoint.value.state.sources);
    assert Joined(t, states, events, k);
    var v, batch := states[k].process.value.v, events[k].batch;
    var v', ok :|
      BatchExecuted(t, t.schedule[batch], v, v', ok) && states[k + 1].process.value == AfterBatch(v', batch, ok);
    EmptyPoolSucceeds(t, batch, v, v', ok);
  }
}
