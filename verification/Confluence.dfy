/** Whole runs: however tasks and stages are scheduled, they agree on success and on the pool they leave. */
module Confluence {
  import opened Seqs
  import opened Ids
  import opened Items
  import opened Batch
  import opened BatchProperties
  import opened Pool
  import opened RunnerModel
  import opened BatchEffects
  import opened BatchStates
  import opened Protocol

  // -- Stages that do not depend on the order of their input --------------------------------------

  /** Equal up to order. */
  ghost predicate Alike<T>(a: seq<T>, b: seq<T>) {
    multiset(a) == multiset(b)
  }

  /** A batch handler answers alike on inputs that are alike; stages that work item by item always do. */
  ghost predicate Orderless(stage: ResolvedStage) {
    stage.requiresBatch ==> forall a, b :: Alike(a, b) ==> AnswersAlike(stage.processBatch(a), stage.processBatch(b))
  }

  ghost predicate AnswersAlike(x: ItemResult, y: ItemResult) {
    if x.Ok? then y.Ok? && Alike(x.value, y.value) else y.Err?
  }

  ghost predicate AllOrderless(t: Topology) {
    forall id :: id in t.stages ==> Orderless(t.stages[id])
  }

  lemma {:induction false} AcceptedCount(pool: seq<PipelineItem>, inputStreams: seq<string>, x: PipelineItem)
    ensures multiset(Accepted(pool, inputStreams))[x] ==
            if MatchesStream(inputStreams, x.stream) then multiset(pool)[x] else 0
  {
    if pool != [] {
      AcceptedCount(pool[..|pool| - 1], inputStreams, x);
      assert pool == pool[..|pool| - 1] + [pool[|pool| - 1]];
    }
  }

  lemma AcceptedAlike(p: seq<PipelineItem>, q: seq<PipelineItem>, inputStreams: seq<string>)
    requires Alike(p, q)
    ensures Alike(Accepted(p, inputStreams), Accepted(q, inputStreams))
  {
    forall x ensures multiset(Accepted(p, inputStreams))[x] == multiset(Accepted(q, inputStreams))[x] {
      AcceptedCount(p, inputStreams, x);
      AcceptedCount(q, inputStreams, x);
    }
  }

  lemma TakesAlike(p: seq<PipelineItem>, q: seq<PipelineItem>, inputStreams: seq<string>, id: string)
    requires Alike(p, q)
    ensures Takes(p, inputStreams, id) <==> Takes(q, inputStreams, id)
  {
    assert forall x :: (x in p <==> x in multiset(p)) && (x in q <==> x in multiset(q));
  }

  function SuccessBag(stage: ResolvedStage): PipelineItem -> multiset<StageItemSuccess> {
    (x: PipelineItem) =>
      if Retry(stage, x).result.Ok? then multiset{StageItemSuccess(x.id, Retry(stage, x).result.value)} else multiset{}
  }

  lemma SuccessesAre(stage: ResolvedStage, items: seq<PipelineItem>)
    requires IndicesBelow(Range(|items|), |items|)
    ensures multiset(Collected(stage, items, Range(|items|)).successes) == Sum(items, SuccessBag(stage))
  {
    CollectedSuccesses(stage, items, Range(|items|));
    SuccessesByIndex(stage, items);
  }

  lemma CollectedSuccesses(stage: ResolvedStage, items: seq<PipelineItem>, order: seq<nat>)
    requires IndicesBelow(order, |items|)
    ensures multiset(Collected(stage, items, order).successes) ==
            Sum<nat, StageItemSuccess>(order, SuccessOf(stage, items))
  {
    CollectedSums(stage, items, order);
  }

  lemma SuccessesByIndex(stage: ResolvedStage, items: seq<PipelineItem>)
    ensures Sum<nat, StageItemSuccess>(Range(|items|), SuccessOf(stage, items)) == Sum(items, SuccessBag(stage))
  {
    SumByIndex<PipelineItem, StageItemSuccess>(items, |items|, SuccessOf(stage, items), SuccessBag(stage));
    assert items[..|items|] == items;
  }

  lemma ItemOutputsAlike(stage: ResolvedStage, a: seq<PipelineItem>, b: seq<PipelineItem>, outputStream: Option<string>)
    requires !stage.requiresBatch && Alike(a, b)
    ensures Alike(AllOutputs(InOrder(stage, a).successes, outputStream),
                  AllOutputs(InOrder(stage, b).successes, outputStream))
  {
    RangeBelow(|a|, |a|);
    RangeBelow(|b|, |b|);
    SuccessesAre(stage, a);
    SuccessesAre(stage, b);
    SumPermutation(a, b, SuccessBag(stage));
    OutputsAreSum(InOrder(stage, a).successes, outputStream);
    OutputsAreSum(InOrder(stage, b).successes, outputStream);
    SumPermutation(InOrder(stage, a).successes, InOrder(stage, b).successes, BagOf(outputStream));
  }

  /** All outputs of a batch result, when the first success carries them. */
  lemma {:induction false} FirstOutputs(s: seq<StageItemSuccess>, outputs: seq<PipelineItem>,
                                        outputStream: Option<string>)
    requires forall i :: 0 <= i < |s| ==> s[i].outputs == if i == 0 then outputs else []
    ensures AllOutputs(s, outputStream) == if s == [] then [] else Retag(outputs, outputStream)
  {
    if s != [] {
      FirstOutputs(s[..|s| - 1], outputs, outputStream);
    }
  }

  lemma RetagAlike(a: seq<PipelineItem>, b: seq<PipelineItem>, outputStream: Option<string>)
    requires Alike(a, b)
    ensures Alike(Retag(a, outputStream), Retag(b, outputStream))
  {
    var f := (x: PipelineItem) => if outputStream.Some? then x.(stream := outputStream) else x;
    MappedPermutation(a, b, f);
    assert Retag(a, outputStream) == Mapped(a, f) && Retag(b, outputStream) == Mapped(b, f);
  }

  lemma BatchOutputsAlike(stage: ResolvedStage, a: seq<PipelineItem>, b: seq<PipelineItem>,
                          outputStream: Option<string>)
    requires stage.requiresBatch && Orderless(stage) && Alike(a, b)
    ensures Alike(AllOutputs(InOrder(stage, a).successes, outputStream),
                  AllOutputs(InOrder(stage, b).successes, outputStream))
  {
    var x, y := stage.processBatch(a), stage.processBatch(b);
    assert AnswersAlike(x, y);
    assert a == [] <==> b == [] by {
      assert |multiset(a)| == |multiset(b)|;
    }
    if x.Ok? {
      FirstOutputs(InOrder(stage, a).successes, x.value, outputStream);
      FirstOutputs(InOrder(stage, b).successes, y.value, outputStream);
      RetagAlike(x.value, y.value, outputStream);
    }
  }

  lemma OutputsAlike(t: Topology, p: seq<PipelineItem>, q: seq<PipelineItem>, id: StageId)
    requires AllOrderless(t) && Alike(p, q)
    ensures StageOutputs(t, p)(id) == StageOutputs(t, q)(id)
  {
    if id in t.stages {
      var a, b := Accepted(p, InputStreams(t, id)), Accepted(q, InputStreams(t, id));
      AcceptedAlike(p, q, InputStreams(t, id));
      if t.stages[id].requiresBatch {
        BatchOutputsAlike(t.stages[id], a, b, OutputStream(t, id));
      } else {
        ItemOutputsAlike(t.stages[id], a, b, OutputStream(t, id));
      }
    }
  }

  lemma SucceedsAlike(t: Topology, p: seq<PipelineItem>, q: seq<PipelineItem>, id: StageId)
    requires AllOrderless(t) && Alike(p, q)
    ensures StageSucceeds(t, p, id) <==> StageSucceeds(t, q, id)
  {
    if id in t.stages {
      var a, b := Accepted(p, InputStreams(t, id)), Accepted(q, InputStreams(t, id));
      AcceptedAlike(p, q, InputStreams(t, id));
      StageSucceedsIff(t, p, id);
      StageSucceedsIff(t, q, id);
      SucceedAlike(t.stages[id], a, b);
      if t.stages[id].requiresBatch {
        assert AnswersAlike(t.stages[id].processBatch(a), t.stages[id].processBatch(b));
      }
    }
  }

  lemma SucceedAlike(stage: ResolvedStage, a: seq<PipelineItem>, b: seq<PipelineItem>)
    requires Alike(a, b)
    ensures (AllSucceed(stage, a) <==> AllSucceed(stage, b)) && (a == [] <==> b == [])
  {
    assert |multiset(a)| == |multiset(b)|;
    SucceedElsewhere(stage, a, b);
    SucceedElsewhere(stage, b, a);
  }

  lemma SucceedElsewhere(stage: ResolvedStage, a: seq<PipelineItem>, b: seq<PipelineItem>)
    requires Alike(a, b)
    ensures AllSucceed(stage, a) ==> AllSucceed(stage, b)
  {
    if AllSucceed(stage, a) {
      forall i | 0 <= i < |b| ensures Retry(stage, b[i]).result.Ok? {
        assert b[i] in multiset(b);
        var k :| 0 <= k < |a| && a[k] == b[i];
      }
    }
  }

  lemma UndisturbedAlike(t: Topology, batch: seq<StageId>, p: seq<PipelineItem>, q: seq<PipelineItem>)
    requires AllOrderless(t) && Alike(p, q) && Undisturbed(t, batch, p)
    ensures Undisturbed(t, batch, q)
  {
    forall a, b, x | a in batch && b in batch && a != b && x in StageOutputs(t, q)(a)
      ensures !Takes(q, InputStreams(t, b), x.id)
    {
      OutputsAlike(t, p, q, a);
      TakesAlike(p, q, InputStreams(t, b), x.id);
    }
  }

  lemma LeftAlike(t: Topology, batch: seq<StageId>, v: Volatile, w: Volatile, v': Volatile, w': Volatile)
    requires AllOrderless(t) && Distinct(batch) && Alike(v.pool, w.pool) && Undisturbed(t, batch, v.pool)
    requires BatchExecuted(t, batch, v, v', true) && BatchExecuted(t, batch, w, w', true)
    ensures Alike(v'.pool, w'.pool)
  {
    UndisturbedAlike(t, batch, v.pool, w.pool);
    BatchLeaves(t, batch, v, v');
    BatchLeaves(t, batch, w, w');
    forall x ensures multiset(v'.pool)[x] == multiset(w'.pool)[x] {
      LeftOfAlike(t, batch, v.pool, w.pool, x);
    }
  }

  lemma LeftOfAlike(t: Topology, batch: seq<StageId>, p: seq<PipelineItem>, q: seq<PipelineItem>, x: PipelineItem)
    requires AllOrderless(t) && Alike(p, q)
    ensures LeftOf(t, batch, p, x) == LeftOf(t, batch, q, x)
  {
    forall id | id in batch ensures StageOutputs(t, p)(id) == StageOutputs(t, q)(id) {
      OutputsAlike(t, p, q, id);
    }
    SumSame(batch, StageOutputs(t, p), StageOutputs(t, q));
    TakenAlike(t, batch, p, q, x.id);
  }

  lemma TakenAlike(t: Topology, batch: seq<StageId>, p: seq<PipelineItem>, q: seq<PipelineItem>, id: string)
    requires Alike(p, q)
    ensures TakenByNone(t, batch, p, id) <==> TakenByNone(t, batch, q, id)
  {
    forall a | a in batch ensures Takes(p, InputStreams(t, a), id) <==> Takes(q, InputStreams(t, a), id) {
      TakesAlike(p, q, InputStreams(t, a), id);
    }
  }

  /** A batch executed from two pools that are alike succeeds on both or neither, and leaves pools that are alike. */
  lemma BatchConfluence(t: Topology, batch: seq<StageId>, v: Volatile, w: Volatile, v': Volatile, w': Volatile,
                        ok1: bool, ok2: bool)
    requires AllOrderless(t) && Distinct(batch) && Alike(v.pool, w.pool) && Undisturbed(t, batch, v.pool)
    requires BatchExecuted(t, batch, v, v', ok1) && BatchExecuted(t, batch, w, w', ok2)
    ensures ok1 == ok2 && (ok1 ==> Alike(v'.pool, w'.pool))
  {
    BatchSucceedsIff(t, batch, v, v', ok1);
    BatchSucceedsIff(t, batch, w, w', ok2);
    forall id | id in batch ensures StageSucceeds(t, v.pool, id) <==> StageSucceeds(t, w.pool, id) {
      SucceedsAlike(t, v.pool, w.pool, id);
    }
    if ok1 {
      LeftAlike(t, batch, v, w, v', w');
    }
  }

  // -- Whole runs -----------------------------------------------------------------------------------

  /** A process that starts, runs without interruption and returns, having persisted the batches below `to`. */
  ghost predicate IsWholeRun(t: Topology, h: History, listing: Listing, to: nat, ok: bool) {
    && Follows(t, h.states, h.events) && h.states[0].process.Some? && h.states[0].process.value.phase.Starting?
    && var s := h.states[0].process.value.v.state;
       && s.currentBatch <= to
       && h.events == RunEvents(NeedsEnumeration(s), listing, s.currentBatch, to, ok)
       && h.states[|h.events|].process.Some? && h.states[|h.events|].process.value.phase.Returned?
  }

  /** The first index after the opening. */
  ghost function Opened(h: History): nat
    requires h.states != [] && h.states[0].process.Some?
  {
    if NeedsEnumeration(h.states[0].process.value.v.state) then 2 else 1
  }

  function From(h: History): nat
    requires h.states != [] && h.states[0].process.Some?
  {
    h.states[0].process.value.v.state.currentBatch
  }

  /** The index at which the run turns to batch `j`. */
  ghost function TurnIndex(h: History, j: nat): nat
    requires h.states != [] && h.states[0].process.Some? && From(h) <= j
  {
    Opened(h) + 2 * (j - From(h))
  }

  lemma {:induction false} TurnsAt(from: nat, to: nat, j: nat)
    requires from <= to
    ensures |Turns(from, to)| == 2 * (to - from)
    ensures from <= j < to ==>
            Turns(from, to)[2 * (j - from)] == Execute(j) && Turns(from, to)[2 * (j - from) + 1] == Persist
  {
    if from < to {
      TurnsAt(from, to - 1, j);
    }
  }

  lemma EventsAt(t: Topology, h: History, listing: Listing, to: nat, ok: bool, j: nat)
    requires IsWholeRun(t, h, listing, to, ok) && From(h) <= j <= to
    ensures |h.events| == TurnIndex(h, to) + if ok then 2 else 1
    ensures j < to ==> h.events[TurnIndex(h, j)] == Execute(j) && h.events[TurnIndex(h, j) + 1] == Persist
    ensures j == to ==> h.events[TurnIndex(h, j)] == if ok then SaveHashes else Execute(to)
    ensures ok ==> h.events[TurnIndex(h, to) + 1] == Complete
  {
    var s := h.states[0].process.value.v.state;
    var opening, turns := Opening(NeedsEnumeration(s), listing), Turns(s.currentBatch, to);
    TurnsAt(s.currentBatch, to, j);
    assert |opening| == Opened(h);
    assert h.events == opening + turns + Ending(to, ok);
  }

  /** The process stands before batch `j`. */
  ghost predicate Before(s: System, j: nat) {
    s.process.Some? && s.process.value.phase.Looping? && s.process.value.v.state.currentBatch == j
  }

  /** The pool after the opening. */
  ghost function FirstPool(t: Topology, v: Volatile, listing: Listing): seq<PipelineItem> {
    if NeedsEnumeration(v.state) then EnumerateAll(Enumerated(v.state.sources, v.pool, None), t.sources, listing).pool
    else v.pool
  }

  lemma OpeningLeads(t: Topology, h: History, listing: Listing, to: nat, ok: bool)
    requires IsWholeRun(t, h, listing, to, ok)
    ensures Opened(h) <= |h.events| && Before(h.states[Opened(h)], From(h))
    ensures h.states[Opened(h)].process.value.v.pool == FirstPool(t, h.states[0].process.value.v, listing)
  {
    var s := h.states[0].process.value.v.state;
    EventsAt(t, h, listing, to, ok, From(h));
    var opening, turns := Opening(NeedsEnumeration(s), listing), Turns(s.currentBatch, to);
    assert h.events == opening + (turns + Ending(to, ok));
    assert Joined(t, h.states, h.events, 0);
    assert h.events[0] == opening[0];
    if NeedsEnumeration(s) {
      assert Joined(t, h.states, h.events, 1);
      assert h.events[1] == opening[1];
    }
  }

  /** One turn: the batch is executed and persisted. */
  lemma TurnLeads(t: Topology, h: History, listing: Listing, to: nat, ok: bool, j: nat) returns (v': Volatile)
    requires IsWholeRun(t, h, listing, to, ok) && From(h) <= j < to && TurnIndex(h, j) + 2 <= |h.events|
    requires Before(h.states[TurnIndex(h, j)], j)
    ensures j < |t.schedule|
    ensures BatchExecuted(t, t.schedule[j], h.states[TurnIndex(h, j)].process.value.v, v', true)
    ensures TurnIndex(h, j + 1) == TurnIndex(h, j) + 2 && Before(h.states[TurnIndex(h, j + 1)], j + 1)
    ensures h.states[TurnIndex(h, j + 1)].process.value.v.pool == v'.pool
  {
    EventsAt(t, h, listing, to, ok, j);
    v' := PersistedHasSucceeded(t, h.states, h.events, TurnIndex(h, j), j);
  }

  lemma {:induction false} ReachesTurn(t: Topology, h: History, listing: Listing, to: nat, ok: bool, j: nat)
    requires IsWholeRun(t, h, listing, to, ok) && From(h) <= j <= to
    ensures TurnIndex(h, j) <= |h.events| && Before(h.states[TurnIndex(h, j)], j)
    decreases j
  {
    EventsAt(t, h, listing, to, ok, j);
    if j == From(h) {
      OpeningLeads(t, h, listing, to, ok);
    } else {
      ReachesTurn(t, h, listing, to, ok, j - 1);
      var v' := TurnLeads(t, h, listing, to, ok, j - 1);
    }
  }

  ghost function PoolAt(h: History, j: nat): seq<PipelineItem>
    requires h.states != [] && h.states[0].process.Some? && From(h) <= j && TurnIndex(h, j) < |h.states|
    requires Before(h.states[TurnIndex(h, j)], j)
  {
    h.states[TurnIndex(h, j)].process.value.v.pool
  }

  /** In this run no stage puts out an id that another stage of its batch takes. */
  ghost predicate NeverDisturbed(t: Topology, h: History) {
    forall i {:trigger h.states[i]} :: 0 <= i < |h.states| && StandsBefore(t, h.states[i]) ==>
      Undisturbed(t, t.schedule[h.states[i].process.value.v.state.currentBatch], h.states[i].process.value.v.pool)
  }

  ghost predicate StandsBefore(t: Topology, s: System) {
    s.process.Some? && s.process.value.phase.Looping? && s.process.value.v.state.currentBatch < |t.schedule|
  }

  ghost predicate DistinctBatches(t: Topology) {
    forall j :: 0 <= j < |t.schedule| ==> Distinct(t.schedule[j])
  }

  /** One turn keeps the pools of two runs alike. */
  lemma TurnAlike(t: Topology, a: History, b: History, listing: Listing, to1: nat, ok1: bool, to2: nat, ok2: bool,
                  j: nat)
    requires AllOrderless(t) && DistinctBatches(t) && NeverDisturbed(t, a)
    requires IsWholeRun(t, a, listing, to1, ok1) && IsWholeRun(t, b, listing, to2, ok2) && a.states[0] == b.states[0]
    requires From(a) <= j < to1 && j < to2
    requires TurnIndex(a, j) <= |a.events| && Before(a.states[TurnIndex(a, j)], j)
    requires TurnIndex(b, j) <= |b.events| && Before(b.states[TurnIndex(b, j)], j)
    requires Alike(PoolAt(a, j), PoolAt(b, j))
    requires TurnIndex(a, j + 1) <= |a.events| && Before(a.states[TurnIndex(a, j + 1)], j + 1)
    requires TurnIndex(b, j + 1) <= |b.events| && Before(b.states[TurnIndex(b, j + 1)], j + 1)
    ensures Alike(PoolAt(a, j + 1), PoolAt(b, j + 1))
  {
    var v' := TurnLeads(t, a, listing, to1, ok1, j);
    var w' := TurnLeads(t, b, listing, to2, ok2, j);
    assert StandsBefore(t, a.states[TurnIndex(a, j)]);
    var v, w := a.states[TurnIndex(a, j)].process.value.v, b.states[TurnIndex(b, j)].process.value.v;
    BatchConfluence(t, t.schedule[j], v, w, v', w', true, true);
  }

  /** Two runs from one state meet alike pools before each batch that both reach. */
  lemma {:induction false} PoolsAlike(t: Topology, a: History, b: History, listing: Listing, to1: nat, ok1: bool,
                                      to2: nat, ok2: bool, j: nat)
    requires AllOrderless(t) && DistinctBatches(t) && NeverDisturbed(t, a)
    requires IsWholeRun(t, a, listing, to1, ok1) && IsWholeRun(t, b, listing, to2, ok2) && a.states[0] == b.states[0]
    requires From(a) <= j <= to1 && j <= to2
    ensures TurnIndex(a, j) <= |a.events| && Before(a.states[TurnIndex(a, j)], j)
    ensures TurnIndex(b, j) <= |b.events| && Before(b.states[TurnIndex(b, j)], j)
    ensures Alike(PoolAt(a, j), PoolAt(b, j))
    decreases j
  {
    ReachesTurn(t, a, listing, to1, ok1, j);
    ReachesTurn(t, b, listing, to2, ok2, j);
    if j == From(a) {
      OpeningLeads(t, a, listing, to1, ok1);
      OpeningLeads(t, b, listing, to2, ok2);
    } else {
      PoolsAlike(t, a, b, listing, to1, ok1, to2, ok2, j - 1);
      TurnAlike(t, a, b, listing, to1, ok1, to2, ok2, j - 1);
    }
  }

  /** A completing run has no batch left, and leaves the pool alone. */
  lemma CompletionLeads(t: Topology, h: History, listing: Listing, to: nat)
    requires IsWholeRun(t, h, listing, to, true) && TurnIndex(h, to) <= |h.events| &&
             Before(h.states[TurnIndex(h, to)], to)
    ensures |t.schedule| <= to && h.states[|h.events|].process.value.v.pool == PoolAt(h, to)
  {
    var i := TurnIndex(h, to);
    EventsAt(t, h, listing, to, true, to);
    SavingKeepsPool(t, h.states, h.events, i);
    CompletingKeepsPool(t, h.states, h.events, i + 1);
  }

  lemma SavingKeepsPool(t: Topology, states: seq<System>, events: seq<Event>, i: nat)
    requires Follows(t, states, events) && i < |events| && events[i] == SaveHashes
    ensures states[i].process.Some? && states[i + 1].process.Some?
    ensures |t.schedule| <= states[i].process.value.v.state.currentBatch
    ensures states[i + 1].process.value.v.pool == states[i].process.value.v.pool
  {
    assert Joined(t, states, events, i);
  }

  lemma CompletingKeepsPool(t: Topology, states: seq<System>, events: seq<Event>, i: nat)
    requires Follows(t, states, events) && i < |events| && events[i] == Complete
    ensures states[i].process.Some? && states[i + 1].process.Some?
    ensures states[i + 1].process.value.v.pool == states[i].process.value.v.pool
  {
    assert Joined(t, states, events, i);
  }

  /** An executed batch that ended the process has failed. */
  lemma ReturnedHasFailed(t: Topology, states: seq<System>, events: seq<Event>, i: nat, k: nat) returns (v': Volatile)
    requires Follows(t, states, events) && i < |events| && events[i] == Execute(k)
    requires states[i + 1].process.Some? && states[i + 1].process.value.phase.Returned?
    ensures k < |t.schedule| && states[i].process.Some?
    ensures BatchExecuted(t, t.schedule[k], states[i].process.value.v, v', false)
  {
    assert Joined(t, states, events, i);
    var done, good :| BatchExecuted(t, t.schedule[k], states[i].process.value.v, done, good)
                      && states[i + 1].process.value == AfterBatch(done, k, good);
    v' := done;
  }

  /** One that let it go on has succeeded. */
  lemma PersistedHasSucceeded(t: Topology, states: seq<System>, events: seq<Event>, i: nat, k: nat)
    returns (v': Volatile)
    requires Follows(t, states, events) && i + 1 < |events| && events[i] == Execute(k) && events[i + 1] == Persist
    ensures k < |t.schedule| && states[i].process.Some?
    ensures BatchExecuted(t, t.schedule[k], states[i].process.value.v, v', true)
    ensures Before(states[i + 2], k + 1) && states[i + 2].process.value.v.pool == v'.pool
  {
    PersistLeads(t, states, events, i + 1);
    assert Joined(t, states, events, i);
    var done, good :| BatchExecuted(t, t.schedule[k], states[i].process.value.v, done, good)
                      && states[i + 1].process.value == AfterBatch(done, k, good);
    v' := done;
  }

  lemma PersistLeads(t: Topology, states: seq<System>, events: seq<Event>, i: nat)
    requires Follows(t, states, events) && i < |events| && events[i] == Persist
    ensures states[i].process.Some? && !states[i].process.value.phase.Returned?
    ensures Before(states[i + 1], states[i].process.value.v.state.currentBatch)
    ensures states[i + 1].process.value.v.pool == states[i].process.value.v.pool
  {
    assert Joined(t, states, events, i);
  }

  lemma FailureLeads(t: Topology, h: History, listing: Listing, to: nat) returns (v': Volatile)
    requires IsWholeRun(t, h, listing, to, false) && TurnIndex(h, to) <= |h.events| &&
             Before(h.states[TurnIndex(h, to)], to)
    ensures to < |t.schedule| && BatchExecuted(t, t.schedule[to], h.states[TurnIndex(h, to)].process.value.v, v', false)
  {
    EventsAt(t, h, listing, to, false, to);
    v' := ReturnedHasFailed(t, h.states, h.events, TurnIndex(h, to), to);
  }

  /** A run that goes on past a batch shows that no other stops there. */
  lemma NoneStopsBefore(t: Topology, a: History, b: History, listing: Listing, to1: nat, ok1: bool, to2: nat, ok2: bool)
    requires AllOrderless(t) && DistinctBatches(t)
    requires IsWholeRun(t, a, listing, to1, ok1) && IsWholeRun(t, b, listing, to2, ok2) && a.states[0] == b.states[0]
    requires From(a) <= to1 <= to2
    requires TurnIndex(a, to1) <= |a.events| && Before(a.states[TurnIndex(a, to1)], to1)
    requires TurnIndex(b, to1) <= |b.events| && Before(b.states[TurnIndex(b, to1)], to1)
    requires Alike(PoolAt(a, to1), PoolAt(b, to1))
    requires to1 < |t.schedule| ==>
               Undisturbed(t, t.schedule[to1], PoolAt(a, to1)) || Undisturbed(t, t.schedule[to1], PoolAt(b, to1))
    ensures to1 == to2
  {
    if to1 < to2 {
      EventsAt(t, b, listing, to2, ok2, to1);
      EventsAt(t, b, listing, to2, ok2, to2);
      var w' := TurnLeads(t, b, listing, to2, ok2, to1);
      if ok1 {
        CompletionLeads(t, a, listing, to1);
      } else {
        var v' := FailureLeads(t, a, listing, to1);
        var v, w := a.states[TurnIndex(a, to1)].process.value.v, b.states[TurnIndex(b, to1)].process.value.v;
        if !Undisturbed(t, t.schedule[to1], v.pool) {
          UndisturbedAlike(t, t.schedule[to1], w.pool, v.pool);
        }
        BatchConfluence(t, t.schedule[to1], v, w, v', w', false, true);
      }
    }
  }

  lemma NoneGetsFurther(t: Topology, a: History, b: History, listing: Listing, to1: nat, ok1: bool, to2: nat, ok2: bool)
    requires AllOrderless(t) && DistinctBatches(t) && NeverDisturbed(t, a)
    requires IsWholeRun(t, a, listing, to1, ok1) && IsWholeRun(t, b, listing, to2, ok2) && a.states[0] == b.states[0]
    ensures to1 == to2
  {
    var j := if to1 <= to2 then to1 else to2;
    PoolsAlike(t, a, b, listing, to1, ok1, to2, ok2, j);
    assert j < |t.schedule| ==> StandsBefore(t, a.states[TurnIndex(a, j)]);
    if to1 <= to2 {
      NoneStopsBefore(t, a, b, listing, to1, ok1, to2, ok2);
    } else {
      NoneStopsBefore(t, b, a, listing, to2, ok2, to1, ok1);
    }
  }

  /**
   * Two uninterrupted runs from one state with the same listing persist the same batches, agree on whether they
   * complete, and if so leave pools that are equal up to order: for stages that do not depend on the order of their
   * input, and when no stage puts out an id that another of its batch takes.
   */
  lemma RunsAgree(t: Topology, a: History, b: History, listing: Listing, to1: nat, ok1: bool, to2: nat, ok2: bool)
    requires AllOrderless(t) && DistinctBatches(t) && NeverDisturbed(t, a)
    requires IsWholeRun(t, a, listing, to1, ok1) && IsWholeRun(t, b, listing, to2, ok2) && a.states[0] == b.states[0]
    ensures to1 == to2 && ok1 == ok2
    ensures ok1 ==> Alike(a.states[|a.events|].process.value.v.pool, b.states[|b.events|].process.value.v.pool)
  {
    NoneGetsFurther(t, a, b, listing, to1, ok1, to2, ok2);
    PoolsAlike(t, a, b, listing, to1, ok1, to2, ok2, to1);
    if ok1 {
      CompletionLeads(t, a, listing, to1);
    } else {
      var v' := FailureLeads(t, a, listing, to1);
    }
    if ok2 {
      CompletionLeads(t, b, listing, to2);
    } else {
      var w' := FailureLeads(t, b, listing, to2);
    }
  }
}
