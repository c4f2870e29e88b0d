/** Which items a stage is given, and what becomes of them: told by the specification and the handlers alone. */
module Routing {
  import opened Seqs
  import opened Ids
  import opened Items
  import opened Batch
  import opened BatchProperties
  import opened Pool
  import opened State
  import opened RunnerModel
  import opened RunnerProperties
  import opened BatchEffects

  // -- What a stage is given ------------------------------------------------------------------------

  /** An untagged item goes to every stage, a tagged one to those that list its tag or, listing none, take all. */
  ghost predicate GivenTo(t: Topology, id: StageId, x: PipelineItem) {
    x.stream.Some? && id in t.specs && t.specs[id].inputStreams != [] ==> x.stream.value in t.specs[id].inputStreams
  }

  /** These positions of the pool, in order, are those whose items go to the stage. */
  ghost predicate GivenAt(t: Topology, id: StageId, pool: seq<PipelineItem>, at: seq<nat>) {
    && Ascending(at, |pool|)
    && forall k :: 0 <= k < |pool| ==> (k in at <==> GivenTo(t, id, pool[k]))
  }

  lemma GivenPush(t: Topology, id: StageId, pool: seq<PipelineItem>, x: PipelineItem, at: seq<nat>)
    requires GivenAt(t, id, pool, at)
    ensures GivenTo(t, id, x) ==> GivenAt(t, id, pool + [x], at + [|pool|])
    ensures !GivenTo(t, id, x) ==> GivenAt(t, id, pool + [x], at)
  {
    var pool' := pool + [x];
    assert forall k :: 0 <= k < |pool| ==> pool'[k] == pool[k];
    assert forall k :: k in at + [|pool|] <==> k in at || k == |pool|;
  }

  lemma GivenIsMatch(t: Topology, id: StageId, x: PipelineItem)
    ensures GivenTo(t, id, x) <==> MatchesStream(InputStreams(t, id), x.stream)
  {
  }

  lemma AcceptedPush(pool: seq<PipelineItem>, x: PipelineItem, inputStreams: seq<string>)
    ensures Accepted(pool + [x], inputStreams) ==
            Accepted(pool, inputStreams) + if MatchesStream(inputStreams, x.stream) then [x] else []
  {
    assert (pool + [x])[..|pool|] == pool;
  }

  /** A stage gets exactly the items that go to it, in the order of the pool. */
  lemma {:induction false} StageIsGiven(t: Topology, id: StageId, pool: seq<PipelineItem>) returns (at: seq<nat>)
    ensures GivenAt(t, id, pool, at) && Accepted(pool, InputStreams(t, id)) == Picked(pool, at)
  {
    if pool == [] {
      at := [];
    } else {
      var init, last := pool[..|pool| - 1], pool[|pool| - 1];
      at := StageIsGiven(t, id, init);
      SplitLast(pool);
      GivenPush(t, id, init, last, at);
      GivenIsMatch(t, id, last);
      AcceptedPush(init, last, InputStreams(t, id));
      PickedPush(init, last, at);
      if GivenTo(t, id, last) {
        at := at + [|init|];
      }
    }
  }

  /** Some item of the pool with this id goes to the stage. */
  ghost predicate GivenId(t: Topology, id: StageId, pool: seq<PipelineItem>, itemId: string) {
    exists y :: y in pool && y.id == itemId && GivenTo(t, id, y)
  }

  /** A result tells of this item. */
  ghost predicate Mentions(o: Outcome, itemId: string) {
    || (exists s :: s in o.successes && s.itemId == itemId)
    || (exists s :: s in o.skipped && s.itemId == itemId)
    || (exists f :: f in o.failures && f.itemId == itemId)
  }

  /** A stage's result tells of exactly the ids of the items that go to it. */
  lemma ResultMentions(t: Topology, pool: seq<PipelineItem>, o: Outcome, itemId: string)
    requires IsStageResult(t, pool, o)
    ensures Mentions(o, itemId) <==> GivenId(t, o.stageId, pool, itemId)
    ensures itemId in Consumed(o) <==> GivenId(t, o.stageId, pool, itemId)
  {
    ConsumedByResult(t, pool, o, itemId);
    if GivenId(t, o.stageId, pool, itemId) {
      var y :| y in pool && y.id == itemId && GivenTo(t, o.stageId, y);
      assert MatchesStream(InputStreams(t, o.stageId), y.stream);
    }
    if Takes(pool, InputStreams(t, o.stageId), itemId) {
      var y :| y in pool && MatchesStream(InputStreams(t, o.stageId), y.stream) && y.id == itemId;
      assert GivenTo(t, o.stageId, y);
    }
  }

  // -- What becomes of the item states --------------------------------------------------------------------

  ghost predicate CompletedOrSkipped(status: ItemStatus) {
    status.Completed? || status.Skipped?
  }

  /** Merging results without failures settles the items they consume and leaves the others alone. */
  lemma {:induction false} MergedItem(t: Topology, v: Volatile, arrived: seq<Outcome>, n: string, id: string)
    requires MergedAll(t, v, arrived).1 && n in v.state.sources && id in v.state.sources[n].items
    ensures var sources := MergedAll(t, v, arrived).0.state.sources;
            && n in sources && id in sources[n].items
            && if ConsumedByOne(arrived, id) then CompletedOrSkipped(sources[n].items[id].status)
               else sources[n].items[id] == v.state.sources[n].items[id]
    decreases |arrived|
  {
    if arrived != [] {
      ItemAfterMerge(v.state.sources, arrived[0], n, id);
      SkipStatusIs(arrived[0].skipped, arrived[0].stageId, id);
      MergedItem(t, Merged(t, v, arrived[0]), arrived[1..], n, id);
      ConsumedHere(arrived, id);
    }
  }

  /** Some item of the pool with this id goes to some stage of the batch. */
  ghost predicate GivenInBatch(t: Topology, batch: seq<StageId>, pool: seq<PipelineItem>, itemId: string) {
    exists a :: a in batch && GivenId(t, a, pool, itemId)
  }

  /**
   * After a successful batch a known item is Completed or Skipped exactly as it was given to some stage: otherwise
   * nothing of it has changed.
   */
  lemma BatchSettles(t: Topology, batch: seq<StageId>, v: Volatile, v': Volatile, n: string, id: string)
    requires BatchExecuted(t, batch, v, v', true) && n in v.state.sources && id in v.state.sources[n].items
    ensures n in v'.state.sources && id in v'.state.sources[n].items
    ensures if GivenInBatch(t, batch, v.pool, id) then CompletedOrSkipped(v'.state.sources[n].items[id].status)
            else v'.state.sources[n].items[id] == v.state.sources[n].items[id]
  {
    var arrived := ArrivedResults(t, batch, v, v');
    MergedItem(t, Started(v, batch), arrived, n, id);
    if i :| 0 <= i < |arrived| && id in Consumed(arrived[i]) {
      ArrivedFromBatch(batch, arrived, i);
      ResultMentions(t, v.pool, arrived[i], id);
    }
    if a :| a in batch && GivenId(t, a, v.pool, id) {
      var i := BatchHasArrived(batch, arrived, a);
      ResultMentions(t, v.pool, arrived[i], id);
    }
  }

  /** No stage of the batch takes an id exactly when no item with that id goes to any of them. */
  lemma TakenByNoneIff(t: Topology, batch: seq<StageId>, pool: seq<PipelineItem>, itemId: string)
    ensures TakenByNone(t, batch, pool, itemId) <==> !GivenInBatch(t, batch, pool, itemId)
  {
    forall a ensures Takes(pool, InputStreams(t, a), itemId) <==> GivenId(t, a, pool, itemId) {
      if y :| y in pool && MatchesStream(InputStreams(t, a), y.stream) && y.id == itemId {
        assert GivenTo(t, a, y);
      }
      if y :| y in pool && y.id == itemId && GivenTo(t, a, y) {
        assert MatchesStream(InputStreams(t, a), y.stream);
      }
    }
  }

  /**
   * Every untagged item is consumed by a successful batch that has a stage: what the pool then holds of it are outputs,
   * and a known item with its id is Completed or Skipped.
   */
  lemma UntaggedAreConsumed(t: Topology, batch: seq<StageId>, v: Volatile, v': Volatile, x: PipelineItem)
    requires BatchExecuted(t, batch, v, v', true) && batch != [] && x in v.pool && x.stream.None?
    ensures Distinct(batch) && Undisturbed(t, batch, v.pool) ==>
              multiset(v'.pool)[x] == Sum(batch, StageOutputs(t, v.pool))[x]
    ensures forall n :: n in v.state.sources && x.id in v.state.sources[n].items ==>
              && n in v'.state.sources && x.id in v'.state.sources[n].items
              && CompletedOrSkipped(v'.state.sources[n].items[x.id].status)
  {
    assert GivenTo(t, batch[0], x);
    assert GivenId(t, batch[0], v.pool, x.id);
    assert GivenInBatch(t, batch, v.pool, x.id);
    if Distinct(batch) && Undisturbed(t, batch, v.pool) {
      BatchLeaves(t, batch, v, v');
      TakenByNoneIff(t, batch, v.pool, x.id);
    }
    forall n | n in v.state.sources && x.id in v.state.sources[n].items
      ensures n in v'.state.sources && x.id in v'.state.sources[n].items
              && CompletedOrSkipped(v'.state.sources[n].items[x.id].status)
    {
      BatchSettles(t, batch, v, v', n, x.id);
    }
  }

  // -- What the handlers put out -----------------------------------------------------------------------

  /** The handler's `k`-th call for the item is its first to succeed, and is still allowed. */
  ghost predicate FirstSuccess(stage: ResolvedStage, item: PipelineItem, k: nat) {
    && (k == 0 || k < stage.maxAttempts) && stage.process(item, k).Ok?
    && forall j :: 0 <= j < k ==> stage.process(item, j).Err?
  }

  lemma RetryIsFirstSuccess(stage: ResolvedStage, item: PipelineItem)
    ensures Retry(stage, item).result.Ok? <==> exists k: nat :: FirstSuccess(stage, item, k)
    ensures forall k: nat :: FirstSuccess(stage, item, k) ==> Retry(stage, item).result == stage.process(item, k)
  {
    RetryFromSettles(stage, item, 0);
    var last: nat := Retry(stage, item).attempts - 1;
    if Retry(stage, item).result.Ok? {
      assert FirstSuccess(stage, item, last);
    }
    forall k: nat | FirstSuccess(stage, item, k) ensures k == last {
      assert k < last ==> stage.process(item, k).Err?;
      assert last < k ==> stage.process(item, last).Err?;
    }
  }

  /** The handler puts this out for these items: with the first successful call for one of them, or for all at once. */
  ghost predicate PutsOut(stage: ResolvedStage, items: seq<PipelineItem>, y: PipelineItem) {
    if stage.requiresBatch then
      items != [] && stage.processBatch(items).Ok? && y in stage.processBatch(items).value
    else exists item, k: nat :: item in items && FirstSuccess(stage, item, k) && y in stage.process(item, k).value
  }

  /** One of the successes carries this output. */
  ghost predicate Carries(successes: seq<StageItemSuccess>, y: PipelineItem) {
    exists s :: s in successes && y in s.outputs
  }

  lemma InOrderCarries(stage: ResolvedStage, items: seq<PipelineItem>, y: PipelineItem)
    ensures Carries(InOrder(stage, items).successes, y) <==> PutsOut(stage, items, y)
  {
    if stage.requiresBatch {
      BatchCarries(stage, items, y);
    } else {
      ItemsCarry(stage, items, y);
    }
  }

  lemma BatchCarries(stage: ResolvedStage, items: seq<PipelineItem>, y: PipelineItem)
    requires stage.requiresBatch
    ensures Carries(BatchOutcome(stage, items).successes, y) <==> PutsOut(stage, items, y)
  {
    var o := BatchOutcome(stage, items);
    if PutsOut(stage, items, y) {
      assert o.successes[0] in o.successes;
    }
  }

  /** The successes are those of the items whose handler succeeds. */
  lemma SuccessIff(stage: ResolvedStage, items: seq<PipelineItem>, s: StageItemSuccess)
    requires IndicesBelow(Range(|items|), |items|)
    ensures s in Collected(stage, items, Range(|items|)).successes <==>
            exists i: nat :: i < |items| && s in SuccessOf(stage, items)(i)
  {
    var list := Collected(stage, items, Range(|items|)).successes;
    CollectedSums(stage, items, Range(|items|));
    assert s in list <==> s in multiset(list);
    InRangeSum<StageItemSuccess>(|items|, SuccessOf(stage, items), s);
  }

  lemma ItemsCarry(stage: ResolvedStage, items: seq<PipelineItem>, y: PipelineItem)
    requires !stage.requiresBatch && IndicesBelow(Range(|items|), |items|)
    ensures Carries(Collected(stage, items, Range(|items|)).successes, y) <==> PutsOut(stage, items, y)
  {
    var list := Collected(stage, items, Range(|items|)).successes;
    if s :| s in list && y in s.outputs {
      SuccessIff(stage, items, s);
      var i: nat :| i < |items| && s in SuccessOf(stage, items)(i);
      SuccessPutsOut(stage, items, i, s, y);
    }
    if item, k: nat :| item in items && FirstSuccess(stage, item, k) && y in stage.process(item, k).value {
      var s := SuccessAppears(stage, items, item, k);
      SuccessIff(stage, items, s);
    }
  }

  lemma SuccessPutsOut(stage: ResolvedStage, items: seq<PipelineItem>, i: nat, s: StageItemSuccess, y: PipelineItem)
    requires !stage.requiresBatch && i < |items| && s in SuccessOf(stage, items)(i) && y in s.outputs
    ensures PutsOut(stage, items, y)
  {
    RetryIsFirstSuccess(stage, items[i]);
    var k: nat :| FirstSuccess(stage, items[i], k);
    assert items[i] in items;
  }

  lemma SuccessAppears(stage: ResolvedStage, items: seq<PipelineItem>, item: PipelineItem, k: nat)
    returns (s: StageItemSuccess)
    requires item in items && FirstSuccess(stage, item, k)
    ensures s.outputs == stage.process(item, k).value
    ensures exists i: nat :: i < |items| && s in SuccessOf(stage, items)(i)
  {
    var i :| 0 <= i < |items| && items[i] == item;
    RetryIsFirstSuccess(stage, item);
    s := StageItemSuccess(item.id, stage.process(item, k).value);
    assert s in SuccessOf(stage, items)(i);
  }

  /** The item as a stage sends it on: under the stage's output stream, if the specification names one. */
  ghost predicate SentAs(t: Topology, id: StageId, y: PipelineItem, x: PipelineItem) {
    && x == y.(stream := x.stream)
    && x.stream == if id in t.specs && t.specs[id].outputStream.Some? then t.specs[id].outputStream else y.stream
  }

  lemma RetaggedIs(t: Topology, id: StageId, items: seq<PipelineItem>, x: PipelineItem)
    ensures var sent := Retag(items, OutputStream(t, id));
            |sent| == |items| && forall i :: 0 <= i < |items| ==> SentAs(t, id, items[i], sent[i])
    ensures x in Retag(items, OutputStream(t, id)) <==> exists y :: y in items && SentAs(t, id, y, x)
  {
    var sent := Retag(items, OutputStream(t, id));
    if x in sent {
      var i :| 0 <= i < |sent| && sent[i] == x;
      assert items[i] in items && SentAs(t, id, items[i], x);
    }
    if y :| y in items && SentAs(t, id, y, x) {
      var i :| 0 <= i < |items| && items[i] == y;
      assert sent[i] == x;
    }
  }

  lemma OutputsCarried(t: Topology, id: StageId, successes: seq<StageItemSuccess>, x: PipelineItem)
    ensures x in multiset(AllOutputs(successes, OutputStream(t, id))) <==>
            exists y :: Carries(successes, y) && SentAs(t, id, y, x)
  {
    var f := BagOf(OutputStream(t, id));
    OutputsAreSum(successes, OutputStream(t, id));
    InSum<StageItemSuccess, PipelineItem>(successes, f, x);
    if s :| s in successes && x in f(s) {
      RetaggedIs(t, id, s.outputs, x);
      var y :| y in s.outputs && SentAs(t, id, y, x);
      assert Carries(successes, y);
    }
    if y :| Carries(successes, y) && SentAs(t, id, y, x) {
      var s :| s in successes && y in s.outputs;
      RetaggedIs(t, id, s.outputs, x);
      assert x in f(s);
    }
  }

  /** What a stage adds to the pool is what its handler puts out for the items that go to it, as it is sent on. */
  lemma OutputsAre(t: Topology, pool: seq<PipelineItem>, id: StageId, x: PipelineItem) returns (at: seq<nat>)
    requires id in t.stages
    ensures GivenAt(t, id, pool, at)
    ensures x in StageOutputs(t, pool)(id) <==>
            exists y :: PutsOut(t.stages[id], Picked(pool, at), y) && SentAs(t, id, y, x)
  {
    at := StageIsGiven(t, id, pool);
    var items := Accepted(pool, InputStreams(t, id));
    OutputsCarried(t, id, InOrder(t.stages[id], items).successes, x);
    forall y ensures Carries(InOrder(t.stages[id], items).successes, y) <==> PutsOut(t.stages[id], items, y) {
      InOrderCarries(t.stages[id], items, y);
    }
  }

  // -- What the counters count ----------------------------------------------------------------------------

  /** The handler succeeds on the `i`-th item. */
  ghost predicate Succeeds(stage: ResolvedStage, items: seq<PipelineItem>, i: nat)
    requires i < |items|
  {
    if stage.requiresBatch then stage.processBatch(items).Ok? else exists k: nat :: FirstSuccess(stage, items[i], k)
  }

  ghost function Successful(stage: ResolvedStage, items: seq<PipelineItem>, n: nat): set<nat>
    requires n <= |items|
  {
    set i: nat | 0 <= i < n && Succeeds(stage, items, i)
  }

  /** How many of `n` items each list holds. */
  ghost predicate Counted(stage: ResolvedStage, o: Outcome, good: nat, n: int) {
    && |o.successes| == good && |o.skipped| == (if stage.skipOnError then n - good else 0)
    && |o.failures| == if stage.skipOnError then 0 else n - good
  }

  lemma SuccessfulPush(stage: ResolvedStage, items: seq<PipelineItem>, n: nat)
    requires n < |items|
    ensures |Successful(stage, items, n + 1)| ==
            |Successful(stage, items, n)| + if Succeeds(stage, items, n) then 1 else 0
  {
    var before := Successful(stage, items, n);
    assert Successful(stage, items, n + 1) == if Succeeds(stage, items, n) then before + {n} else before;
  }

  lemma CountedPush(stage: ResolvedStage, o: Outcome, good: nat, n: int, item: PipelineItem, r: RetryResult)
    requires Counted(stage, o, good, n)
    ensures Counted(stage, Recorded(o, item, r, stage.skipOnError), if r.result.Ok? then good + 1 else good, n + 1)
  {
  }

  lemma CountsNext(stage: ResolvedStage, items: seq<PipelineItem>, n: nat)
    requires !stage.requiresBatch && n < |items| && IndicesBelow(Range(n), |items|)
    requires Counted(stage, Collected(stage, items, Range(n)), |Successful(stage, items, n)|, n)
    ensures IndicesBelow(Range(n) + [n], |items|)
    ensures Counted(stage, Collected(stage, items, Range(n) + [n]), |Successful(stage, items, n + 1)|, n + 1)
  {
    CollectedNext(stage, items, Range(n), n);
    RetryIsFirstSuccess(stage, items[n]);
    assert Succeeds(stage, items, n) <==> Retry(stage, items[n]).result.Ok?;
    SuccessfulPush(stage, items, n);
    CountedPush(stage, Collected(stage, items, Range(n)), |Successful(stage, items, n)|, n, items[n],
      Retry(stage, items[n]));
  }

  lemma {:induction false} CollectedCounts(stage: ResolvedStage, items: seq<PipelineItem>, n: nat)
    requires !stage.requiresBatch && n <= |items| && IndicesBelow(Range(n), |items|)
    ensures Counted(stage, Collected(stage, items, Range(n)), |Successful(stage, items, n)|, n)
  {
    if 0 < n {
      RangeBelow(n - 1, |items|);
      CollectedCounts(stage, items, n - 1);
      CountsNext(stage, items, n - 1);
      RangePush(n - 1);
    } else {
      assert Successful(stage, items, 0) == {};
    }
  }

  lemma {:induction false} AllOrNone(stage: ResolvedStage, items: seq<PipelineItem>, n: nat)
    requires stage.requiresBatch && n <= |items|
    ensures |Successful(stage, items, n)| == if stage.processBatch(items).Ok? then n else 0
  {
    if 0 < n {
      AllOrNone(stage, items, n - 1);
      SuccessfulPush(stage, items, n - 1);
    } else {
      assert Successful(stage, items, 0) == {};
    }
  }

  lemma ResultCounts(t: Topology, pool: seq<PipelineItem>, o: Outcome)
    requires IsStageResult(t, pool, o)
    ensures var stage, items := t.stages[o.stageId], Accepted(pool, InputStreams(t, o.stageId));
            Counted(stage, o, |Successful(stage, items, |items|)|, |items|)
  {
    var stage, items := t.stages[o.stageId], Accepted(pool, InputStreams(t, o.stageId));
    var x := InOrder(stage, items);
    ResultsAgree(stage, items, o);
    assert |o.successes| == |multiset(o.successes)| && |x.successes| == |multiset(x.successes)|;
    assert |o.skipped| == |multiset(o.skipped)| && |x.skipped| == |multiset(x.skipped)|;
    assert |o.failures| == |multiset(o.failures)| && |x.failures| == |multiset(x.failures)|;
    if stage.requiresBatch {
      AllOrNone(stage, items, |items|);
    } else {
      RangeBelow(|items|, |items|);
      CollectedCounts(stage, items, |items|);
    }
  }

  /**
   * A stage's counters grow by the number of its items that its handler succeeds on and, as skipped or as failed, by
   * the number of the others; it fails with the number of failed items in its message.
   */
  lemma CountersCount(t: Topology, pool: seq<PipelineItem>, s: StageState, o: Outcome)
    requires IsStageResult(t, pool, o)
    ensures var stage, items, r := t.stages[o.stageId], Accepted(pool, InputStreams(t, o.stageId)), MergedStage(s, o);
            var good := |Successful(stage, items, |items|)|;
            && r.itemsProcessed == s.itemsProcessed + good
            && r.itemsSkipped == s.itemsSkipped + (if stage.skipOnError then |items| - good else 0)
            && r.itemsFailed == s.itemsFailed + (if stage.skipOnError then 0 else |items| - good)
            && r.status == if stage.skipOnError || good == |items| then StageStatus.Completed
                           else StageStatus.Failed(Decimal(|items| - good) + " item(s) failed in stage '"
                                                   + o.stageId.name + "'")
  {
    ResultCounts(t, pool, o);
  }
}
