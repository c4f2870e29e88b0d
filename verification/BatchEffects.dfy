/** What executing a batch does to the pool and to the item states, whatever order its tasks and stages finish in. */
module BatchEffects {
  import opened Seqs
  import opened Ids
  import opened Items
  import opened Batch
  import opened BatchProperties
  import opened Pool
  import opened RunnerModel
  import opened RunnerProperties
  import opened Store
  import opened Protocol

  // -- A stage's result does not depend on the order of its tasks --------------------------------

  /** The result of the stage when its tasks are joined in input order. */
  function InOrder(stage: ResolvedStage, items: seq<PipelineItem>): Outcome {
    if stage.requiresBatch then BatchOutcome(stage, items) else Collected(stage, items, Range(|items|))
  }

  lemma ResultsAgree(stage: ResolvedStage, items: seq<PipelineItem>, o: Outcome)
    requires IsResult(stage, items, o)
    ensures var x := InOrder(stage, items);
            && multiset(o.successes) == multiset(x.successes) && multiset(o.skipped) == multiset(x.skipped)
            && multiset(o.failures) == multiset(x.failures)
  {
    if !stage.requiresBatch {
      var order: seq<nat> :| IsPermutation(order, |items|) && o == Collected(stage, items, order);
      ExecutionsAgree(stage, items, order, Range(|items|));
    }
  }

  lemma ResultAccounts(stage: ResolvedStage, items: seq<PipelineItem>, o: Outcome)
    requires IsResult(stage, items, o)
    ensures Accounts(o, items)
  {
    if stage.requiresBatch {
      BatchAccounts(stage, items);
    } else {
      var order: seq<nat> :| IsPermutation(order, |items|) && o == Collected(stage, items, order);
      NothingLostOrRepeated(stage, items, order);
    }
  }

  function BagOf(outputStream: Option<string>): StageItemSuccess -> multiset<PipelineItem> {
    (s: StageItemSuccess) => multiset(Retag(s.outputs, outputStream))
  }

  lemma {:induction false} OutputsAreSum(successes: seq<StageItemSuccess>, outputStream: Option<string>)
    ensures multiset(AllOutputs(successes, outputStream)) == Sum(successes, BagOf(outputStream))
  {
    if successes != [] {
      OutputsAreSum(successes[..|successes| - 1], outputStream);
    }
  }

  /** Everything a stage of the batch puts out, tagged with its output stream. */
  function StageOutputs(t: Topology, pool: seq<PipelineItem>): StageId -> multiset<PipelineItem> {
    (id: StageId) =>
      if id in t.stages
      then
        var o := InOrder(t.stages[id], Accepted(pool, InputStreams(t, id)));
        multiset(AllOutputs(o.successes, OutputStream(t, id)))
      else multiset{}
  }

  function Tag(t: Topology, o: Outcome): TaggedOutcome {
    TaggedOutcome(o, OutputStream(t, o.stageId))
  }

  lemma OutputsOfResult(t: Topology, pool: seq<PipelineItem>, o: Outcome)
    requires IsStageResult(t, pool, o)
    ensures multiset(Outputs(Tag(t, o))) == StageOutputs(t, pool)(o.stageId)
  {
    var items := Accepted(pool, InputStreams(t, o.stageId));
    var x := InOrder(t.stages[o.stageId], items);
    ResultsAgree(t.stages[o.stageId], items, o);
    OutputsAreSum(o.successes, OutputStream(t, o.stageId));
    OutputsAreSum(x.successes, OutputStream(t, o.stageId));
    SumPermutation(o.successes, x.successes, BagOf(OutputStream(t, o.stageId)));
  }

  lemma ConsumedByResult(t: Topology, pool: seq<PipelineItem>, o: Outcome, id: string)
    requires IsStageResult(t, pool, o)
    ensures id in Consumed(o) <==> Takes(pool, InputStreams(t, o.stageId), id)
  {
    ResultAccounts(t.stages[o.stageId], Accepted(pool, InputStreams(t, o.stageId)), o);
    ConsumedIffTaken(pool, InputStreams(t, o.stageId), o, id);
  }

  // -- The runner's merging is the pool's ------------------------------------------------------------

  function TagAll(t: Topology, arrived: seq<Outcome>): seq<TaggedOutcome> {
    seq(|arrived|, i requires 0 <= i < |arrived| => Tag(t, arrived[i]))
  }

  lemma MergeAllPush(pool: seq<PipelineItem>, rs: seq<TaggedOutcome>, r: TaggedOutcome)
    ensures MergeAll(pool, rs + [r]) == MergePool(MergeAll(pool, rs), r)
  {
    assert (rs + [r])[..|rs|] == rs;
  }

  lemma {:induction false} MergeAllFront(pool: seq<PipelineItem>, first: TaggedOutcome, rest: seq<TaggedOutcome>)
    ensures MergeAll(pool, [first] + rest) == MergeAll(MergePool(pool, first), rest)
  {
    if rest == [] {
      assert [first] + rest == [] + [first];
      MergeAllPush(pool, [], first);
    } else {
      var init, last := rest[..|rest| - 1], rest[|rest| - 1];
      SplitLast(rest);
      ConsPush(first, init, last);
      MergeAllFront(pool, first, init);
      MergeAllPush(pool, [first] + init, last);
    }
  }

  lemma FirstMerged(t: Topology, v: Volatile, arrived: seq<Outcome>)
    requires arrived != [] && MergedAll(t, v, arrived).1
    ensures MergedAll(t, v, arrived) == MergedAll(t, Merged(t, v, arrived[0]), arrived[1..])
    ensures Merged(t, v, arrived[0]).pool == MergePool(v.pool, Tag(t, arrived[0]))
  {
  }

  lemma TagFirst(t: Topology, arrived: seq<Outcome>)
    requires arrived != []
    ensures TagAll(t, arrived) == [Tag(t, arrived[0])] + TagAll(t, arrived[1..])
  {
  }

  /** The pool after merging results as they arrive, when none has a failure. */
  lemma {:induction false} MergedPool(t: Topology, v: Volatile, arrived: seq<Outcome>)
    requires MergedAll(t, v, arrived).1
    ensures MergedAll(t, v, arrived).0.pool == MergeAll(v.pool, TagAll(t, arrived))
    decreases |arrived|
  {
    if arrived != [] {
      FirstMerged(t, v, arrived);
      MergedPool(t, Merged(t, v, arrived[0]), arrived[1..]);
      TagFirst(t, arrived);
      MergeAllFront(v.pool, Tag(t, arrived[0]), TagAll(t, arrived[1..]));
    }
  }

  lemma {:induction false} MergedWithoutFailures(t: Topology, v: Volatile, arrived: seq<Outcome>)
    ensures MergedAll(t, v, arrived).1 <==> forall i :: 0 <= i < |arrived| ==> arrived[i].failures == []
    decreases |arrived|
  {
    if arrived != [] {
      MergedWithoutFailures(t, Merged(t, v, arrived[0]), arrived[1..]);
      assert forall i :: 0 < i < |arrived| ==> arrived[i] == arrived[1..][i - 1];
      assert forall i :: 0 <= i < |arrived[1..]| ==> arrived[1..][i] == arrived[i + 1];
    }
  }

  // -- When a batch succeeds --------------------------------------------------------------------------

  /** The stage is known and none of the items it accepts fails. */
  ghost predicate StageSucceeds(t: Topology, pool: seq<PipelineItem>, id: StageId) {
    id in t.stages && InOrder(t.stages[id], Accepted(pool, InputStreams(t, id))).failures == []
  }

  lemma RangeBelow(n: nat, m: nat)
    requires n <= m
    ensures IndicesBelow(Range(n), m)
  {
  }

  lemma FailsPush(stage: ResolvedStage, items: seq<PipelineItem>, order: seq<nat>, i: nat)
    requires IndicesBelow(order, |items|) && i < |items|
    ensures IndicesBelow(order + [i], |items|)
    ensures Collected(stage, items, order + [i]).failures == [] <==>
            Collected(stage, items, order).failures == [] && (stage.skipOnError || Retry(stage, items[i]).result.Ok?)
  {
    CollectedNext(stage, items, order, i);
  }

  lemma {:induction false} FailsIffItemFails(stage: ResolvedStage, items: seq<PipelineItem>, n: nat)
    requires n <= |items| && IndicesBelow(Range(n), |items|)
    ensures Collected(stage, items, Range(n)).failures == [] <==> stage.skipOnError || AllSucceed(stage, items[..n])
  {
    if 0 < n {
      RangeBelow(n - 1, |items|);
      FailsIffItemFails(stage, items, n - 1);
      FailsPush(stage, items, Range(n - 1), n - 1);
      RangePush(n - 1);
      TakePush(items, n - 1);
      SucceedPush(stage, items[..n - 1], items[n - 1]);
    }
  }

  /** Every item succeeds within its attempts. */
  ghost predicate AllSucceed(stage: ResolvedStage, items: seq<PipelineItem>) {
    forall i :: 0 <= i < |items| ==> Retry(stage, items[i]).result.Ok?
  }

  lemma SucceedPush(stage: ResolvedStage, items: seq<PipelineItem>, item: PipelineItem)
    ensures AllSucceed(stage, items + [item]) <==> AllSucceed(stage, items) && Retry(stage, item).result.Ok?
  {
    assert (items + [item])[|items|] == item;
    assert forall i :: 0 <= i < |items| ==> (items + [item])[i] == items[i];
  }

  /** In terms of the handlers: errors are skipped, or every accepted item succeeds within its attempts. */
  lemma StageSucceedsIff(t: Topology, pool: seq<PipelineItem>, id: StageId)
    requires id in t.stages
    ensures var stage, items := t.stages[id], Accepted(pool, InputStreams(t, id));
            StageSucceeds(t, pool, id) <==>
            stage.skipOnError || items == []
            || if stage.requiresBatch then stage.processBatch(items).Ok?
               else AllSucceed(stage, items)
  {
    var stage, items := t.stages[id], Accepted(pool, InputStreams(t, id));
    if !stage.requiresBatch {
      RangeBelow(|items|, |items|);
      FailsIffItemFails(stage, items, |items|);
      assert items[..|items|] == items;
    }
  }

  lemma ResultFailsIff(t: Topology, pool: seq<PipelineItem>, o: Outcome)
    requires IsStageResult(t, pool, o)
    ensures o.failures == [] <==> StageSucceeds(t, pool, o.stageId)
  {
    ResultsAgree(t.stages[o.stageId], Accepted(pool, InputStreams(t, o.stageId)), o);
    assert o.failures == [] <==> |multiset(o.failures)| == 0;
  }

  lemma ArrivedFromBatch(batch: seq<StageId>, arrived: seq<Outcome>, i: nat)
    requires multiset(StageIdsOf(arrived)) <= multiset(batch) && i < |arrived|
    ensures arrived[i].stageId in batch
  {
    assert StageIdsOf(arrived)[i] in multiset(StageIdsOf(arrived));
  }

  lemma BatchHasArrived(batch: seq<StageId>, arrived: seq<Outcome>, id: StageId) returns (i: nat)
    requires multiset(StageIdsOf(arrived)) == multiset(batch) && id in batch
    ensures i < |arrived| && arrived[i].stageId == id
  {
    assert id in multiset(StageIdsOf(arrived));
    i :| 0 <= i < |arrived| && StageIdsOf(arrived)[i] == id;
  }

  /** A batch succeeds exactly when all its stages do, in whatever order they finish. */
  lemma BatchSucceedsIff(t: Topology, batch: seq<StageId>, v: Volatile, v': Volatile, ok: bool)
    requires BatchExecuted(t, batch, v, v', ok)
    ensures ok <==> forall id :: id in batch ==> StageSucceeds(t, v.pool, id)
  {
    if k: nat :| MissingAt(t, batch, k) {
      assert batch[k] in batch && !StageSucceeds(t, v.pool, batch[k]);
    } else {
      var arrived: seq<Outcome> :|
        && ResultsOf(t, v.pool, batch, arrived) && (v', ok) == MergedAll(t, Started(v, batch), arrived)
        && (ok ==> multiset(StageIdsOf(arrived)) == multiset(batch));
      MergedWithoutFailures(t, Started(v, batch), arrived);
      if ok {
        forall id | id in batch ensures StageSucceeds(t, v.pool, id) {
          var i := BatchHasArrived(batch, arrived, id);
          ResultFailsIff(t, v.pool, arrived[i]);
        }
      } else {
        var i :| 0 <= i < |arrived| && arrived[i].failures != [];
        ArrivedFromBatch(batch, arrived, i);
        ResultFailsIff(t, v.pool, arrived[i]);
      }
    }
  }

  // -- What a batch leaves in the pool -----------------------------------------------------------------

  /** No stage of the batch puts out an id that another stage of the batch takes from the pool. */
  ghost predicate Undisturbed(t: Topology, batch: seq<StageId>, pool: seq<PipelineItem>) {
    forall a, b, x :: a in batch && b in batch && a != b && x in StageOutputs(t, pool)(a) ==>
      !Takes(pool, InputStreams(t, b), x.id)
  }

  /** No stage of the batch accepts a pool item with this id. */
  ghost predicate TakenByNone(t: Topology, batch: seq<StageId>, pool: seq<PipelineItem>, id: string) {
    forall a :: a in batch ==> !Takes(pool, InputStreams(t, a), id)
  }

  lemma DistinctArrive(batch: seq<StageId>, arrived: seq<Outcome>)
    requires Distinct(batch) && multiset(StageIdsOf(arrived)) == multiset(batch)
    ensures forall i, j :: 0 <= i < j < |arrived| ==> arrived[i].stageId != arrived[j].stageId
  {
    DistinctMultiset(batch, StageIdsOf(arrived));
    assert forall i :: 0 <= i < |arrived| ==> StageIdsOf(arrived)[i] == arrived[i].stageId;
  }

  lemma ArrivedDoNotInterfere(t: Topology, batch: seq<StageId>, pool: seq<PipelineItem>, arrived: seq<Outcome>)
    requires Distinct(batch) && Undisturbed(t, batch, pool)
    requires ResultsOf(t, pool, batch, arrived) && multiset(StageIdsOf(arrived)) == multiset(batch)
    ensures NonInterfering(TagAll(t, arrived))
  {
    var rs := TagAll(t, arrived);
    DistinctArrive(batch, arrived);
    forall i, j | 0 <= i < |rs| && 0 <= j < |rs| && i != j ensures NoneIn(Outputs(rs[i]), Consumed(rs[j].o)) {
      var a, b := arrived[i], arrived[j];
      ArrivedFromBatch(batch, arrived, i);
      ArrivedFromBatch(batch, arrived, j);
      OutputsOfResult(t, pool, a);
      assert a.stageId != b.stageId;
      forall x | x in Outputs(rs[i]) ensures x.id !in Consumed(b) {
        assert x in multiset(Outputs(rs[i]));
        ConsumedByResult(t, pool, b, x.id);
      }
    }
  }

  lemma ConsumedByBatch(t: Topology, batch: seq<StageId>, pool: seq<PipelineItem>, arrived: seq<Outcome>, id: string)
    requires ResultsOf(t, pool, batch, arrived) && multiset(StageIdsOf(arrived)) == multiset(batch)
    ensures id in AllConsumed(TagAll(t, arrived)) <==> !TakenByNone(t, batch, pool, id)
  {
    var rs := TagAll(t, arrived);
    if id in AllConsumed(rs) {
      var r :| r in rs && id in Consumed(r.o);
      var i :| 0 <= i < |rs| && rs[i] == r;
      ArrivedFromBatch(batch, arrived, i);
      ConsumedByResult(t, pool, arrived[i], id);
    }
    if a :| a in batch && Takes(pool, InputStreams(t, a), id) {
      var i := BatchHasArrived(batch, arrived, a);
      ConsumedByResult(t, pool, arrived[i], id);
      assert rs[i] in rs;
    }
  }

  lemma OutputsByStage(t: Topology, pool: seq<PipelineItem>, arrived: seq<Outcome>)
    requires forall i :: 0 <= i < |arrived| ==> IsStageResult(t, pool, arrived[i])
    ensures Sum(TagAll(t, arrived), OutputBag()) == Sum(StageIdsOf(arrived), StageOutputs(t, pool))
  {
    forall i | 0 <= i < |arrived|
      ensures OutputBag()(TagAll(t, arrived)[i]) == StageOutputs(t, pool)(StageIdsOf(arrived)[i])
    {
      OutputsOfResult(t, pool, arrived[i]);
    }
    SumAlike(TagAll(t, arrived), StageIdsOf(arrived), OutputBag(), StageOutputs(t, pool));
  }

  /** How often an item is left: as often as before if no stage takes its id, and once more for each output. */
  ghost function LeftOf(t: Topology, batch: seq<StageId>, pool: seq<PipelineItem>, x: PipelineItem): int {
    (if TakenByNone(t, batch, pool, x.id) then multiset(pool)[x] else 0) + Sum(batch, StageOutputs(t, pool))[x]
  }

  /**
   * What a successful batch leaves in the pool, whatever order its tasks and stages finish in: the items that no stage
   * took, untouched, and everything the stages put out.
   */
  lemma BatchLeaves(t: Topology, batch: seq<StageId>, v: Volatile, v': Volatile)
    requires BatchExecuted(t, batch, v, v', true) && Distinct(batch) && Undisturbed(t, batch, v.pool)
    ensures forall x :: multiset(v'.pool)[x] == LeftOf(t, batch, v.pool, x)
  {
    var arrived := ArrivedResults(t, batch, v, v');
    MergedPool(t, Started(v, batch), arrived);
    ArrivedDoNotInterfere(t, batch, v.pool, arrived);
    MergeClosedForm(v.pool, TagAll(t, arrived));
    OutputsByStage(t, v.pool, arrived);
    SumPermutation(StageIdsOf(arrived), batch, StageOutputs(t, v.pool));
    forall x ensures multiset(v'.pool)[x] == LeftOf(t, batch, v.pool, x) {
      RetainedCount(v.pool, AllConsumed(TagAll(t, arrived)), x);
      ConsumedByBatch(t, batch, v.pool, arrived, x.id);
    }
  }

  /** So two executions of a batch from the same state agree on whether they succeed, and on the pool they leave. */
  lemma ExecutionsLeaveTheSame(t: Topology, batch: seq<StageId>, v: Volatile, v1: Volatile, v2: Volatile, ok1: bool,
                               ok2: bool)
    requires BatchExecuted(t, batch, v, v1, ok1) && BatchExecuted(t, batch, v, v2, ok2)
    requires Distinct(batch) && Undisturbed(t, batch, v.pool)
    ensures ok1 == ok2 && (ok1 ==> multiset(v1.pool) == multiset(v2.pool))
  {
    BatchSucceedsIff(t, batch, v, v1, ok1);
    BatchSucceedsIff(t, batch, v, v2, ok2);
    if ok1 {
      BatchLeaves(t, batch, v, v1);
      BatchLeaves(t, batch, v, v2);
      forall x ensures multiset(v1.pool)[x] == multiset(v2.pool)[x] {
      }
    }
  }

  // -- Items that were marked unchanged ------------------------------------------------------------------

  /** What results have left of an item so far. */
  lemma {:induction false} UnchangedAfter(t: Topology, v: Volatile, arrived: seq<Outcome>, n: string, id: string)
    requires MergedAll(t, v, arrived).1 && n in v.state.sources && id in v.state.sources[n].items
    ensures var sources := MergedAll(t, v, arrived).0.state.sources;
            && n in sources && id in sources[n].items
            && (sources[n].items[id].status.Unchanged? <==>
                v.state.sources[n].items[id].status.Unchanged? && !ConsumedByOne(arrived, id))
    decreases |arrived|
  {
    if arrived != [] {
      ItemAfterMerge(v.state.sources, arrived[0], n, id);
      UnchangedAfter(t, Merged(t, v, arrived[0]), arrived[1..], n, id);
      ConsumedHere(arrived, id);
    }
  }

  ghost predicate ConsumedByOne(arrived: seq<Outcome>, id: string) {
    exists i :: 0 <= i < |arrived| && id in Consumed(arrived[i])
  }

  lemma ConsumedHere(arrived: seq<Outcome>, id: string)
    requires arrived != []
    ensures ConsumedByOne(arrived, id) <==> id in Consumed(arrived[0]) || ConsumedByOne(arrived[1..], id)
  {
    if i :| 0 <= i < |arrived| && id in Consumed(arrived[i]) {
      assert i == 0 || arrived[1..][i - 1] == arrived[i];
    }
    if i :| 0 <= i < |arrived[1..]| && id in Consumed(arrived[1..][i]) {
      assert arrived[i + 1] == arrived[1..][i];
    }
  }

  /**
   * Marking an item Unchanged does not keep it from being executed: after a successful batch it is still Unchanged
   * exactly when no stage of the batch accepts a pool item with its id.
   */
  lemma StaysUnchangedIff(t: Topology, batch: seq<StageId>, v: Volatile, v': Volatile, n: string, id: string)
    requires BatchExecuted(t, batch, v, v', true) && n in v.state.sources && id in v.state.sources[n].items
    requires v.state.sources[n].items[id].status.Unchanged?
    ensures n in v'.state.sources && id in v'.state.sources[n].items
    ensures v'.state.sources[n].items[id].status.Unchanged? <==> TakenByNone(t, batch, v.pool, id)
  {
    var arrived := ArrivedResults(t, batch, v, v');
    UnchangedAfter(t, Started(v, batch), arrived, n, id);
    if i :| 0 <= i < |arrived| && id in Consumed(arrived[i]) {
      ArrivedFromBatch(batch, arrived, i);
      ConsumedByResult(t, v.pool, arrived[i], id);
    }
    if a :| a in batch && Takes(v.pool, InputStreams(t, a), id) {
      var i := BatchHasArrived(batch, arrived, a);
      ConsumedByResult(t, v.pool, arrived[i], id);
    }
  }

  /** Whatever hashes are stored, a first enumeration fills the pool with every listed item, marked or not. */
  lemma MarkingKeepsThePool(t: Topology, disk: Disk, v: Volatile, listing: Listing)
    requires DistinctSources(t.sources) && AllListed(t.sources, listing) && v.state.sources == map[] && v.pool == []
    ensures AfterEnumeration(t, disk, v, listing).v.pool == PoolOf(t.sources, listing)
  {
    EnumeratesEverything(t.sources, listing);
  }

  // -- When a step ends the process -----------------------------------------------------------------------

  /** An enumeration ends the process exactly when some adapter fails. */
  lemma EnumerationFailsIff(t: Topology, s: System, listing: Listing, s': System)
    requires Transition(t, s, Enumerate(listing), s')
    ensures s'.process.value.phase.Returned? <==> !AllListed(t.sources, listing)
  {
    ErrorIff(Enumerated(s.process.value.v.state.sources, s.process.value.v.pool, None), t.sources, listing);
  }

  /** A batch ends the process exactly when one of its stages is unknown or fails an item. */
  lemma ExecutionFailsIff(t: Topology, s: System, batch: nat, s': System)
    requires Transition(t, s, Execute(batch), s')
    ensures s'.process.value.phase.Returned? <==>
            exists id :: id in t.schedule[batch] && !StageSucceeds(t, s.process.value.v.pool, id)
  {
    var v', ok :| BatchExecuted(t, t.schedule[batch], s.process.value.v, v', ok)
                  && s'.process.value == AfterBatch(v', batch, ok);
    BatchSucceedsIff(t, t.schedule[batch], s.process.value.v, v', ok);
  }
}
