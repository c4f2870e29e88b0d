/** When the item states that a batch leaves do not depend on how its tasks and stages are scheduled. */
module BatchStates {
  import opened Seqs
  import opened Ids
  import opened Items
  import opened Batch
  import opened BatchProperties
  import opened Pool
  import opened State
  import opened RunnerModel
  import opened RunnerProperties
  import opened BatchEffects
  import opened ItemStates

  ghost predicate DistinctIds(pool: seq<PipelineItem>) {
    Distinct(ItemIds(pool))
  }

  // -- One result has one effect -----------------------------------------------------------------

  lemma {:induction false} AcceptedIds(pool: seq<PipelineItem>, inputStreams: seq<string>, id: string)
    ensures multiset(ItemIds(Accepted(pool, inputStreams)))[id] <= multiset(ItemIds(pool))[id]
  {
    if pool != [] {
      var init, last := pool[..|pool| - 1], pool[|pool| - 1];
      AcceptedIds(init, inputStreams, id);
      IdsPush(init, last);
      IdsPush(Accepted(init, inputStreams), last);
      assert pool == init + [last];
    }
  }

  lemma IdsPush(items: seq<PipelineItem>, item: PipelineItem)
    ensures ItemIds(items + [item]) == ItemIds(items) + [item.id]
  {
  }

  lemma {:induction false} TimesIsCount(list: seq<StageItemSuccess>, id: string)
    ensures Sum(list, (s: StageItemSuccess) => multiset{s.itemId})[id] == TimesSucceeded(list, id)
  {
    if list != [] {
      TimesIsCount(list[..|list| - 1], id);
    }
  }

  lemma {:induction false} SkipIsCounted(list: seq<StageItemSkipped>, s: StageItemSkipped)
    requires s in list
    ensures 0 < Sum(list, (x: StageItemSkipped) => multiset{x.itemId})[s.itemId]
  {
    var init, last := list[..|list| - 1], list[|list| - 1];
    assert list == init + [last];
    if s != last {
      SkipIsCounted(init, s);
    }
  }

  /** The only skip of an item decides its status. */
  lemma {:induction false} OnlySkip(list: seq<StageItemSkipped>, stage: StageId, s: StageItemSkipped)
    requires s in list && Sum(list, (x: StageItemSkipped) => multiset{x.itemId})[s.itemId] <= 1
    ensures SkipStatus(list, stage, s.itemId) == Some(ItemStatus.Skipped(stage.name, s.error.message))
  {
    var init, last := list[..|list| - 1], list[|list| - 1];
    assert list == init + [last];
    if s in init {
      SkipIsCounted(init, s);
      OnlySkip(init, stage, s);
    }
  }

  lemma SettledOnce(t: Topology, pool: seq<PipelineItem>, o: Outcome, id: string)
    requires IsStageResult(t, pool, o) && DistinctIds(pool)
    ensures SettledIds(o)[id] <= 1
  {
    ResultAccounts(t.stages[o.stageId], Accepted(pool, InputStreams(t, o.stageId)), o);
    AcceptedIds(pool, InputStreams(t, o.stageId), id);
    CountAtMostOne(ItemIds(pool), id);
  }

  /** The result of a stage when its tasks are joined in input order. */
  function Canonical(t: Topology, pool: seq<PipelineItem>): StageId -> Outcome {
    (id: StageId) =>
      if id in t.stages then InOrder(t.stages[id], Accepted(pool, InputStreams(t, id))) else Outcome(id, [], [], [])
  }

  lemma CanonicalIsResult(t: Topology, pool: seq<PipelineItem>, id: StageId)
    requires id in t.stages && t.stages[id].id == id
    ensures IsStageResult(t, pool, Canonical(t, pool)(id)) && Canonical(t, pool)(id).stageId == id
  {
    var items := Accepted(pool, InputStreams(t, id));
    if !t.stages[id].requiresBatch {
      RangeBelow(|items|, |items|);
      CollectedStage(t.stages[id], items, Range(|items|));
      assert IsPermutation(Range(|items|), |items|);
    }
  }

  lemma ResultStage(t: Topology, pool: seq<PipelineItem>, o: Outcome)
    requires IsStageResult(t, pool, o)
    ensures t.stages[o.stageId].id == o.stageId
  {
    var stage, items := t.stages[o.stageId], Accepted(pool, InputStreams(t, o.stageId));
    if !stage.requiresBatch {
      var order: seq<nat> :| IsPermutation(order, |items|) && o == Collected(stage, items, order);
      CollectedStage(stage, items, order);
    }
  }

  lemma SameSkips(a: seq<StageItemSkipped>, b: seq<StageItemSkipped>, stage: StageId, id: string)
    requires multiset(a) == multiset(b) && Sum(a, (x: StageItemSkipped) => multiset{x.itemId})[id] <= 1
    ensures SkipStatus(a, stage, id) == SkipStatus(b, stage, id)
  {
    SumPermutation(a, b, (x: StageItemSkipped) => multiset{x.itemId});
    SkipStatusIs(a, stage, id);
    SkipStatusIs(b, stage, id);
    assert forall s :: s in a <==> s in multiset(a);
    assert forall s :: s in b <==> s in multiset(b);
    if s :| s in a && s.itemId == id {
      OnlySkip(a, stage, s);
      OnlySkip(b, stage, s);
    }
  }

  lemma SameSuccesses(a: seq<StageItemSuccess>, b: seq<StageItemSuccess>, id: string)
    requires multiset(a) == multiset(b)
    ensures TimesSucceeded(a, id) == TimesSucceeded(b, id) && (id in SuccessIds(a) <==> id in SuccessIds(b))
  {
    SumPermutation(a, b, (s: StageItemSuccess) => multiset{s.itemId});
    TimesIsCount(a, id);
    TimesIsCount(b, id);
    SucceededIff(a, id);
    SucceededIff(b, id);
  }

  /** With distinct ids in the pool, a result without failures leaves an item as the canonical one does. */
  lemma SameEffect(t: Topology, pool: seq<PipelineItem>, o: Outcome, was: ItemState, id: string)
    requires IsStageResult(t, pool, o) && DistinctIds(pool) && o.failures == []
    ensures AfterResult(was, o, id) == AfterResult(was, Canonical(t, pool)(o.stageId), id)
  {
    var c := Canonical(t, pool)(o.stageId);
    ResultsAgree(t.stages[o.stageId], Accepted(pool, InputStreams(t, o.stageId)), o);
    ResultStage(t, pool, o);
    CanonicalIsResult(t, pool, o.stageId);
    SettledOnce(t, pool, o, id);
    SameSuccesses(o.successes, c.successes, id);
    SameSkips(o.skipped, c.skipped, o.stageId, id);
    assert c.failures == [] by {
      assert |multiset(c.failures)| == 0;
    }
  }

  lemma SameSource(t: Topology, pool: seq<PipelineItem>, s: SourceState, o: Outcome)
    requires IsStageResult(t, pool, o) && DistinctIds(pool) && o.failures == []
    ensures MarkedSource(s, o) == MarkedSource(s, Canonical(t, pool)(o.stageId))
  {
    var c := Canonical(t, pool)(o.stageId);
    forall id | id in s.items ensures AfterResult(s.items[id], o, id) == AfterResult(s.items[id], c, id) {
      SameEffect(t, pool, o, s.items[id], id);
    }
    assert MarkedSource(s, o).items == MarkedSource(s, c).items;
  }

  lemma SameMark(t: Topology, pool: seq<PipelineItem>, sources: Sources, o: Outcome)
    requires IsStageResult(t, pool, o) && DistinctIds(pool) && o.failures == []
    ensures MarkOutcome(sources, o) == MarkOutcome(sources, Canonical(t, pool)(o.stageId))
  {
    var c := Canonical(t, pool)(o.stageId);
    MarkedOnce(sources, o);
    MarkedOnce(sources, c);
    forall n | n in sources ensures MarkOutcome(sources, o)[n] == MarkOutcome(sources, c)[n] {
      SameSource(t, pool, sources[n], o);
    }
  }

  // -- Many results ----------------------------------------------------------------------------------

  function Mapped<A, B>(s: seq<A>, f: A -> B): seq<B> {
    seq(|s|, i requires 0 <= i < |s| => f(s[i]))
  }

  lemma {:induction false} MappedSum<A, B>(s: seq<A>, f: A -> B, g: A -> multiset<B>)
    requires forall x :: g(x) == multiset{f(x)}
    ensures multiset(Mapped(s, f)) == Sum(s, g)
  {
    if s != [] {
      var init := s[..|s| - 1];
      MappedSum(init, f, g);
      assert Mapped(s, f) == Mapped(init, f) + [f(s[|s| - 1])];
    }
  }

  lemma MappedPermutation<A, B>(s: seq<A>, t: seq<A>, f: A -> B)
    requires multiset(s) == multiset(t)
    ensures multiset(Mapped(s, f)) == multiset(Mapped(t, f))
  {
    var g := (x: A) => multiset{f(x)};
    MappedSum(s, f, g);
    MappedSum(t, f, g);
    SumPermutation(s, t, g);
  }

  lemma CanonicalPush(t: Topology, pool: seq<PipelineItem>, arrived: seq<Outcome>)
    requires arrived != []
    ensures var n := |arrived| - 1;
            Mapped(StageIdsOf(arrived), Canonical(t, pool)) ==
            Mapped(StageIdsOf(arrived[..n]), Canonical(t, pool)) + [Canonical(t, pool)(arrived[n].stageId)]
  {
  }

  lemma {:induction false} MarkCanonical(t: Topology, pool: seq<PipelineItem>, sources: Sources, arrived: seq<Outcome>)
    requires DistinctIds(pool)
    requires forall i :: 0 <= i < |arrived| ==> IsStageResult(t, pool, arrived[i]) && arrived[i].failures == []
    ensures MarkAll(sources, arrived) == MarkAll(sources, Mapped(StageIdsOf(arrived), Canonical(t, pool)))
  {
    if arrived != [] {
      var init, last := arrived[..|arrived| - 1], arrived[|arrived| - 1];
      MarkCanonical(t, pool, sources, init);
      SameMark(t, pool, MarkAll(sources, init), last);
      MarkAllPush(sources, Mapped(StageIdsOf(init), Canonical(t, pool)), Canonical(t, pool)(last.stageId));
      CanonicalPush(t, pool, arrived);
    }
  }

  // -- The batch ----------------------------------------------------------------------------------------

  /** All successful executions from this state leave the same item states. */
  ghost predicate StatesDetermined(t: Topology, batch: seq<StageId>, v: Volatile) {
    forall v1, v2 :: BatchExecuted(t, batch, v, v1, true) && BatchExecuted(t, batch, v, v2, true) ==>
      v1.state.sources == v2.state.sources
  }

  /** No known item is taken from the pool by two stages of the batch. */
  ghost predicate TakenOnce(t: Topology, batch: seq<StageId>, v: Volatile) {
    forall i, j, n, id :: 0 <= i < j < |batch| && n in v.state.sources && id in v.state.sources[n].items ==>
      !Takes(v.pool, InputStreams(t, batch[i]), id) || !Takes(v.pool, InputStreams(t, batch[j]), id)
  }

  ghost predicate AllSucceedIn(t: Topology, batch: seq<StageId>, pool: seq<PipelineItem>) {
    forall i :: 0 <= i < |batch| ==> StageSucceeds(t, pool, batch[i])
  }

  lemma CanonicalBatch(t: Topology, batch: seq<StageId>, v: Volatile)
    requires WellKeyed(t) && Distinct(batch) && AllSucceedIn(t, batch, v.pool)
    ensures var os := Mapped(batch, Canonical(t, v.pool));
            && DistinctStages(os) && StageIdsOf(os) == batch
            && forall i :: 0 <= i < |os| ==>
                 IsStageResult(t, v.pool, os[i]) && os[i].failures == [] && os[i].stageId == batch[i]
  {
    forall i | 0 <= i < |batch|
      ensures Canonical(t, v.pool)(batch[i]).stageId ==
              batch[i] && IsStageResult(t, v.pool, Canonical(t, v.pool)(batch[i]))
    {
      assert StageSucceeds(t, v.pool, batch[i]);
      CanonicalIsResult(t, v.pool, batch[i]);
    }
  }

  lemma NoItemTwiceIff(t: Topology, batch: seq<StageId>, v: Volatile)
    requires WellKeyed(t) && Distinct(batch) && AllSucceedIn(t, batch, v.pool)
    ensures NoItemTwice(v.state.sources, Mapped(batch, Canonical(t, v.pool))) <==> TakenOnce(t, batch, v)
  {
    var os := Mapped(batch, Canonical(t, v.pool));
    CanonicalBatch(t, batch, v);
    forall i, id | 0 <= i < |os| ensures id in Consumed(os[i]) <==> Takes(v.pool, InputStreams(t, batch[i]), id) {
      ConsumedByResult(t, v.pool, os[i], id);
    }
    if TakenOnce(t, batch, v) {
      forall i, j | 0 <= i < j < |os| ensures SharesNoItem(v.state.sources, os[i], os[j]) {
      }
    }
    if NoItemTwice(v.state.sources, os) {
      forall i, j, n, id | 0 <= i < j < |batch| && n in v.state.sources && id in v.state.sources[n].items
        ensures !Takes(v.pool, InputStreams(t, batch[i]), id) || !Takes(v.pool, InputStreams(t, batch[j]), id)
      {
        assert SharesNoItem(v.state.sources, os[i], os[j]);
      }
    }
  }

  /** The item states that a successful execution leaves are those of the canonical results in some order. */
  lemma ExecutionMarks(t: Topology, batch: seq<StageId>, v: Volatile, v': Volatile) returns (order: seq<StageId>)
    requires BatchExecuted(t, batch, v, v', true) && DistinctIds(v.pool)
    ensures multiset(order) == multiset(batch)
    ensures v'.state.sources == MarkAll(v.state.sources, Mapped(order, Canonical(t, v.pool)))
  {
    var arrived := ArrivedResults(t, batch, v, v');
    MergedWithoutFailures(t, Started(v, batch), arrived);
    MergedStates(t, Started(v, batch), arrived);
    MarkCanonical(t, v.pool, v.state.sources, arrived);
    order := StageIdsOf(arrived);
  }

  /** Any order of the canonical results is an execution. */
  lemma OrderExecutes(t: Topology, batch: seq<StageId>, v: Volatile, a: seq<Outcome>) returns (v': Volatile)
    requires WellKeyed(t) && Distinct(batch) && AllSucceedIn(t, batch, v.pool)
    requires multiset(a) == multiset(Mapped(batch, Canonical(t, v.pool)))
    ensures BatchExecuted(t, batch, v, v', true) && v'.state.sources == MarkAll(v.state.sources, a)
  {
    var os := Mapped(batch, Canonical(t, v.pool));
    CanonicalBatch(t, batch, v);
    forall i | 0 <= i < |a| ensures IsStageResult(t, v.pool, a[i]) && a[i].failures == [] {
      assert a[i] in multiset(os);
      var k :| 0 <= k < |os| && os[k] == a[i];
    }
    MappedPermutation(a, os, (o: Outcome) => o.stageId);
    assert StageIdsOf(a) == Mapped(a, (o: Outcome) => o.stageId);
    assert StageIdsOf(os) == Mapped(os, (o: Outcome) => o.stageId);
    MergedWithoutFailures(t, Started(v, batch), a);
    MergedStates(t, Started(v, batch), a);
    v' := MergedAll(t, Started(v, batch), a).0;
    forall k: nat ensures !MissingAt(t, batch, k) {
      if k < |batch| {
        assert StageSucceeds(t, v.pool, batch[k]);
      }
    }
    Witnessed(t, batch, v, v', a);
  }

  lemma Witnessed(t: Topology, batch: seq<StageId>, v: Volatile, v': Volatile, a: seq<Outcome>)
    requires forall k: nat :: !MissingAt(t, batch, k)
    requires ResultsOf(t, v.pool, batch, a) && (v', true) == MergedAll(t, Started(v, batch), a)
    requires multiset(StageIdsOf(a)) == multiset(batch)
    ensures BatchExecuted(t, batch, v, v', true)
  {
  }

  /**
   * For a batch that can succeed, on a pool with distinct ids: all executions leave the same item states exactly when
   * no known item is taken by two of its stages.
   */
  lemma StatesDeterminedIff(t: Topology, batch: seq<StageId>, v: Volatile)
    requires WellKeyed(t) && Distinct(batch) && DistinctIds(v.pool) && AllSucceedIn(t, batch, v.pool)
    ensures StatesDetermined(t, batch, v) <==> TakenOnce(t, batch, v)
  {
    var os := Mapped(batch, Canonical(t, v.pool));
    CanonicalBatch(t, batch, v);
    NoItemTwiceIff(t, batch, v);
    StatesAgreeIff(v.state.sources, os);
    if TakenOnce(t, batch, v) {
      forall v1, v2 | BatchExecuted(t, batch, v, v1, true) && BatchExecuted(t, batch, v, v2, true)
        ensures v1.state.sources == v2.state.sources
      {
        var order1 := ExecutionMarks(t, batch, v, v1);
        var order2 := ExecutionMarks(t, batch, v, v2);
        MappedPermutation(order1, batch, Canonical(t, v.pool));
        MappedPermutation(order2, batch, Canonical(t, v.pool));
      }
    }
    if StatesDetermined(t, batch, v) {
      var w := OrderExecutes(t, batch, v, os);
      forall a | multiset(a) == multiset(os) ensures MarkAll(v.state.sources, a) == MarkAll(v.state.sources, os) {
        var w' := OrderExecutes(t, batch, v, a);
      }
    }
  }
}
