/** When the item states after a batch do not depend on the order in which its results are merged. */
module ItemStates {
  import opened Seqs
  import opened Batch
  import opened Pool
  import opened State
  import opened RunnerModel
  import opened RunnerProperties

  function MarkAll(sources: Sources, os: seq<Outcome>): Sources {
    if os == [] then sources else MarkOutcome(MarkAll(sources, os[..|os| - 1]), os[|os| - 1])
  }

  lemma MarkAllPush(sources: Sources, os: seq<Outcome>, o: Outcome)
    ensures MarkAll(sources, os + [o]) == MarkOutcome(MarkAll(sources, os), o)
  {
    assert (os + [o])[..|os|] == os;
  }

  lemma {:induction false} MarkAllFront(sources: Sources, first: Outcome, rest: seq<Outcome>)
    ensures MarkAll(sources, [first] + rest) == MarkAll(MarkOutcome(sources, first), rest)
  {
    if rest == [] {
      assert [first] + rest == [] + [first];
      MarkAllPush(sources, [], first);
    } else {
      var init, last := rest[..|rest| - 1], rest[|rest| - 1];
      SplitLast(rest);
      ConsPush(first, init, last);
      MarkAllFront(sources, first, init);
      MarkAllPush(sources, [first] + init, last);
    }
  }

  lemma FirstMarked(t: Topology, v: Volatile, arrived: seq<Outcome>)
    requires arrived != [] && MergedAll(t, v, arrived).1
    ensures MergedAll(t, v, arrived) == MergedAll(t, Merged(t, v, arrived[0]), arrived[1..])
    ensures Merged(t, v, arrived[0]).state.sources == MarkOutcome(v.state.sources, arrived[0])
  {
  }

  /** The item states after merging results as they arrive. */
  lemma {:induction false} MergedStates(t: Topology, v: Volatile, arrived: seq<Outcome>)
    requires MergedAll(t, v, arrived).1
    ensures MergedAll(t, v, arrived).0.state.sources == MarkAll(v.state.sources, arrived)
    decreases |arrived|
  {
    if arrived != [] {
      FirstMarked(t, v, arrived);
      MergedStates(t, Merged(t, v, arrived[0]), arrived[1..]);
      MarkAllFront(v.state.sources, arrived[0], arrived[1..]);
      assert arrived == [arrived[0]] + arrived[1..];
    }
  }

  lemma {:induction false} AllShape(sources: Sources, os: seq<Outcome>)
    ensures OnlyItems(sources, MarkAll(sources, os))
  {
    if os != [] {
      AllShape(sources, os[..|os| - 1]);
      OutcomeShape(MarkAll(sources, os[..|os| - 1]), os[|os| - 1]);
    }
  }

  /** No result other than the `k`-th consumes the item; none at all when `k` is not an index. */
  ghost predicate OnlyConsumer(os: seq<Outcome>, k: int, id: string) {
    forall i :: 0 <= i < |os| && i != k ==> id !in Consumed(os[i])
  }

  lemma {:induction false} ItemAfterAll(sources: Sources, os: seq<Outcome>, k: int, n: string, id: string)
    requires n in sources && id in sources[n].items && OnlyConsumer(os, k, id)
    ensures n in MarkAll(sources, os) && id in MarkAll(sources, os)[n].items
    ensures MarkAll(sources, os)[n].items[id] ==
            if 0 <= k < |os| then AfterResult(sources[n].items[id], os[k], id) else sources[n].items[id]
  {
    if os != [] {
      var init, last := os[..|os| - 1], os[|os| - 1];
      assert forall i :: 0 <= i < |init| ==> init[i] == os[i];
      ItemAfterAll(sources, init, k, n, id);
      ItemAfterMerge(MarkAll(sources, init), last, n, id);
    }
  }

  ghost predicate DistinctStages(os: seq<Outcome>) {
    forall i, j :: 0 <= i < j < |os| ==> os[i].stageId != os[j].stageId
  }

  /** No two results consume one known item. */
  ghost predicate NoItemTwice(sources: Sources, os: seq<Outcome>) {
    forall i, j :: 0 <= i < j < |os| ==> SharesNoItem(sources, os[i], os[j])
  }

  ghost predicate OrderIrrelevant(sources: Sources, os: seq<Outcome>) {
    forall a {:trigger MarkAll(sources, a)} :: multiset(a) == multiset(os) ==>
      MarkAll(sources, a) == MarkAll(sources, os)
  }

  lemma ConsumerIn(sources: Sources, os: seq<Outcome>, n: string, id: string) returns (k: int)
    requires NoItemTwice(sources, os) && n in sources && id in sources[n].items
    ensures OnlyConsumer(os, k, id) && -1 <= k < |os| && (0 <= k ==> id in Consumed(os[k]))
  {
    k := -1;
    if i :| 0 <= i < |os| && id in Consumed(os[i]) {
      k := i;
      forall j | 0 <= j < |os| && j != k ensures id !in Consumed(os[j]) {
        assert if j < k then SharesNoItem(sources, os[j], os[k]) else SharesNoItem(sources, os[k], os[j]);
      }
    }
  }

  /** The consumer's place in another order. */
  lemma ConsumerMoves(os: seq<Outcome>, a: seq<Outcome>, k: int, id: string) returns (p: int)
    requires Distinct(os) && multiset(a) == multiset(os) && OnlyConsumer(os, k, id) && -1 <= k < |os|
    ensures OnlyConsumer(a, p, id) && -1 <= p < |a| && (0 <= k <==> 0 <= p) && (0 <= k ==> a[p] == os[k])
  {
    DistinctMultiset(os, a);
    p := -1;
    if 0 <= k {
      assert os[k] in multiset(a);
      p :| 0 <= p < |a| && a[p] == os[k];
    }
    forall i | 0 <= i < |a| && i != p ensures id !in Consumed(a[i]) {
      assert a[i] in multiset(os);
      var m :| 0 <= m < |os| && os[m] == a[i];
      assert 0 <= k ==> a[i] != a[p];
    }
  }

  lemma SameItem(sources: Sources, os: seq<Outcome>, a: seq<Outcome>, n: string, id: string)
    requires Distinct(os) && NoItemTwice(sources, os) && multiset(a) == multiset(os)
    requires n in sources && id in sources[n].items
    ensures n in MarkAll(sources, a) && id in MarkAll(sources, a)[n].items
    ensures n in MarkAll(sources, os) && id in MarkAll(sources, os)[n].items
    ensures MarkAll(sources, a)[n].items[id] == MarkAll(sources, os)[n].items[id]
  {
    var k := ConsumerIn(sources, os, n, id);
    var p := ConsumerMoves(os, a, k, id);
    ItemAfterAll(sources, os, k, n, id);
    ItemAfterAll(sources, a, p, n, id);
  }

  lemma SameWhenItemsAre(sources: Sources, one: Sources, other: Sources)
    requires OnlyItems(sources, one) && OnlyItems(sources, other)
    requires forall n, id :: n in sources && id in sources[n].items ==> one[n].items[id] == other[n].items[id]
    ensures one == other
  {
    forall n | n in sources ensures one[n] == other[n] {
      assert one[n].items == other[n].items;
    }
  }

  lemma SameInAnyOrder(sources: Sources, os: seq<Outcome>, a: seq<Outcome>)
    requires DistinctStages(os) && NoItemTwice(sources, os) && multiset(a) == multiset(os)
    ensures MarkAll(sources, a) == MarkAll(sources, os)
  {
    AllShape(sources, a);
    AllShape(sources, os);
    forall n, id | n in sources && id in sources[n].items
      ensures MarkAll(sources, a)[n].items[id] == MarkAll(sources, os)[n].items[id]
    {
      SameItem(sources, os, a, n, id);
    }
    SameWhenItemsAre(sources, MarkAll(sources, a), MarkAll(sources, os));
  }

  /** Two orders that differ in the last two results only. */
  lemma SwapLast(sources: Sources, rest: seq<Outcome>, r: Outcome, s: Outcome)
    ensures MarkAll(sources, rest + [r, s]) == MarkOutcome(MarkOutcome(MarkAll(sources, rest), r), s)
  {
    MarkAllPush(sources, rest, r);
    MarkAllPush(sources, rest + [r], s);
    assert rest + [r, s] == rest + [r] + [s];
  }

  lemma TakeOut<T>(s: seq<T>, i: nat, j: nat) returns (rest: seq<T>)
    requires i < j < |s|
    ensures multiset(rest + [s[i], s[j]]) == multiset(s) == multiset(rest + [s[j], s[i]])
  {
    rest := s[..i] + s[i + 1..j] + s[j + 1..];
    assert s == s[..i] + [s[i]] + s[i + 1..j] + [s[j]] + s[j + 1..];
  }

  lemma SwapShows(sources: Sources, rest: seq<Outcome>, r: Outcome, s: Outcome)
    requires r.stageId != s.stageId && MarkAll(sources, rest + [r, s]) == MarkAll(sources, rest + [s, r])
    ensures SharesNoItem(sources, r, s)
  {
    SwapLast(sources, rest, r, s);
    SwapLast(sources, rest, s, r);
    StatesCommuteIff(MarkAll(sources, rest), r, s);
    AllShape(sources, rest);
    SameKnown(sources, MarkAll(sources, rest), r, s);
  }

  lemma SharedItemShows(sources: Sources, os: seq<Outcome>, i: nat, j: nat)
    requires DistinctStages(os) && OrderIrrelevant(sources, os) && i < j < |os|
    ensures SharesNoItem(sources, os[i], os[j])
  {
    var r, s := os[i], os[j];
    var rest := TakeOut(os, i, j);
    assert MarkAll(sources, rest + [r, s]) == MarkAll(sources, os);
    assert MarkAll(sources, rest + [s, r]) == MarkAll(sources, os);
    SwapShows(sources, rest, r, s);
  }

  lemma SameKnown(sources: Sources, before: Sources, r: Outcome, s: Outcome)
    requires OnlyItems(sources, before)
    ensures SharesNoItem(before, r, s) ==> SharesNoItem(sources, r, s)
  {
    if SharesNoItem(before, r, s) {
      forall n, id | n in sources && id in sources[n].items ensures id !in Consumed(r) || id !in Consumed(s) {
        assert n in before && id in before[n].items;
      }
    }
  }

  /**
   * The results of distinct stages leave the same item states in every order of merging exactly when no two of them
   * consume one known item.
   */
  lemma StatesAgreeIff(sources: Sources, os: seq<Outcome>)
    requires DistinctStages(os)
    ensures OrderIrrelevant(sources, os) <==> NoItemTwice(sources, os)
  {
    if NoItemTwice(sources, os) {
      forall a | multiset(a) == multiset(os) ensures MarkAll(sources, a) == MarkAll(sources, os) {
        SameInAnyOrder(sources, os, a);
      }
    }
    if OrderIrrelevant(sources, os) {
      forall i, j | 0 <= i < j < |os| ensures SharesNoItem(sources, os[i], os[j]) {
        SharedItemShows(sources, os, i, j);
      }
    }
  }
}
