/** What the schedule promises: order, minimality, uniqueness, completeness and an honest cycle report. */
module ScheduleProperties {
  import opened Seqs
  import opened Order
  import opened Ids
  import opened Graphs
  import opened Schedule

  lemma OneLongest(g: Graph, v: StageId, m: nat, n: nat)
    requires LongestChainTo(g, v, m) && LongestChainTo(g, v, n)
    ensures m == n
  {
    var p :| IsChainTo(g, p, v) && |p| == m + 1;
    var q :| IsChainTo(g, q, v) && |q| == n + 1;
  }

  /** The source of every dependency runs in a strictly earlier batch. */
  lemma DependenciesFirst(g: Graph, batches: seq<seq<StageId>>, u: StageId, v: StageId, i: nat, j: nat)
    requires WellFormed(g) && IsSchedule(g, batches) && Edge(g, u, v)
    requires i < |batches| && u in batches[i] && j < |batches| && v in batches[j]
    ensures i < j
  {
    var p :| IsChainTo(g, p, u) && |p| == i + 1;
    ExtendChain(g, p, v);
    assert |p + [v]| <= j + 1;
  }

  /** No layering that respects the dependencies places a stage earlier or uses fewer batches. */
  lemma EarliestBatches(g: Graph, batches: seq<seq<StageId>>, layer: map<StageId, nat>, height: nat)
    requires IsSchedule(g, batches) && IsLayering(g, layer) && forall v :: v in layer ==> layer[v] < height
    ensures forall i, v :: 0 <= i < |batches| && v in batches[i] ==> i <= layer[v]
    ensures |batches| <= height
  {
    forall i, v | 0 <= i < |batches| && v in batches[i] ensures v in layer && i <= layer[v] {
      LongestIsEarliest(g, layer, v, i);
    }
    if batches != [] {
      var last := batches[|batches| - 1];
      assert last[0] in last && last[0] in layer && |batches| - 1 <= layer[last[0]];
    }
  }

  lemma InExactlyOneBatch(g: Graph, batches: seq<seq<StageId>>, i: nat, j: nat, v: StageId)
    requires IsSchedule(g, batches) && i < |batches| && j < |batches| && v in batches[i] && v in batches[j]
    ensures i == j
  {
    OneLongest(g, v, i, j);
  }

  /** Within a batch the names ascend: where two first differ, the earlier ends or has the smaller character. */
  lemma NamesAscend(g: Graph, batches: seq<seq<StageId>>, i: nat, j: nat, k: nat)
    requires IsSchedule(g, batches) && i < |batches| && j < k < |batches[i]|
    ensures exists m :: DivergeAt(batches[i][j].name, batches[i][k].name, m)
  {
    assert Less(Names(batches[i])[j], Names(batches[i])[k]);
    LessIff(batches[i][j].name, batches[i][k].name);
  }

  lemma StrictNamesDistinct(batch: seq<StageId>)
    requires StrictlySorted(Names(batch))
    ensures Distinct(batch)
  {
    forall i, j | 0 <= i < j < |batch| ensures batch[i] != batch[j] {
      assert Less(Names(batch)[i], Names(batch)[j]);
      Trichotomy(batch[i].name, batch[j].name);
    }
  }

  /** The same members listed by increasing name are listed alike. */
  lemma SameBatch(a: seq<StageId>, b: seq<StageId>)
    requires StrictlySorted(Names(a)) && StrictlySorted(Names(b)) && forall v :: v in a <==> v in b
    ensures a == b
  {
    forall x ensures x in Names(a) <==> x in Names(b) {
      if x in Names(a) {
        var i :| 0 <= i < |a| && Names(a)[i] == x;
        assert a[i] in b;
        var j :| 0 <= j < |b| && b[j] == a[i];
        assert Names(b)[j] == x;
      }
      if x in Names(b) {
        var i :| 0 <= i < |b| && Names(b)[i] == x;
        assert b[i] in a;
        var j :| 0 <= j < |a| && a[j] == b[i];
        assert Names(a)[j] == x;
      }
    }
    StrictlySortedUnique(Names(a), Names(b));
    assert |a| == |Names(a)| && |b| == |Names(b)|;
    forall i | 0 <= i < |a| ensures a[i] == b[i] {
      assert a[i].name == Names(a)[i] == Names(b)[i] == b[i].name;
    }
  }

  /** `v` moves with its index: both schedules place it in the batch of its longest chain. */
  lemma BatchOf(g: Graph, a: seq<seq<StageId>>, b: seq<seq<StageId>>, i: nat, v: StageId)
    requires IsSchedule(g, a) && IsSchedule(g, b) && i < |a| && v in a[i]
    ensures i < |b| && v in b[i]
  {
    assert InSomeBatch(b, v);
    var j :| 0 <= j < |b| && v in b[j];
    OneLongest(g, v, i, j);
  }

  lemma AtMostAsMany(g: Graph, a: seq<seq<StageId>>, b: seq<seq<StageId>>)
    requires IsSchedule(g, a) && IsSchedule(g, b)
    ensures |a| <= |b|
  {
    if a != [] {
      assert a[|a| - 1][0] in a[|a| - 1];
      BatchOf(g, a, b, |a| - 1, a[|a| - 1][0]);
    }
  }

  /** A dependency graph has one schedule. */
  lemma ScheduleUnique(g: Graph, a: seq<seq<StageId>>, b: seq<seq<StageId>>)
    requires IsSchedule(g, a) && IsSchedule(g, b)
    ensures a == b
  {
    AtMostAsMany(g, a, b);
    AtMostAsMany(g, b, a);
    forall i | 0 <= i < |a| ensures a[i] == b[i] {
      forall v ensures v in a[i] <==> v in b[i] {
        if v in a[i] { BatchOf(g, a, b, i, v); }
        if v in b[i] { BatchOf(g, b, a, i, v); }
      }
      SameBatch(a[i], b[i]);
    }
  }

  /** So listing the stages in another order gives the same schedule, and the same verdict. */
  lemma OrderIrrelevant(s: seq<StageId>, t: seq<StageId>, creators: Creators, readers: Readers,
                        a: seq<seq<StageId>>, b: seq<seq<StageId>>)
    requires multiset(s) == multiset(t)
    requires IsSchedule(DependencyGraph(s, creators, readers), a) &&
             IsSchedule(DependencyGraph(t, creators, readers), b)
    ensures a == b && DependencyGraph(s, creators, readers) == DependencyGraph(t, creators, readers)
  {
    assert forall v :: v in s <==> v in multiset(s);
    assert forall v :: v in t <==> v in multiset(t);
    assert Elements(s) == Elements(t);
    ScheduleUnique(DependencyGraph(s, creators, readers), a, b);
  }

  function Flatten(batches: seq<seq<StageId>>): seq<StageId> {
    if batches == [] then [] else Flatten(batches[..|batches| - 1]) + batches[|batches| - 1]
  }

  lemma {:induction false} FlattenCount(batches: seq<seq<StageId>>, v: StageId)
    requires WellShaped(batches)
    requires forall i, j :: 0 <= i < |batches| && 0 <= j < |batches| && v in batches[i] && v in batches[j] ==> i == j
    ensures multiset(Flatten(batches))[v] == if InSomeBatch(batches, v) then 1 else 0
  {
    if batches != [] {
      var init, last := batches[..|batches| - 1], batches[|batches| - 1];
      FlattenCount(init, v);
      StrictNamesDistinct(last);
      CountAtMostOne(last, v);
      assert v in last <==> multiset(last)[v] == 1;
      InLastOrBefore(batches, v);
      assert !(InSomeBatch(init, v) && v in last) by {
        if i :| 0 <= i < |init| && v in init[i] {
          assert v in batches[i];
        }
      }
    }
  }

  lemma InLastOrBefore(batches: seq<seq<StageId>>, v: StageId)
    requires batches != []
    ensures InSomeBatch(batches, v) <==> InSomeBatch(batches[..|batches| - 1], v) || v in batches[|batches| - 1]
  {
    var init := batches[..|batches| - 1];
    assert forall i :: 0 <= i < |init| ==> init[i] == batches[i];
  }

  /** The batches together list every stage exactly once. */
  lemma ScheduleIsPermutation(stages: seq<StageId>, creators: Creators, readers: Readers, batches: seq<seq<StageId>>)
    requires Distinct(stages) && IsSchedule(DependencyGraph(stages, creators, readers), batches)
    ensures multiset(Flatten(batches)) == multiset(stages)
  {
    var g := DependencyGraph(stages, creators, readers);
    forall v ensures multiset(Flatten(batches))[v] == multiset(stages)[v] {
      forall i, j | 0 <= i < |batches| && 0 <= j < |batches| && v in batches[i] && v in batches[j] ensures i == j {
        InExactlyOneBatch(g, batches, i, j, v);
      }
      FlattenCount(batches, v);
      CountAtMostOne(stages, v);
      assert v in stages <==> v in multiset(stages);
      assert v in stages ==> v in g && InSomeBatch(batches, v);
      assert InSomeBatch(batches, v) ==> v in g && v in stages;
    }
  }

  /** The stages reported for a cyclic graph contain a whole cycle, and each has a reported predecessor. */
  lemma ReportContainsCycle(stages: seq<StageId>, g: Graph) returns (c: seq<StageId>)
    requires WellFormed(g) && g.Keys == Elements(stages) && HasCycle(g)
    ensures IsCycle(g, c) && forall v :: v in c ==> v in Filter(stages, CyclicStages(g))
    ensures forall v :: v in Filter(stages, CyclicStages(g)) ==>
              HasPredecessorIn(g, Elements(Filter(stages, CyclicStages(g))), v)
  {
    var report := Filter(stages, CyclicStages(g));
    FilterMembers(stages, CyclicStages(g));
    c :| IsCycle(g, c);
    forall k | 0 <= k < |c| ensures c[k] in report {
      OnCycle(g, c, k);
      assert c[k] in Elements(stages);
    }
    forall v | v in report ensures HasPredecessorIn(g, Elements(report), v) {
      var u := CyclicPredecessor(g, v);
      assert u in Elements(stages);
      assert u in report;
    }
  }

  lemma OnCycle(g: Graph, c: seq<StageId>, k: nat)
    requires IsCycle(g, c) && k < |c|
    ensures c[k] in g && BehindCycle(g, c[k])
  {
    PrefixChain(g, c, k + 1);
    assert IsChainTo(g, c[..k + 1], c[k]) && c[..k + 1][0] == c[0];
  }

  lemma CyclicPredecessor(g: Graph, v: StageId) returns (u: StageId)
    requires BehindCycle(g, v)
    ensures Edge(g, u, v) && u in g && BehindCycle(g, u)
  {
    var c, p :| IsCycle(g, c) && IsChainTo(g, p, v) && p[0] == c[0];
    if |p| == 1 {
      p := c;
    }
    u := p[|p| - 2];
    var q := p[..|p| - 1];
    PrefixChain(g, p, |p| - 1);
    assert IsChainTo(g, q, u) && q[0] == c[0];
    assert Edge(g, p[|p| - 2], p[|p| - 1]);
  }

  /**
   * The schedule keeps two writers of one resource apart exactly when their longest chains differ in length;
   * the write declarations themselves play no part.
   */
  lemma WritersApartIff(g: Graph, batches: seq<seq<StageId>>, a: StageId, b: StageId, m: nat, n: nat)
    requires IsSchedule(g, batches) && a in g && b in g && LongestChainTo(g, a, m) && LongestChainTo(g, b, n)
    ensures (exists i :: 0 <= i < |batches| && a in batches[i] && b in batches[i]) <==> m == n
  {
    assert InSomeBatch(batches, a) && InSomeBatch(batches, b);
    var i :| 0 <= i < |batches| && a in batches[i];
    var j :| 0 <= j < |batches| && b in batches[j];
    OneLongest(g, a, i, m);
    OneLongest(g, b, j, n);
    forall k | 0 <= k < |batches| && a in batches[k] && b in batches[k] ensures m == n {
      OneLongest(g, a, k, m);
      OneLongest(g, b, k, n);
    }
  }

  /** Without dependencies the stages in name order are one batch. */
  lemma OneBatch(g: Graph, batch: seq<StageId>)
    requires g.Keys == Elements(batch) && batch != [] && StrictlySorted(Names(batch)) && forall v :: v in g ==>
             g[v] == {}
    ensures !HasCycle(g) && IsSchedule(g, [batch])
  {
    var layers := map v <- g :: 0;
    assert IsLayering(g, layers) && IsTight(g, layers);
    LayeringHasNoCycle(g, layers);
    forall v | v in g ensures LongestChainTo(g, v, 0) {
      TightIsLongest(g, layers, v);
    }
    forall v | v in g ensures InSomeBatch([batch], v) {
      assert v in [batch][0];
    }
    assert forall v :: v in batch ==> v in Elements(batch);
  }

  lemma TwoWriters(a: StageId, b: StageId)
    requires Less(a.name, b.name)
    ensures var g := DependencyGraph([a, b], map[], map[]);
            !HasCycle(g) && IsSchedule(g, [[a, b]])
  {
    assert Names([a, b]) == [a.name, b.name];
    OneBatch(DependencyGraph([a, b], map[], map[]), [a, b]);
  }

  /** Two stages that only write the same resource share the first batch. */
  method WriteConflictExample() returns (r: Result<seq<seq<StageId>>, ResolveError>)
    ensures r == Ok([[StageId("a"), StageId("b")]])
  {
    var a, b := StageId("a"), StageId("b");
    r := ComputeSchedule([a, b], map[], map[], map["out" := [a, b]]);
    TwoWriters(a, b);
    ScheduleUnique(DependencyGraph([a, b], map[], map[]), r.value, [[a, b]]);
  }
}
