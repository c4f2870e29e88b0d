/** The resource graph: stages connected by the resources they declare. */
module ResourceGraph {
  import opened Seqs
  import opened Ids
  import opened Graphs
  import opened Schedule
  import opened ScheduleProperties

  datatype ResourceSpec = ResourceSpec(readList: seq<string>, createList: seq<string>, writeList: seq<string>)

  /** The stage table of a specification, in the key order in which it is iterated. */
  type StageTable = seq<(string, ResourceSpec)>

  datatype ResourceGraph = ResourceGraph(creators: Creators, readers: Readers, writers: Readers, stages: seq<StageId>)

  predicate DistinctNames(specs: StageTable) {
    forall i, j :: 0 <= i < j < |specs| ==> specs[i].0 != specs[j].0
  }

  function StageIds(specs: StageTable): seq<StageId> {
    seq(|specs|, i requires 0 <= i < |specs| => StageId(specs[i].0))
  }

  type Declarations = seq<(string, StageId)>

  function Tag(resources: seq<string>, stage: StageId): Declarations {
    seq(|resources|, i requires 0 <= i < |resources| => (resources[i], stage))
  }

  /** All `creates` entries in declaration order. */
  function Creations(specs: StageTable): Declarations {
    if specs == [] then []
    else
      var (name, spec) := specs[|specs| - 1];
      Creations(specs[..|specs| - 1]) + Tag(spec.createList, StageId(name))
  }

  /** Two entries declare the same resource. */
  ghost predicate Clash(d: Declarations, i: nat, j: nat) {
    i < j < |d| && d[i].0 == d[j].0
  }

  ghost predicate HasDuplicate(d: Declarations) {
    exists i, j :: Clash(d, i, j)
  }

  /** `creators` records exactly the declarations `d`. */
  ghost predicate Records(creators: Creators, d: Declarations) {
    && (forall i :: 0 <= i < |d| ==> d[i].0 in creators && creators[d[i].0] == d[i].1)
    && (forall r :: r in creators ==> (r, creators[r]) in d)
  }

  /** The table maps each resource to the stages that list it, in order and with repetitions. */
  function Push(table: Readers, resource: string, stage: StageId): Readers {
    table[resource := (if resource in table then table[resource] else []) + [stage]]
  }

  function PushAll(table: Readers, resources: seq<string>, stage: StageId): Readers {
    if resources == [] then table
    else Push(PushAll(table, resources[..|resources| - 1], stage), resources[|resources| - 1], stage)
  }

  function ReadersOf(specs: StageTable): Readers {
    if specs == [] then map[]
    else
      var (name, spec) := specs[|specs| - 1];
      PushAll(ReadersOf(specs[..|specs| - 1]), spec.readList, StageId(name))
  }

  function WritersOf(specs: StageTable): Readers {
    if specs == [] then map[]
    else
      var (name, spec) := specs[|specs| - 1];
      PushAll(WritersOf(specs[..|specs| - 1]), spec.writeList, StageId(name))
  }

  ghost predicate Lists(table: Readers, resource: string, stage: StageId) {
    resource in table && stage in table[resource]
  }

  lemma {:induction false} PushAllLists(table: Readers, resources: seq<string>, stage: StageId, r: string, v: StageId)
    ensures Lists(PushAll(table, resources, stage), r, v) <==> Lists(table, r, v) || (r in resources && v == stage)
  {
    if resources != [] {
      var init := resources[..|resources| - 1];
      PushAllLists(table, init, stage, r, v);
      assert resources == init + [resources[|resources| - 1]];
    }
  }

  ghost predicate Reads(specs: StageTable, v: StageId, resource: string) {
    exists i :: 0 <= i < |specs| && specs[i].0 == v.name && resource in specs[i].1.readList
  }

  ghost predicate Creates(specs: StageTable, v: StageId, resource: string) {
    exists i :: 0 <= i < |specs| && specs[i].0 == v.name && resource in specs[i].1.createList
  }

  lemma {:induction false} ReadersOfReads(specs: StageTable, r: string, v: StageId)
    ensures Lists(ReadersOf(specs), r, v) <==> Reads(specs, v, r)
  {
    if specs != [] {
      var init, last := specs[..|specs| - 1], specs[|specs| - 1];
      ReadersOfReads(init, r, v);
      PushAllLists(ReadersOf(init), last.1.readList, StageId(last.0), r, v);
      assert forall i :: 0 <= i < |init| ==> init[i] == specs[i];
      assert v == StageId(last.0) <==> v.name == last.0;
    }
  }

  lemma {:induction false} CreationsCreate(specs: StageTable, r: string, v: StageId)
    ensures (r, v) in Creations(specs) <==> Creates(specs, v, r)
  {
    if specs != [] {
      var init, last := specs[..|specs| - 1], specs[|specs| - 1];
      CreationsCreate(init, r, v);
      assert forall i :: 0 <= i < |init| ==> init[i] == specs[i];
      var tag := Tag(last.1.createList, StageId(last.0));
      assert (r, v) in tag <==> r in last.1.createList && v == StageId(last.0) by {
        if r in last.1.createList && v == StageId(last.0) {
          var k :| 0 <= k < |last.1.createList| && last.1.createList[k] == r;
          assert tag[k] == (r, v);
        }
      }
    }
  }

  /** The first entry whose resource was already declared, and the entry it repeats. */
  ghost predicate FirstClash(d: Declarations, i: nat, j: nat) {
    Clash(d, i, j) && !HasDuplicate(d[..j])
  }

  /** The error names the first repeated resource, its creator and the stage that creates it again. */
  ghost predicate ReportsFirstClash(d: Declarations, error: ResolveError) {
    exists i: nat, j: nat :: FirstClash(d, i, j) && error == DuplicateCreator(d[j].0, [d[i].1, d[j].1])
  }

  /** Registers one stage's `creates` list; stops at the first resource that has a creator. */
  method RegisterCreates(creators0: Creators, list: seq<string>, stage: StageId, ghost earlier: Declarations)
    returns (r: Result<Creators, ResolveError>)
    requires Records(creators0, earlier) && !HasDuplicate(earlier)
    ensures r.Ok? ==> Records(r.value, earlier + Tag(list, stage)) && !HasDuplicate(earlier + Tag(list, stage))
    ensures r.Err? ==> ReportsFirstClash(earlier + Tag(list, stage), r.error)
  {
    var creators := creators0;
    ghost var all := earlier + Tag(list, stage);
    assert all[..|earlier|] == earlier;
    for k := 0 to |list|
      invariant Records(creators, all[..|earlier| + k]) && !HasDuplicate(all[..|earlier| + k])
    {
      var resource := list[k];
      ghost var j := |earlier| + k;
      assert all[j] == (resource, stage) && all[..j + 1] == all[..j] + [all[j]];
      if resource in creators {
        ClashFound(creators, all, j);
        return Err(DuplicateCreator(resource, [creators[resource], stage]));
      }
      assert creators[resource := stage] - {resource} == creators;
      creators := creators[resource := stage];
      ExtendRecords(creators, all[..j], resource, stage);
    }
    assert all[..|all|] == all;
    return Ok(creators);
  }

  lemma ExtendRecords(creators: Creators, seen: Declarations, resource: string, stage: StageId)
    requires resource in creators && creators[resource] == stage
    requires Records(creators - {resource}, seen) && !HasDuplicate(seen)
    ensures Records(creators, seen + [(resource, stage)]) && !HasDuplicate(seen + [(resource, stage)])
  {
    var all := seen + [(resource, stage)];
    assert forall i :: 0 <= i < |seen| ==> all[i] == seen[i];
    forall r | r in creators ensures (r, creators[r]) in all {
      if r == resource {
        assert all[|seen|] == (r, creators[r]);
      } else {
        assert (r, (creators - {resource})[r]) in seen;
      }
    }
    forall i: nat, j: nat | i < j < |all| ensures all[i].0 != all[j].0 {
      if j < |seen| {
        assert !Clash(seen, i, j);
      } else {
        assert seen[i].0 in creators - {resource};
      }
    }
  }

  lemma ClashFound(creators: Creators, all: Declarations, j: nat)
    requires j < |all| && Records(creators, all[..j]) && !HasDuplicate(all[..j]) && all[j].0 in creators
    ensures ReportsFirstClash(all, DuplicateCreator(all[j].0, [creators[all[j].0], all[j].1]))
  {
    var seen := all[..j];
    var i :| 0 <= i < |seen| && seen[i] == (all[j].0, creators[all[j].0]);
    assert all[i] == seen[i];
    assert FirstClash(all, i, j);
  }

  method RegisterAll(table0: Readers, list: seq<string>, stage: StageId) returns (table: Readers)
    ensures table == PushAll(table0, list, stage)
  {
    table := table0;
    for k := 0 to |list|
      invariant table == PushAll(table0, list[..k], stage)
    {
      assert list[..k + 1][..k] == list[..k];
      table := Push(table, list[k], stage);
    }
    assert list[..|list|] == list;
  }

  lemma {:induction false} CreationsPrefix(specs: StageTable, k: nat)
    requires k <= |specs|
    ensures Creations(specs[..k]) <= Creations(specs)
    decreases |specs| - k
  {
    if k == |specs| {
      assert specs[..k] == specs;
    } else {
      assert specs[..k + 1][..k] == specs[..k];
      CreationsPrefix(specs, k + 1);
    }
  }

  lemma ClashSurvives(d: Declarations, all: Declarations, error: ResolveError)
    requires d <= all && ReportsFirstClash(d, error)
    ensures ReportsFirstClash(all, error) && HasDuplicate(all)
  {
    var i: nat, j: nat :| FirstClash(d, i, j) && error == DuplicateCreator(d[j].0, [d[i].1, d[j].1]);
    assert all[..j] == d[..j];
    assert FirstClash(all, i, j) && Clash(all, i, j);
  }

  ghost predicate Describes(graph: ResourceGraph, specs: StageTable) {
    && Records(graph.creators, Creations(specs)) && !HasDuplicate(Creations(specs))
    && graph.readers == ReadersOf(specs) && graph.writers == WritersOf(specs) && graph.stages == StageIds(specs)
  }

  /** Fails exactly when some resource is declared twice among all `creates` lists, and reports the first repetition. */
  method Build(specs: StageTable) returns (r: Result<ResourceGraph, ResolveError>)
    requires DistinctNames(specs)
    ensures r.Err? <==> HasDuplicate(Creations(specs))
    ensures r.Err? ==> ReportsFirstClash(Creations(specs), r.error)
    ensures r.Ok? ==> Describes(r.value, specs)
  {
    var creators: Creators, readers: Readers, writers: Readers, stages := map[], map[], map[], [];
    for k := 0 to |specs|
      invariant Records(creators, Creations(specs[..k])) && !HasDuplicate(Creations(specs[..k]))
      invariant readers == ReadersOf(specs[..k]) && writers == WritersOf(specs[..k]) && stages == StageIds(specs[..k])
    {
      var (name, spec) := specs[k];
      var stage := StageId(name);
      assert specs[..k + 1][..k] == specs[..k];
      CreationsPrefix(specs, k + 1);
      stages := stages + [stage];
      var registered := RegisterCreates(creators, spec.createList, stage, Creations(specs[..k]));
      if registered.Err? {
        ClashSurvives(Creations(specs[..k + 1]), Creations(specs), registered.error);
        return Err(registered.error);
      }
      creators := registered.value;
      readers := RegisterAll(readers, spec.readList, stage);
      writers := RegisterAll(writers, spec.writeList, stage);
    }
    assert specs[..|specs|] == specs;
    return Ok(ResourceGraph(creators, readers, writers, stages));
  }

  /** `after` reads something that the different stage `before` creates. */
  ghost predicate Needs(specs: StageTable, before: StageId, after: StageId) {
    before != after && exists r :: Creates(specs, before, r) && Reads(specs, after, r)
  }

  ghost function SpecGraph(specs: StageTable): Graph {
    var nodes := Elements(StageIds(specs));
    map u <- nodes :: set v | v in nodes && Needs(specs, u, v)
  }

  lemma NamesAreDistinct(specs: StageTable)
    requires DistinctNames(specs)
    ensures Distinct(StageIds(specs))
    ensures forall i :: 0 <= i < |specs| ==> StageId(specs[i].0) in StageIds(specs)
  {
    assert forall i :: 0 <= i < |specs| ==> StageIds(specs)[i] == StageId(specs[i].0);
  }

  lemma DescribedIsClosed(graph: ResourceGraph, specs: StageTable)
    requires DistinctNames(specs) && Describes(graph, specs)
    ensures Closed(Elements(graph.stages), graph.creators, graph.readers)
  {
    NamesAreDistinct(specs);
    forall r | r in graph.creators ensures graph.creators[r] in Elements(graph.stages) {
      CreationsCreate(specs, r, graph.creators[r]);
    }
    forall r, v | r in graph.readers && v in graph.readers[r] ensures v in Elements(graph.stages) {
      assert Lists(graph.readers, r, v);
      ReadersOfReads(specs, r, v);
    }
  }

  lemma CreatorIff(graph: ResourceGraph, specs: StageTable, r: string, v: StageId)
    requires Describes(graph, specs)
    ensures Creates(specs, v, r) <==> r in graph.creators && graph.creators[r] == v
  {
    CreationsCreate(specs, r, v);
    if (r, v) in Creations(specs) {
      var i :| 0 <= i < |Creations(specs)| && Creations(specs)[i] == (r, v);
    }
  }

  /** The graph that is scheduled is the dependency relation of the specification. */
  lemma GraphMatchesSpec(graph: ResourceGraph, specs: StageTable)
    requires DistinctNames(specs) && Describes(graph, specs)
    ensures DependencyGraph(graph.stages, graph.creators, graph.readers) == SpecGraph(specs)
  {
    forall u, v ensures DependsOn(graph.creators, graph.readers, u, v) <==> Needs(specs, u, v) {
      if DependsOn(graph.creators, graph.readers, u, v) {
        var r :| r in graph.readers && r in graph.creators && v in graph.readers[r] && u == graph.creators[r] && u != v;
        CreatorIff(graph, specs, r, u);
        ReadersOfReads(specs, r, v);
      }
      if Needs(specs, u, v) {
        var r :| Creates(specs, u, r) && Reads(specs, v, r);
        CreatorIff(graph, specs, r, u);
        ReadersOfReads(specs, r, v);
        assert Lists(graph.readers, r, v);
      }
    }
    var g, h := DependencyGraph(graph.stages, graph.creators, graph.readers), SpecGraph(specs);
    forall u | u in g ensures g[u] == h[u] {
    }
  }

  /** From a specification to its schedule. */
  method ResolveSchedule(specs: StageTable) returns (r: Result<seq<seq<StageId>>, ResolveError>)
    requires DistinctNames(specs)
    ensures r.Err? <==> HasDuplicate(Creations(specs)) || HasCycle(SpecGraph(specs))
    ensures r.Err? && HasDuplicate(Creations(specs)) ==> ReportsFirstClash(Creations(specs), r.error)
    ensures r.Err? && !HasDuplicate(Creations(specs)) ==>
              r.error == CycleDetected(Filter(StageIds(specs), CyclicStages(SpecGraph(specs))))
    ensures r.Ok? ==> IsSchedule(SpecGraph(specs), r.value)
  {
    var built := Build(specs);
    if built.Err? {
      return Err(built.error);
    }
    var graph := built.value;
    NamesAreDistinct(specs);
    DescribedIsClosed(graph, specs);
    GraphMatchesSpec(graph, specs);
    r := ComputeSchedule(graph.stages, graph.creators, graph.readers, graph.writers);
  }

  /** Whatever a stage reads that another stage creates was created in a strictly earlier batch. */
  lemma CreatorRunsFirst(specs: StageTable, batches: seq<seq<StageId>>, a: StageId, b: StageId, resource: string,
                         i: nat, j: nat)
    requires DistinctNames(specs) && IsSchedule(SpecGraph(specs), batches)
    requires Creates(specs, a, resource) && Reads(specs, b, resource) && a != b
    requires i < |batches| && a in batches[i] && j < |batches| && b in batches[j]
    ensures i < j
  {
    var g := SpecGraph(specs);
    assert Needs(specs, a, b);
    assert a in g && b in g;
    assert Edge(g, a, b);
    DependenciesFirst(g, batches, a, b, i, j);
  }
}
