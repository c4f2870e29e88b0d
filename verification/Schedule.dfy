/** Schedule computation: Kahn's topological sort with depths, then grouping into batches. */
module Schedule {
  import opened Seqs
  import opened Order
  import opened Ids
  import opened Graphs

  datatype ResolveError =
    | CycleDetected(stages: seq<StageId>)
    | DuplicateCreator(resource: string, stages: seq<StageId>)

  type Creators = map<string, StageId>
  type Readers = map<string, seq<StageId>>

  /** Edges run from the creator of a resource to its other readers. */
  ghost predicate DependsOn(creators: Creators, readers: Readers, before: StageId, after: StageId) {
    exists resource :: resource in readers && resource in creators && after in readers[resource]
      && before == creators[resource] && before != after
  }

  ghost function DependencyGraph(stages: seq<StageId>, creators: Creators, readers: Readers): Graph {
    map u <- Elements(stages) :: set v | v in Elements(stages) && DependsOn(creators, readers, u, v)
  }

  /** Creators and readers are drawn from the stages, as a built resource graph guarantees. */
  ghost predicate Closed(nodes: set<StageId>, creators: Creators, readers: Readers) {
    && (forall r :: r in creators ==> creators[r] in nodes)
    && (forall r, v :: r in readers && v in readers[r] ==> v in nodes)
  }

  function Names(batch: seq<StageId>): seq<string> {
    seq(|batch|, i requires 0 <= i < |batch| => batch[i].name)
  }

  /** Batch `i` lists, by increasing name, exactly the stages whose longest dependency chain has length `i`. */
  ghost predicate IsSchedule(g: Graph, batches: seq<seq<StageId>>) {
    WellShaped(batches) && EachLongest(g, batches) && EachPlaced(g, batches)
  }

  ghost predicate WellShaped(batches: seq<seq<StageId>>) {
    forall i :: 0 <= i < |batches| ==> batches[i] != [] && StrictlySorted(Names(batches[i]))
  }

  ghost predicate EachLongest(g: Graph, batches: seq<seq<StageId>>) {
    forall i, v :: 0 <= i < |batches| && v in batches[i] ==> v in g && LongestChainTo(g, v, i)
  }

  ghost predicate EachPlaced(g: Graph, batches: seq<seq<StageId>>) {
    forall v {:trigger InSomeBatch(batches, v)} :: v in g ==> InSomeBatch(batches, v)
  }

  ghost predicate InSomeBatch(batches: seq<seq<StageId>>, v: StageId) {
    exists i :: 0 <= i < |batches| && v in batches[i]
  }

  function Filter(s: seq<StageId>, keep: set<StageId>): seq<StageId> {
    if s == [] then []
    else (if s[0] in keep then [s[0]] else []) + Filter(s[1..], keep)
  }

  // -- Step 1: adjacency and in-degrees ------------------------------------

  function Predecessors(g: Graph, v: StageId): set<StageId> {
    set u | u in g && v in g[u]
  }

  ghost predicate Counts(g: Graph, inDegree: map<StageId, nat>) {
    && inDegree.Keys == g.Keys
    && forall v :: v in inDegree ==> inDegree[v] == |Predecessors(g, v)|
  }

  /** Every edge of `g` is a dependency. */
  ghost predicate Genuine(g: Graph, creators: Creators, readers: Readers) {
    forall u, v :: Edge(g, u, v) ==> DependsOn(creators, readers, u, v)
  }

  /** The edges contributed by the resources in `seen` are all present. */
  ghost predicate Covers(g: Graph, creators: Creators, readers: Readers, seen: set<string>)
    requires seen <= readers.Keys
  {
    forall r :: r in seen && r in creators ==> CoversList(g, creators[r], readers[r])
  }

  ghost predicate CoversList(g: Graph, creator: StageId, list: seq<StageId>) {
    forall v :: v in list && v != creator ==> Edge(g, creator, v)
  }

  lemma GenuineAndCovered(stages: seq<StageId>, creators: Creators, readers: Readers, g: Graph)
    requires Closed(Elements(stages), creators, readers) && g.Keys == Elements(stages)
    requires Genuine(g, creators, readers) && Covers(g, creators, readers, readers.Keys)
    ensures g == DependencyGraph(stages, creators, readers)
  {
    var d := DependencyGraph(stages, creators, readers);
    forall u | u in g ensures g[u] == d[u] {
      forall v ensures v in g[u] <==> v in d[u] {
        if DependsOn(creators, readers, u, v) {
          var r :| r in readers && r in creators && v in readers[r] && u == creators[r] && u != v;
          assert CoversList(g, creators[r], readers[r]);
          assert Edge(g, u, v);
        } else {
          assert !Edge(g, u, v);
        }
      }
    }
  }

  lemma PredecessorsOfUpdate(g: Graph, u: StageId, v: StageId, w: StageId)
    requires u in g
    ensures Predecessors(g[u := g[u] + {v}], w) == if w == v then Predecessors(g, w) + {u} else Predecessors(g, w)
  {
  }

  lemma AddEdge(g: Graph, inDegree: map<StageId, nat>, u: StageId, v: StageId)
    requires Counts(g, inDegree) && u in g && v in g && v !in g[u]
    ensures Counts(g[u := g[u] + {v}], inDegree[v := inDegree[v] + 1])
  {
    var g', inDegree' := g[u := g[u] + {v}], inDegree[v := inDegree[v] + 1];
    forall w | w in inDegree' ensures inDegree'[w] == |Predecessors(g', w)| {
      PredecessorsOfUpdate(g, u, v, w);
      assert u !in Predecessors(g, v);
    }
  }

  lemma AddResource(creators: Creators, readers: Readers, resource: string, g: Graph, seen: set<string>)
    requires seen <= readers.Keys && resource in readers && resource in creators && creators[resource] in g
    requires Genuine(g, creators, readers) && Covers(g, creators, readers, seen)
    ensures var g' := WithReaders(g, creators[resource], Others(readers[resource], creators[resource]));
            Genuine(g', creators, readers) && Covers(g', creators, readers, seen + {resource})
  {
    var creator := creators[resource];
    var g' := WithReaders(g, creator, Others(readers[resource], creator));
    forall u, v | Edge(g', u, v) ensures DependsOn(creators, readers, u, v) {
      assert Edge(g, u, v) || (u == creator && v in readers[resource]);
    }
    forall r | r in seen + {resource} && r in creators ensures CoversList(g', creators[r], readers[r]) {
      if r in seen {
        assert CoversList(g, creators[r], readers[r]);
        assert forall v :: Edge(g, creators[r], v) ==> Edge(g', creators[r], v);
      }
    }
  }

  method BuildEdges(stages: seq<StageId>, creators: Creators, readers: Readers)
    returns (adjacency: Graph, inDegree: map<StageId, nat>)
    requires Closed(Elements(stages), creators, readers)
    ensures adjacency == DependencyGraph(stages, creators, readers) && Counts(adjacency, inDegree)
  {
    adjacency := map v <- Elements(stages) :: {};
    inDegree := map v <- Elements(stages) :: 0;
    assert forall v :: Predecessors(adjacency, v) == {};
    var pending := readers.Keys;
    while pending != {}
      invariant pending <= readers.Keys && adjacency.Keys == Elements(stages) && Counts(adjacency, inDegree)
      invariant Genuine(adjacency, creators, readers) && Covers(adjacency, creators, readers, readers.Keys - pending)
    {
      var resource :| resource in pending;
      if resource in creators {
        AddResource(creators, readers, resource, adjacency, readers.Keys - pending);
        adjacency, inDegree := AddReaders(creators[resource], readers[resource], adjacency, inDegree);
      }
      assert readers.Keys - (pending - {resource}) == readers.Keys - pending + {resource};
      pending := pending - {resource};
    }
    assert readers.Keys - pending == readers.Keys;
    GenuineAndCovered(stages, creators, readers, adjacency);
  }

  function Others(list: seq<StageId>, creator: StageId): set<StageId> {
    set v | v in list && v != creator
  }

  function WithReaders(g: Graph, creator: StageId, more: set<StageId>): Graph
    requires creator in g
  {
    g[creator := g[creator] + more]
  }

  lemma ReaderStep(g: Graph, creator: StageId, list: seq<StageId>, k: nat)
    requires creator in g && k < |list|
    ensures var before, reader := WithReaders(g, creator, Others(list[..k], creator)), list[k];
            WithReaders(g, creator, Others(list[..k + 1], creator)) ==
            if reader != creator && reader !in before[creator] then before[creator := before[creator] + {reader}]
            else before
  {
    assert list[..k + 1] == list[..k] + [list[k]];
    var before, after := Others(list[..k], creator), Others(list[..k + 1], creator);
    assert after == if list[k] == creator then before else before + {list[k]};
    var reader := list[k];
    var now := WithReaders(g, creator, before);
    assert now[creator] == g[creator] + before;
    if reader != creator && reader !in now[creator] {
      assert g[creator] + after == now[creator] + {reader};
    } else {
      assert g[creator] + after == now[creator];
    }
  }

  /** The inner loop of edge construction: one creator and the stages that read its resource. */
  method AddReaders(creator: StageId, list: seq<StageId>, adjacency0: Graph, inDegree0: map<StageId, nat>)
    returns (adjacency: Graph, inDegree: map<StageId, nat>)
    requires creator in adjacency0 && (forall v :: v in list ==> v in adjacency0) && Counts(adjacency0, inDegree0)
    ensures Counts(adjacency, inDegree)
    ensures adjacency == WithReaders(adjacency0, creator, Others(list, creator))
  {
    adjacency, inDegree := adjacency0, inDegree0;
    assert adjacency0[creator] + Others([], creator) == adjacency0[creator];
    for k := 0 to |list|
      invariant Counts(adjacency, inDegree)
      invariant adjacency == WithReaders(adjacency0, creator, Others(list[..k], creator))
    {
      var reader := list[k];
      ReaderStep(adjacency0, creator, list, k);
      if reader != creator && reader !in adjacency[creator] {
        AddEdge(adjacency, inDegree, creator, reader);
        adjacency := adjacency[creator := adjacency[creator] + {reader}];
        inDegree := inDegree[reader := inDegree[reader] + 1];
      }
    }
    assert list[..|list|] == list;
  }

  // -- Step 2: Kahn's loop --------------------------------------------------

  function DepthOf(depth: map<StageId, nat>, v: StageId): nat {
    if v in depth then depth[v] else 0
  }

  /**
   * A point in the loop: the stages in `done` have been processed, except that the edges from `stage` to
   * `neighbors` are still to be followed.
   */
  datatype Point = Point(done: set<StageId>, stage: StageId, neighbors: set<StageId>)

  ghost predicate Followed(g: Graph, at: Point, u: StageId, v: StageId) {
    Edge(g, u, v) && u in at.done && !(u == at.stage && v in at.neighbors)
  }

  /** The predecessors whose edge into `v` has not been followed. */
  ghost function Waiting(g: Graph, at: Point, v: StageId): set<StageId> {
    set u | u in g && Edge(g, u, v) && !Followed(g, at, u, v)
  }

  /** A stage's in-degree is its number of unfollowed edges. */
  ghost predicate Exact(g: Graph, at: Point, inDegree: map<StageId, nat>) {
    inDegree.Keys == g.Keys && forall v :: v in inDegree ==> inDegree[v] == |Waiting(g, at, v)|
  }

  /** A stage is queued or done exactly when its in-degree is zero, and never queued twice. */
  ghost predicate QueueInvariant(g: Graph, done: set<StageId>, queue: seq<StageId>, inDegree: map<StageId, nat>) {
    && Distinct(queue) && inDegree.Keys == g.Keys
    && (forall v :: v in queue ==> v in g && v !in done)
    && (forall v :: v in done ==> v in g)
    && (forall v :: v in inDegree ==> (inDegree[v] == 0 <==> v in queue || v in done))
  }

  ghost predicate DegreeInvariant(g: Graph, at: Point, queue: seq<StageId>, inDegree: map<StageId, nat>) {
    Exact(g, at, inDegree) && QueueInvariant(g, at.done, queue, inDegree)
  }

  /** Depths climb along followed edges, and every positive depth is due to a followed edge. */
  ghost predicate DepthInvariant(g: Graph, at: Point, depth: map<StageId, nat>) {
    && depth.Keys <= g.Keys
    && (forall u, v :: Followed(g, at, u, v) ==> DepthOf(depth, u) < DepthOf(depth, v))
    && (forall v {:trigger HasTightEdge(g, at, depth, v)} ::
          v in g && 0 < DepthOf(depth, v) ==> HasTightEdge(g, at, depth, v))
  }

  ghost predicate HasTightEdge(g: Graph, at: Point, depth: map<StageId, nat>, v: StageId) {
    exists u :: Followed(g, at, u, v) && DepthOf(depth, u) + 1 == DepthOf(depth, v)
  }

  /** The neighbour's depth is at least one more than the stage's. */
  function Raised(depth: map<StageId, nat>, u: StageId, v: StageId): map<StageId, nat> {
    depth[v := if DepthOf(depth, v) <= DepthOf(depth, u) then DepthOf(depth, u) + 1 else DepthOf(depth, v)]
  }

  lemma WaitingAfter(g: Graph, at: Point, v: StageId, w: StageId)
    requires at.stage in at.done && v in at.neighbors && Edge(g, at.stage, v)
    ensures var next := at.(neighbors := at.neighbors - {v});
            Waiting(g, next, w) == if w == v then Waiting(g, at, w) - {at.stage} else Waiting(g, at, w)
    ensures at.stage in Waiting(g, at, v)
  {
  }

  lemma CountAfter(g: Graph, at: Point, v: StageId, w: StageId)
    requires at.stage in at.done && v in at.neighbors && Edge(g, at.stage, v)
    ensures |Waiting(g, at.(neighbors := at.neighbors - {v}), w)| == |Waiting(g, at, w)| - if w == v then 1 else 0
    ensures 0 < |Waiting(g, at, v)|
  {
    WaitingAfter(g, at, v, w);
    SmallerSet({}, Waiting(g, at, v));
  }

  lemma FollowCount(g: Graph, at: Point, inDegree: map<StageId, nat>, v: StageId)
    requires Exact(g, at, inDegree)
    requires at.stage in at.done && v in at.neighbors && v in g && Edge(g, at.stage, v)
    ensures 0 < inDegree[v] && Exact(g, at.(neighbors := at.neighbors - {v}), inDegree[v := inDegree[v] - 1])
  {
    assert inDegree[v] == |Waiting(g, at, v)|;
    CountAfter(g, at, v, v);
    forall w | w in inDegree
      ensures |Waiting(g, at.(neighbors := at.neighbors - {v}), w)| == inDegree[w] - if w == v then 1 else 0
    {
      CountAfter(g, at, v, w);
    }
  }

  lemma FollowQueue(g: Graph, done: set<StageId>, queue: seq<StageId>, inDegree: map<StageId, nat>, v: StageId)
    requires QueueInvariant(g, done, queue, inDegree) && v in g && 0 < inDegree[v]
    ensures v !in queue && v !in done
    ensures QueueInvariant(g, done, if inDegree[v] == 1 then queue + [v] else queue, inDegree[v := inDegree[v] - 1])
  {
  }

  /** Following one edge keeps the in-degrees exact, and never takes one below zero. */
  lemma FollowDegree(g: Graph, at: Point, queue: seq<StageId>, inDegree: map<StageId, nat>, v: StageId)
    requires DegreeInvariant(g, at, queue, inDegree)
    requires at.stage in at.done && v in at.neighbors && v in g && Edge(g, at.stage, v)
    ensures 0 < inDegree[v] && v !in queue && v !in at.done
    ensures DegreeInvariant(g, at.(neighbors := at.neighbors - {v}), if inDegree[v] == 1 then queue + [v] else queue,
                            inDegree[v := inDegree[v] - 1])
  {
    FollowCount(g, at, inDegree, v);
    FollowQueue(g, at.done, queue, inDegree, v);
  }

  lemma FollowDepth(g: Graph, at: Point, depth: map<StageId, nat>, v: StageId)
    requires DepthInvariant(g, at, depth)
    requires at.stage in at.done && v in at.neighbors && v in g && Edge(g, at.stage, v) && v !in at.done
    ensures DepthInvariant(g, at.(neighbors := at.neighbors - {v}), Raised(depth, at.stage, v))
  {
    var next, depth' := at.(neighbors := at.neighbors - {v}), Raised(depth, at.stage, v);
    assert forall x, y :: Followed(g, next, x, y) <==> Followed(g, at, x, y) || (x == at.stage && y == v);
    assert forall x :: x != v ==> DepthOf(depth', x) == DepthOf(depth, x);
    forall x | x in g && 0 < DepthOf(depth', x) ensures HasTightEdge(g, next, depth', x) {
      if x == v && DepthOf(depth, v) <= DepthOf(depth, at.stage) {
        assert Followed(g, next, at.stage, v) && DepthOf(depth', at.stage) + 1 == DepthOf(depth', v);
      } else {
        assert HasTightEdge(g, at, depth, x);
        var w :| Followed(g, at, w, x) && DepthOf(depth, w) + 1 == DepthOf(depth, x);
        assert Followed(g, next, w, x) && DepthOf(depth', w) + 1 == DepthOf(depth', x);
      }
    }
  }

  method InitialQueue(inDegree: map<StageId, nat>) returns (queue: seq<StageId>)
    ensures Distinct(queue) && forall v :: v in queue <==> v in inDegree && inDegree[v] == 0
  {
    queue := [];
    var scan := inDegree.Keys;
    while scan != {}
      invariant scan <= inDegree.Keys && Distinct(queue)
      invariant forall v :: v in queue <==> v in inDegree && v !in scan && inDegree[v] == 0
    {
      var stage :| stage in scan;
      scan := scan - {stage};
      if inDegree[stage] == 0 {
        queue := queue + [stage];
      }
    }
  }

  lemma StartKahn(g: Graph, at: Point, queue: seq<StageId>, inDegree: map<StageId, nat>)
    requires Counts(g, inDegree) && at.done == {}
    requires Distinct(queue) && forall v :: v in queue <==> v in inDegree && inDegree[v] == 0
    ensures DegreeInvariant(g, at, queue, inDegree) && DepthInvariant(g, at, map[])
  {
    forall v | v in inDegree ensures inDegree[v] == |Waiting(g, at, v)| {
      assert Waiting(g, at, v) == Predecessors(g, v);
    }
  }

  /** Taking a stage off the queue: all its edges become the ones to follow. */
  lemma StartStage(g: Graph, at: Point, queue: seq<StageId>, inDegree: map<StageId, nat>, depth: map<StageId, nat>)
    requires queue != [] && at.neighbors == {}
    requires DegreeInvariant(g, at, queue, inDegree) && DepthInvariant(g, at, depth)
    ensures var stage := queue[0];
            && stage in g && stage !in at.done && |g.Keys - (at.done + {stage})| < |g.Keys - at.done|
            && DegreeInvariant(g, Point(at.done + {stage}, stage, g[stage]), queue[1..], inDegree)
            && DepthInvariant(g, Point(at.done + {stage}, stage, g[stage]), depth)
  {
    var stage := queue[0];
    assert stage in queue;
    var next := Point(at.done + {stage}, stage, g[stage]);
    PopFront(queue);
    assert forall v :: v in queue <==> v == stage || v in queue[1..];
    assert stage !in queue[1..];
    SmallerSet(g.Keys - next.done, g.Keys - at.done);
    SameFollowed(g, at, next, inDegree, depth);
  }

  lemma SameFollowed(g: Graph, at: Point, next: Point, inDegree: map<StageId, nat>, depth: map<StageId, nat>)
    requires forall u, v :: Followed(g, at, u, v) <==> Followed(g, next, u, v)
    requires DepthInvariant(g, at, depth)
    ensures DepthInvariant(g, next, depth) && forall v :: Waiting(g, at, v) == Waiting(g, next, v)
  {
    forall v | v in g && 0 < DepthOf(depth, v) ensures HasTightEdge(g, next, depth, v) {
      assert HasTightEdge(g, at, depth, v);
    }
  }

  method Kahn(g: Graph, inDegree0: map<StageId, nat>)
    returns (inDegree: map<StageId, nat>, depth: map<StageId, nat>, processedCount: nat, ghost end: Point)
    requires WellFormed(g) && Counts(g, inDegree0)
    ensures processedCount == |end.done| && end.neighbors == {}
    ensures DegreeInvariant(g, end, [], inDegree) && DepthInvariant(g, end, depth)
  {
    inDegree, depth, processedCount := inDegree0, map[], 0;
    var queue := InitialQueue(inDegree);
    ghost var at := Point({}, StageId(""), {});
    StartKahn(g, at, queue, inDegree);
    while queue != []
      invariant processedCount == |at.done| && at.neighbors == {}
      invariant DegreeInvariant(g, at, queue, inDegree) && DepthInvariant(g, at, depth)
      decreases |g.Keys - at.done|
    {
      StartStage(g, at, queue, inDegree, depth);
      var stage := queue[0];
      queue := queue[1..];
      processedCount := processedCount + 1;
      at := Point(at.done + {stage}, stage, g[stage]);
      queue, inDegree, depth := RelaxNeighbors(g, stage, at, queue, inDegree, depth);
      at := at.(neighbors := {});
    }
    end := at;
  }

  /** The inner loop of Kahn's algorithm: follow every edge out of one stage. */
  method RelaxNeighbors(g: Graph, stage: StageId, ghost start: Point, queue0: seq<StageId>,
                        inDegree0: map<StageId, nat>, depth0: map<StageId, nat>)
    returns (queue: seq<StageId>, inDegree: map<StageId, nat>, depth: map<StageId, nat>)
    requires WellFormed(g) && stage in g && stage in start.done && start.stage == stage && start.neighbors == g[stage]
    requires DegreeInvariant(g, start, queue0, inDegree0) && DepthInvariant(g, start, depth0)
    ensures DegreeInvariant(g, start.(neighbors := {}), queue, inDegree)
    ensures DepthInvariant(g, start.(neighbors := {}), depth)
  {
    queue, inDegree, depth := queue0, inDegree0, depth0;
    var neighbors := g[stage];
    while neighbors != {}
      invariant neighbors <= g[stage]
      invariant DegreeInvariant(g, start.(neighbors := neighbors), queue, inDegree)
      invariant DepthInvariant(g, start.(neighbors := neighbors), depth)
    {
      var neighbor :| neighbor in neighbors;
      assert Edge(g, stage, neighbor);
      FollowDegree(g, start.(neighbors := neighbors), queue, inDegree, neighbor);
      FollowDepth(g, start.(neighbors := neighbors), depth, neighbor);
      depth := Raised(depth, stage, neighbor);
      inDegree := inDegree[neighbor := inDegree[neighbor] - 1];
      if inDegree[neighbor] == 0 {
        queue := queue + [neighbor];
      }
      neighbors := neighbors - {neighbor};
    }
  }

  // -- The cycle report -------------------------------------------------------

  /** The state in which the loop ends. */
  ghost predicate Finished(g: Graph, end: Point, inDegree: map<StageId, nat>, depth: map<StageId, nat>) {
    && WellFormed(g) && end.neighbors == {}
    && DegreeInvariant(g, end, [], inDegree) && DepthInvariant(g, end, depth)
  }

  ghost function Layers(g: Graph, depth: map<StageId, nat>): map<StageId, nat> {
    map v <- g :: DepthOf(depth, v)
  }

  lemma DoneIsClosed(g: Graph, end: Point, inDegree: map<StageId, nat>, depth: map<StageId, nat>)
    requires Finished(g, end, inDegree, depth)
    ensures end.done <= g.Keys
    ensures forall u, v :: Edge(g, u, v) && v in end.done ==> u in end.done && Layers(g, depth)[u] < Layers(g, depth)[v]
  {
    forall u, v | Edge(g, u, v) && v in end.done
      ensures u in end.done && Layers(g, depth)[u] < Layers(g, depth)[v]
    {
      assert inDegree[v] == 0;
      assert u !in Waiting(g, end, v);
      assert Followed(g, end, u, v);
    }
  }

  lemma StuckHasStuckPredecessor(g: Graph, end: Point, inDegree: map<StageId, nat>, depth: map<StageId, nat>,
                                 v: StageId)
    requires Finished(g, end, inDegree, depth) && v in g && v !in end.done
    ensures HasPredecessorIn(g, g.Keys - end.done, v)
  {
    assert 0 < |Waiting(g, end, v)|;
    var u :| u in Waiting(g, end, v);
    assert u in g.Keys - end.done && Edge(g, u, v);
  }

  /** A stage with an unfollowed edge is behind a cycle, and only such a stage is. */
  lemma StuckIffBehindCycle(g: Graph, end: Point, inDegree: map<StageId, nat>, depth: map<StageId, nat>, v: StageId)
    requires Finished(g, end, inDegree, depth) && v in g
    ensures (0 < inDegree[v]) == (v !in end.done) == BehindCycle(g, v)
  {
    if v in end.done {
      DoneIsClosed(g, end, inDegree, depth);
      NotBehindCycle(g, end.done, Layers(g, depth), v);
    } else {
      forall x | x in g.Keys - end.done ensures HasPredecessorIn(g, g.Keys - end.done, x) {
        StuckHasStuckPredecessor(g, end, inDegree, depth, x);
      }
      WalkBack(g, g.Keys - end.done, [v], v);
    }
  }

  lemma CycleIffStuck(g: Graph, end: Point, inDegree: map<StageId, nat>, depth: map<StageId, nat>)
    requires Finished(g, end, inDegree, depth)
    ensures HasCycle(g) <==> |end.done| != |g.Keys|
  {
    if c :| IsCycle(g, c) {
      assert IsChainTo(g, [c[0]], c[0]);
      StuckIffBehindCycle(g, end, inDegree, depth, c[0]);
      DoneIsClosed(g, end, inDegree, depth);
      SmallerSet(end.done, g.Keys);
    }
    if |end.done| != |g.Keys| {
      DoneIsClosed(g, end, inDegree, depth);
      assert end.done != g.Keys;
      var v :| v in g && v !in end.done;
      StuckIffBehindCycle(g, end, inDegree, depth, v);
      assert BehindCycle(g, v);
    }
  }

  lemma DoneIsLayering(g: Graph, end: Point, inDegree: map<StageId, nat>, depth: map<StageId, nat>)
    requires Finished(g, end, inDegree, depth) && |end.done| == |g.Keys|
    ensures IsLayering(g, Layers(g, depth)) && IsTight(g, Layers(g, depth))
  {
    var layer := Layers(g, depth);
    DoneIsClosed(g, end, inDegree, depth);
    if end.done != g.Keys { SmallerSet(end.done, g.Keys); }
    forall v | v in layer && 0 < layer[v] ensures HasTightPredecessor(g, layer, v) {
      assert HasTightEdge(g, end, depth, v);
      var u :| Followed(g, end, u, v) && DepthOf(depth, u) + 1 == DepthOf(depth, v);
      assert u in layer && Edge(g, u, v) && layer[u] + 1 == layer[v];
    }
  }

  // -- Step 3: grouping ---------------------------------------------------------

  method MaxDepth(depth: map<StageId, nat>) returns (m: nat)
    ensures forall v :: v in depth ==> depth[v] <= m
    ensures m == 0 || exists v :: v in depth && depth[v] == m
  {
    m := 0;
    var scan := depth.Keys;
    while scan != {}
      invariant scan <= depth.Keys
      invariant forall v :: v in depth && v !in scan ==> depth[v] <= m
      invariant m == 0 || exists v :: v in depth && depth[v] == m
    {
      var v :| v in scan;
      scan := scan - {v};
      if m < depth[v] { m := depth[v]; }
    }
  }

  /** The stages of `s` at depth `d`, in the order of `s`. */
  function AtDepth(s: seq<StageId>, depth: map<StageId, nat>, d: nat): (r: seq<StageId>)
    ensures forall v :: v in r <==> v in s && DepthOf(depth, v) == d
    ensures Distinct(s) ==> Distinct(r)
  {
    if s == [] then []
    else
      var last := s[|s| - 1];
      AtDepth(s[..|s| - 1], depth, d) + if DepthOf(depth, last) == d then [last] else []
  }

  method GroupByDepth(stages: seq<StageId>, depth: map<StageId, nat>) returns (batches: seq<seq<StageId>>)
    requires depth.Keys <= Elements(stages)
    ensures 0 < |batches|
    ensures forall i :: 0 <= i < |batches| ==> batches[i] == AtDepth(stages, depth, i)
    ensures forall v :: v in stages ==> DepthOf(depth, v) < |batches|
    ensures |batches| == 1 || exists v :: v in stages && DepthOf(depth, v) == |batches| - 1
  {
    var maxDepth := MaxDepth(depth);
    batches := seq(maxDepth + 1, _ => []);
    for k := 0 to |stages|
      invariant |batches| == maxDepth + 1
      invariant forall i :: 0 <= i < |batches| ==> batches[i] == AtDepth(stages[..k], depth, i)
    {
      var d := DepthOf(depth, stages[k]);
      assert stages[..k + 1][..k] == stages[..k];
      batches := batches[d := batches[d] + [stages[k]]];
    }
    assert stages[..|stages|] == stages;
    if 0 < maxDepth {
      var v :| v in depth && depth[v] == maxDepth;
      assert v in Elements(stages);
    }
  }

  function SortStages(batch: seq<StageId>): seq<StageId> {
    Sort(batch, (s: StageId) => s.name)
  }

  lemma SortStagesStrict(batch: seq<StageId>)
    requires Distinct(batch)
    ensures StrictlySorted(Names(SortStages(batch)))
    ensures forall v :: v in SortStages(batch) <==> v in batch
  {
    var key := (s: StageId) => s.name;
    var t := SortStages(batch);
    SortSorts(batch, key);
    DistinctMultiset(batch, t);
    forall i, j | 0 <= i < j < |t| ensures Less(t[i].name, t[j].name) {
      Trichotomy(t[i].name, t[j].name);
      assert key(t[i]) == t[i].name && key(t[j]) == t[j].name;
    }
    assert forall v :: v in t <==> v in multiset(t);
    assert forall v :: v in batch <==> v in multiset(batch);
  }

  /** The `retain` of the last step; on these batches it removes nothing. */
  function RetainNonEmpty(batches: seq<seq<StageId>>): (r: seq<seq<StageId>>)
    ensures (forall i :: 0 <= i < |batches| ==> batches[i] != []) ==> r == batches
  {
    if batches == [] then []
    else
      var rest := RetainNonEmpty(batches[1..]);
      assert batches == [batches[0]] + batches[1..];
      if batches[0] == [] then rest else [batches[0]] + rest
  }

  /** Below an occupied layer of a tight layering every layer is occupied. */
  lemma {:induction false} NoGaps(g: Graph, layer: map<StageId, nat>, v: StageId, i: nat) returns (u: StageId)
    requires IsTight(g, layer) && v in layer && i <= layer[v]
    ensures u in layer && layer[u] == i
    decreases layer[v]
  {
    if i == layer[v] {
      u := v;
    } else {
      assert HasTightPredecessor(g, layer, v);
      var w :| w in layer && Edge(g, w, v) && layer[w] + 1 == layer[v];
      u := NoGaps(g, layer, w, i);
    }
  }

  method SortBatches(batches0: seq<seq<StageId>>) returns (batches: seq<seq<StageId>>)
    ensures |batches| == |batches0|
    ensures forall i :: 0 <= i < |batches| ==> batches[i] == SortStages(batches0[i])
  {
    batches := batches0;
    for i := 0 to |batches0|
      invariant |batches| == |batches0|
      invariant forall j :: 0 <= j < |batches| ==> batches[j] == if j < i then SortStages(batches0[j]) else batches0[j]
    {
      batches := batches[i := SortStages(batches[i])];
    }
  }

  /** The batches before `retain`: one sorted group per depth, up to the greatest depth. */
  ghost predicate Grouped(stages: seq<StageId>, depth: map<StageId, nat>, batches: seq<seq<StageId>>) {
    && 0 < |batches|
    && (forall i :: 0 <= i < |batches| ==> batches[i] == SortStages(AtDepth(stages, depth, i)))
    && (forall v :: v in stages ==> DepthOf(depth, v) < |batches|)
    && (|batches| == 1 || exists v :: v in stages && DepthOf(depth, v) == |batches| - 1)
  }

  lemma GroupsWellShaped(g: Graph, stages: seq<StageId>, depth: map<StageId, nat>, batches: seq<seq<StageId>>)
    requires g.Keys == Elements(stages) && Distinct(stages) && stages != []
    requires IsTight(g, Layers(g, depth)) && Grouped(stages, depth, batches)
    ensures WellShaped(batches)
  {
    forall i | 0 <= i < |batches| ensures batches[i] != [] && StrictlySorted(Names(batches[i])) {
      SortedGroup(stages, depth, i);
      GroupNotEmpty(g, stages, depth, batches, i);
    }
  }

  lemma GroupsLongest(g: Graph, stages: seq<StageId>, depth: map<StageId, nat>, batches: seq<seq<StageId>>)
    requires WellFormed(g) && g.Keys == Elements(stages) && Distinct(stages)
    requires IsLayering(g, Layers(g, depth)) && IsTight(g, Layers(g, depth)) && Grouped(stages, depth, batches)
    ensures EachLongest(g, batches)
  {
    forall i, v | 0 <= i < |batches| && v in batches[i] ensures v in g && LongestChainTo(g, v, i) {
      MemberIsLongest(g, stages, depth, batches, i, v);
    }
  }

  lemma MemberIsLongest(g: Graph, stages: seq<StageId>, depth: map<StageId, nat>, batches: seq<seq<StageId>>, i: nat,
                        v: StageId)
    requires WellFormed(g) && g.Keys == Elements(stages) && Distinct(stages)
    requires IsLayering(g, Layers(g, depth)) && IsTight(g, Layers(g, depth)) && Grouped(stages, depth, batches)
    requires i < |batches| && v in batches[i]
    ensures v in g && LongestChainTo(g, v, i)
  {
    SortedGroup(stages, depth, i);
    assert v in Elements(stages);
    TightIsLongest(g, Layers(g, depth), v);
  }

  lemma GroupsPlaced(g: Graph, stages: seq<StageId>, depth: map<StageId, nat>, batches: seq<seq<StageId>>)
    requires g.Keys == Elements(stages) && Distinct(stages) && Grouped(stages, depth, batches)
    ensures EachPlaced(g, batches)
  {
    forall v {:trigger InSomeBatch(batches, v)} | v in g ensures InSomeBatch(batches, v) {
      SortedGroup(stages, depth, DepthOf(depth, v));
      assert v in Elements(stages);
      assert v in batches[DepthOf(depth, v)];
    }
  }

  lemma SortedGroup(stages: seq<StageId>, depth: map<StageId, nat>, i: nat)
    requires Distinct(stages)
    ensures StrictlySorted(Names(SortStages(AtDepth(stages, depth, i))))
    ensures forall v :: v in SortStages(AtDepth(stages, depth, i)) <==> v in stages && DepthOf(depth, v) == i
  {
    SortStagesStrict(AtDepth(stages, depth, i));
  }

  lemma GroupNotEmpty(g: Graph, stages: seq<StageId>, depth: map<StageId, nat>, batches: seq<seq<StageId>>, i: nat)
    requires g.Keys == Elements(stages) && Distinct(stages) && stages != [] && IsTight(g, Layers(g, depth))
    requires Grouped(stages, depth, batches) && i < |batches|
    ensures SortStages(AtDepth(stages, depth, i)) != []
  {
    var top := stages[0];
    if |batches| != 1 {
      top :| top in stages && DepthOf(depth, top) == |batches| - 1;
    }
    assert top in stages && top in Elements(stages);
    var u := NoGaps(g, Layers(g, depth), top, i);
    assert u in Elements(stages);
    SortedGroup(stages, depth, i);
  }

  method FilterStuck(stages: seq<StageId>, inDegree: map<StageId, nat>, ghost stuckSet: set<StageId>)
    returns (stuck: seq<StageId>)
    requires forall v :: v in stages ==> (v in stuckSet <==> v in inDegree && 0 < inDegree[v])
    ensures stuck == Filter(stages, stuckSet)
  {
    stuck := [];
    for k := 0 to |stages|
      invariant stuck + Filter(stages[k..], stuckSet) == Filter(stages, stuckSet)
    {
      assert stages[k] in stages;
      FilterUnfold(stuck, stages, k, stuckSet);
      if stages[k] in inDegree && 0 < inDegree[stages[k]] {
        stuck := stuck + [stages[k]];
      }
    }
  }

  lemma FilterUnfold(before: seq<StageId>, s: seq<StageId>, k: nat, keep: set<StageId>)
    requires k < |s|
    ensures before + Filter(s[k..], keep) ==
            (if s[k] in keep then before + [s[k]] else before) + Filter(s[k + 1..], keep)
  {
    assert s[k..][1..] == s[k + 1..];
  }

  lemma {:induction false} FilterMembers(s: seq<StageId>, keep: set<StageId>)
    ensures forall v :: v in Filter(s, keep) <==> v in s && v in keep
  {
    if s != [] {
      FilterMembers(s[1..], keep);
      assert s == [s[0]] + s[1..];
    }
  }

  /** The stages on or downstream of a cycle. */
  ghost function CyclicStages(g: Graph): set<StageId> {
    set v | v in g && BehindCycle(g, v)
  }

  lemma GraphOfStages(stages: seq<StageId>, creators: Creators, readers: Readers)
    requires Distinct(stages)
    ensures var g := DependencyGraph(stages, creators, readers);
            WellFormed(g) && g.Keys == Elements(stages) && |g.Keys| == |stages|
  {
    DistinctSize(stages);
  }

  /** The stage filter and error of the failing path. */
  method ReportCycle(stages: seq<StageId>, g: Graph, ghost end: Point, inDegree: map<StageId, nat>,
                     ghost depth: map<StageId, nat>)
    returns (error: ResolveError)
    requires Finished(g, end, inDegree, depth) && g.Keys == Elements(stages)
    ensures error == CycleDetected(Filter(stages, CyclicStages(g)))
  {
    forall v | v in stages ensures v in CyclicStages(g) <==> v in inDegree && 0 < inDegree[v] {
      assert v in Elements(stages);
      StuckIffBehindCycle(g, end, inDegree, depth, v);
    }
    var stuck := FilterStuck(stages, inDegree, CyclicStages(g));
    error := CycleDetected(stuck);
  }

  /** The grouping and sorting of the succeeding path. */
  method MakeBatches(stages: seq<StageId>, ghost g: Graph, depth: map<StageId, nat>)
    returns (batches: seq<seq<StageId>>)
    requires WellFormed(g) && g.Keys == Elements(stages) && Distinct(stages) && stages != [] && depth.Keys <= g.Keys
    requires IsLayering(g, Layers(g, depth)) && IsTight(g, Layers(g, depth))
    ensures IsSchedule(g, batches)
  {
    batches := GroupByDepth(stages, depth);
    batches := SortBatches(batches);
    GroupsWellShaped(g, stages, depth, batches);
    GroupsLongest(g, stages, depth, batches);
    GroupsPlaced(g, stages, depth, batches);
    batches := RetainNonEmpty(batches);
  }

  method ComputeSchedule(stages: seq<StageId>, creators: Creators, readers: Readers, writers: Readers)
    returns (r: Result<seq<seq<StageId>>, ResolveError>)
    requires Distinct(stages) && Closed(Elements(stages), creators, readers)
    ensures r.Err? <==> HasCycle(DependencyGraph(stages, creators, readers))
    ensures r.Err? ==>
            r.error == CycleDetected(Filter(stages, CyclicStages(DependencyGraph(stages, creators, readers))))
    ensures r.Ok? ==> IsSchedule(DependencyGraph(stages, creators, readers), r.value)
  {
    GraphOfStages(stages, creators, readers);
    if stages == [] {
      assert DependencyGraph(stages, creators, readers) == map[];
      return Ok([]);
    }
    var adjacency, inDegree0 := BuildEdges(stages, creators, readers);
    var inDegree, depth, processedCount, end := Kahn(adjacency, inDegree0);
    CycleIffStuck(adjacency, end, inDegree, depth);
    if processedCount != |stages| {
      var error := ReportCycle(stages, adjacency, end, inDegree, depth);
      return Err(error);
    }
    DoneIsLayering(adjacency, end, inDegree, depth);
    var batches := MakeBatches(stages, adjacency, depth);
    return Ok(batches);
  }
}
