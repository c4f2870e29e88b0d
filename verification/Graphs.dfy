/** Finite directed graphs: chains, cycles and the longest-chain layering. */
module Graphs {
  import opened Seqs
  import opened Ids

  type Node = StageId

  /** Every node with its successors. */
  type Graph = map<Node, set<Node>>

  predicate Edge(g: Graph, u: Node, v: Node) {
    u in g && v in g[u]
  }

  ghost predicate WellFormed(g: Graph) {
    forall u, v :: Edge(g, u, v) ==> v in g
  }

  /** A chain follows edges from its first node to its last; its length is its number of edges. */
  ghost predicate IsChain(g: Graph, p: seq<Node>) {
    && 0 < |p|
    && (forall i :: 0 <= i < |p| ==> p[i] in g)
    && (forall i :: 0 <= i < |p| - 1 ==> Edge(g, p[i], p[i + 1]))
  }

  ghost predicate IsChainTo(g: Graph, p: seq<Node>, v: Node) {
    IsChain(g, p) && p[|p| - 1] == v
  }

  ghost predicate IsCycle(g: Graph, c: seq<Node>) {
    IsChain(g, c) && 1 < |c| && c[0] == c[|c| - 1]
  }

  ghost predicate HasCycle(g: Graph) {
    exists c :: IsCycle(g, c)
  }

  /** `v` lies on a cycle or downstream of one. */
  ghost predicate BehindCycle(g: Graph, v: Node) {
    exists c, p :: IsCycle(g, c) && IsChainTo(g, p, v) && p[0] == c[0]
  }

  /** `n` is the length of the longest chain that ends at `v`. */
  ghost predicate LongestChainTo(g: Graph, v: Node, n: nat) {
    && (exists p :: IsChainTo(g, p, v) && |p| == n + 1)
    && (forall p :: IsChainTo(g, p, v) ==> |p| <= n + 1)
  }

  /** A layering puts the source of every edge strictly before its target. */
  ghost predicate IsLayering(g: Graph, layer: map<Node, nat>) {
    && layer.Keys == g.Keys
    && forall u, v :: Edge(g, u, v) && u in layer && v in layer ==> layer[u] < layer[v]
  }

  /** Every node above the bottom layer has a predecessor in the layer just below it. */
  ghost predicate IsTight(g: Graph, layer: map<Node, nat>) {
    forall v {:trigger HasTightPredecessor(g, layer, v)} ::
      v in layer && 0 < layer[v] ==> HasTightPredecessor(g, layer, v)
  }

  ghost predicate HasTightPredecessor(g: Graph, layer: map<Node, nat>, v: Node)
    requires v in layer
  {
    exists u :: u in layer && Edge(g, u, v) && layer[u] + 1 == layer[v]
  }

  lemma PrefixChain(g: Graph, p: seq<Node>, k: nat)
    requires IsChain(g, p) && 0 < k <= |p|
    ensures IsChain(g, p[..k])
  {
    forall i | 0 <= i < k - 1 ensures Edge(g, p[..k][i], p[..k][i + 1]) {
      assert Edge(g, p[i], p[i + 1]);
    }
  }

  lemma {:induction false} ChainClimbs(g: Graph, layer: map<Node, nat>, p: seq<Node>)
    requires IsLayering(g, layer) && IsChain(g, p)
    ensures layer[p[0]] + |p| - 1 <= layer[p[|p| - 1]]
  {
    if 1 < |p| {
      var q := p[..|p| - 1];
      PrefixChain(g, p, |p| - 1);
      ChainClimbs(g, layer, q);
      assert Edge(g, p[|p| - 2], p[|p| - 1]);
    }
  }

  lemma LayeringHasNoCycle(g: Graph, layer: map<Node, nat>)
    requires IsLayering(g, layer)
    ensures !HasCycle(g)
  {
    if c :| IsCycle(g, c) {
      ChainClimbs(g, layer, c);
      assert false;
    }
  }

  lemma ExtendChain(g: Graph, p: seq<Node>, v: Node)
    requires WellFormed(g) && IsChain(g, p) && Edge(g, p[|p| - 1], v)
    ensures IsChainTo(g, p + [v], v)
  {
    var q := p + [v];
    forall i | 0 <= i < |q| - 1 ensures Edge(g, q[i], q[i + 1]) {
      if i < |p| - 1 { assert Edge(g, p[i], p[i + 1]); }
    }
  }

  lemma PrependChain(g: Graph, u: Node, p: seq<Node>)
    requires WellFormed(g) && IsChain(g, p) && Edge(g, u, p[0])
    ensures IsChainTo(g, [u] + p, p[|p| - 1])
  {
    var q := [u] + p;
    forall i | 0 <= i < |q| - 1 ensures Edge(g, q[i], q[i + 1]) {
      if 0 < i { assert Edge(g, p[i - 1], p[i]); }
    }
  }

  lemma {:induction false} TightWitness(g: Graph, layer: map<Node, nat>, v: Node) returns (p: seq<Node>)
    requires WellFormed(g) && IsLayering(g, layer) && IsTight(g, layer) && v in g
    ensures IsChainTo(g, p, v) && |p| == layer[v] + 1
    decreases layer[v]
  {
    if layer[v] == 0 {
      p := [v];
    } else {
      assert HasTightPredecessor(g, layer, v);
      var u :| u in layer && Edge(g, u, v) && layer[u] + 1 == layer[v];
      p := TightWitness(g, layer, u);
      ExtendChain(g, p, v);
      p := p + [v];
    }
  }

  /** A tight layering is the longest-chain layering. */
  lemma TightIsLongest(g: Graph, layer: map<Node, nat>, v: Node)
    requires WellFormed(g) && IsLayering(g, layer) && IsTight(g, layer) && v in g
    ensures LongestChainTo(g, v, layer[v])
  {
    var w := TightWitness(g, layer, v);
    forall p | IsChainTo(g, p, v) ensures |p| <= layer[v] + 1 {
      ChainClimbs(g, layer, p);
    }
  }

  ghost predicate HasPredecessorIn(g: Graph, s: set<Node>, x: Node) {
    exists u :: u in s && Edge(g, u, x)
  }

  lemma CloseCycle(g: Graph, p: seq<Node>, u: Node, i: nat, v: Node)
    requires IsChainTo(g, p, v) && IsChain(g, [u] + p) && i < |p| && p[i] == u
    ensures BehindCycle(g, v)
  {
    var q := [u] + p;
    var c, d := q[..i + 2], p[i..];
    PrefixChain(g, q, i + 2);
    forall j | 0 <= j < |d| - 1 ensures Edge(g, d[j], d[j + 1]) {
      assert Edge(g, p[i + j], p[i + j + 1]);
    }
    assert IsCycle(g, c) && IsChainTo(g, d, v) && d[0] == c[0];
  }

  /** In a set where every node has a predecessor inside the set, walking back from any node meets a cycle. */
  lemma {:induction false} WalkBack(g: Graph, stuck: set<Node>, p: seq<Node>, v: Node)
    requires WellFormed(g) && stuck <= g.Keys
    requires forall x {:trigger HasPredecessorIn(g, stuck, x)} :: x in stuck ==> HasPredecessorIn(g, stuck, x)
    requires IsChainTo(g, p, v) && forall x :: x in p ==> x in stuck
    ensures BehindCycle(g, v)
    decreases |stuck - Elements(p)|
  {
    assert p[0] in stuck && HasPredecessorIn(g, stuck, p[0]);
    var u :| u in stuck && Edge(g, u, p[0]);
    PrependChain(g, u, p);
    var q := [u] + p;
    if u in p {
      var i :| 0 <= i < |p| && p[i] == u;
      CloseCycle(g, p, u, i, v);
    } else {
      assert u !in p;
      assert u in stuck - Elements(p) && u in q;
      SmallerSet(stuck - Elements(q), stuck - Elements(p));
      WalkBack(g, stuck, q, v);
    }
  }

  /** A set closed under predecessors on which edges climb contains nothing behind a cycle. */
  lemma {:induction false} ChainStaysIn(g: Graph, done: set<Node>, p: seq<Node>, i: nat)
    requires IsChain(g, p) && p[|p| - 1] in done && i < |p|
    requires forall u, v :: Edge(g, u, v) && v in done ==> u in done
    ensures p[i] in done
    decreases |p| - i
  {
    if i < |p| - 1 {
      ChainStaysIn(g, done, p, i + 1);
      assert Edge(g, p[i], p[i + 1]);
    }
  }

  lemma NotBehindCycle(g: Graph, done: set<Node>, layer: map<Node, nat>, v: Node)
    requires WellFormed(g) && v in done && done <= g.Keys && layer.Keys == g.Keys
    requires forall u, v :: Edge(g, u, v) && v in done ==> u in done && layer[u] < layer[v]
    ensures !BehindCycle(g, v)
  {
    if c, p :| IsCycle(g, c) && IsChainTo(g, p, v) && p[0] == c[0] {
      ChainStaysIn(g, done, p, 0);
      assert c[|c| - 1] in done;
      forall i | 0 <= i < |c| ensures c[i] in done {
        ChainStaysIn(g, done, c, i);
      }
      var inner := map x | x in done :: g[x] * done;
      var restricted := map x | x in done :: layer[x];
      assert forall i :: 0 <= i < |c| - 1 ==> Edge(inner, c[i], c[i + 1]);
      assert IsCycle(inner, c);
      LayeringHasNoCycle(inner, restricted);
      assert false;
    }
  }

  /** No layering whatsoever puts a node below the length of its longest chain. */
  lemma LongestIsEarliest(g: Graph, layer: map<Node, nat>, v: Node, n: nat)
    requires IsLayering(g, layer) && LongestChainTo(g, v, n)
    ensures v in layer && n <= layer[v]
  {
    var p :| IsChainTo(g, p, v) && |p| == n + 1;
    ChainClimbs(g, layer, p);
  }
}
