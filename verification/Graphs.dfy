// The identity graph: labelled nodes with ordered out-edges, reachability, and
// strongly connected components as mathematics (no algorithm).
module Graphs {
  import opened Bytes

  // A digest is 32 bytes; External edges carry one from another graph.
  type Digest = d: seq<byte> | |d| == 32 witness seq(32, _ => 0)

  datatype Edge = Node(target: nat) | External(digest: Digest)

  datatype Graph = Graph(labels: seq<seq<byte>>, edges: seq<seq<Edge>>) {
    ghost predicate Shaped() {
      |labels| == |edges|
    }

    // No edge names a missing node.
    ghost predicate Closed() {
      && Shaped()
      && forall v, e :: 0 <= v < |edges| && 0 <= e < |edges[v]| && edges[v][e].Node? ==>
           edges[v][e].target < |edges|
    }
  }

  ghost predicate HasEdge(g: Graph, a: nat, b: nat) {
    && a < |g.edges| && b < |g.edges|
    && exists e :: 0 <= e < |g.edges[a]| && g.edges[a][e] == Edge.Node(b)
  }

  ghost predicate IsPath(g: Graph, p: seq<nat>) {
    && |p| > 0
    && (forall i :: 0 <= i < |p| ==> p[i] < |g.edges|)
    && (forall i :: 0 <= i < |p| - 1 ==> HasEdge(g, p[i], p[i + 1]))
  }

  ghost predicate Reach(g: Graph, a: nat, b: nat) {
    exists p :: IsPath(g, p) && p[0] == a && p[|p| - 1] == b
  }

  ghost predicate Mutual(g: Graph, a: nat, b: nat) {
    Reach(g, a, b) && Reach(g, b, a)
  }

  // The strongly connected component of v.
  ghost function Scc(g: Graph, v: nat): set<nat> {
    set w | 0 <= w < |g.edges| && Mutual(g, v, w)
  }

  ghost function ReachSet(g: Graph, v: nat): set<nat> {
    set w | 0 <= w < |g.edges| && Reach(g, v, w)
  }

  lemma ReachRefl(g: Graph, a: nat)
    requires a < |g.edges|
    ensures Reach(g, a, a)
  {
    assert IsPath(g, [a]);
  }

  lemma ReachEdge(g: Graph, a: nat, b: nat)
    requires HasEdge(g, a, b)
    ensures Reach(g, a, b)
  {
    var p := [a, b];
    assert IsPath(g, p) && p[0] == a && p[|p| - 1] == b;
  }

  lemma ReachTrans(g: Graph, a: nat, b: nat, c: nat)
    requires Reach(g, a, b) && Reach(g, b, c)
    ensures Reach(g, a, c)
  {
    var p :| IsPath(g, p) && p[0] == a && p[|p| - 1] == b;
    var q :| IsPath(g, q) && q[0] == b && q[|q| - 1] == c;
    var r := p + q[1..];
    forall i | 0 <= i < |r| - 1
      ensures HasEdge(g, r[i], r[i + 1])
    {
      if i >= |p| - 1 {
        assert r[i] == q[i - (|p| - 1)] && r[i + 1] == q[i + 1 - (|p| - 1)];
      }
    }
    assert IsPath(g, r) && r[0] == a && r[|r| - 1] == c;
  }

  lemma ReachInGraph(g: Graph, a: nat, b: nat)
    requires Reach(g, a, b)
    ensures a < |g.edges| && b < |g.edges|
  {
  }

  ghost predicate SuccessorClosed(g: Graph, s: set<nat>) {
    forall u, w :: u in s && HasEdge(g, u, w) ==> w in s
  }

  // Nothing outside a successor-closed set is reachable from inside it.
  lemma {:induction false} StaysInside(g: Graph, s: set<nat>, a: nat, b: nat)
    requires SuccessorClosed(g, s) && a in s && Reach(g, a, b)
    ensures b in s
  {
    var p :| IsPath(g, p) && p[0] == a && p[|p| - 1] == b;
    var i := 0;
    while i < |p| - 1
      invariant 0 <= i < |p| && p[i] in s
    {
      assert HasEdge(g, p[i], p[i + 1]);
      i := i + 1;
    }
  }

  // Components partition the nodes: members share the same component.
  lemma SccOfMember(g: Graph, v: nat, w: nat)
    requires w in Scc(g, v)
    ensures Scc(g, w) == Scc(g, v)
    ensures v in Scc(g, v)
  {
    ReachInGraph(g, v, w);
    ReachRefl(g, v);
    forall x | 0 <= x < |g.edges|
      ensures Mutual(g, w, x) <==> Mutual(g, v, x)
    {
      if Mutual(g, w, x) {
        ReachTrans(g, v, w, x);
        ReachTrans(g, x, w, v);
      }
      if Mutual(g, v, x) {
        ReachTrans(g, w, v, x);
        ReachTrans(g, x, v, w);
      }
    }
  }

  // Leaving a component shrinks what is reachable, so components can be
  // processed successors first.
  lemma LeavingShrinks(g: Graph, v: nat, w: nat)
    requires HasEdge(g, v, w) && w !in Scc(g, v)
    ensures ReachSet(g, w) < ReachSet(g, v)
  {
    ReachEdge(g, v, w);
    forall x | x in ReachSet(g, w)
      ensures x in ReachSet(g, v)
    {
      ReachTrans(g, v, w, x);
    }
    ReachRefl(g, v);
    assert v in ReachSet(g, v);
    assert v !in ReachSet(g, w);
  }
}
