// What the digests of src/identity.rs mean: they decide isomorphism of rooted
// components, and they do not depend on how nodes are numbered.
module Digests {
  import opened Graphs
  import opened Canon
  import opened Isomorphism
  import opened Identity

  ghost function At(g: Graph, v: nat, ds: seq<Digest>): Rooted {
    Rooted(g, v, Known(ds))
  }

  ghost predicate Collides(h: Hasher, ra: Rung, a: Rooted, rb: Rung, b: Rooted) {
    && h(ra.Key(), Material(ra, a.Records())) == h(rb.Key(), Material(rb, b.Records()))
    && (ra.Key(), Material(ra, a.Records())) != (rb.Key(), Material(rb, b.Records()))
  }

  // Two hashed nodes, of one graph or of two, have equal digests exactly when they were
  // hashed at the same rung and their rooted components are isomorphic. The one assumption
  // about the hash is that it does not collide on this pair of inputs.
  lemma EqualDigestsIffIsomorphic(h: Hasher, ra: Rung, ga: Graph, da: seq<Digest>, v: nat,
                                  rb: Rung, gb: Graph, db: seq<Digest>, w: nat)
    requires Hashed(h, ra, ga, da) && Hashed(h, rb, gb, db) && v < |da| && w < |db|
    requires At(ga, v, da).Sized() && At(gb, w, db).Sized() && RungFits(ra) && RungFits(rb)
    requires !Collides(h, ra, At(ga, v, da), rb, At(gb, w, db))
    ensures da[v] == db[w] <==> ra == rb && exists f :: Isomorphic(At(ga, v, da), At(gb, w, db), f)
  {
    hide Isomorphic, Canonical, Material;
    AllGrounded(h, ra, ga, da, v);
    AllGrounded(h, rb, gb, db, w);
    DigestsDecideIsomorphism(h, ra, At(ga, v, da), rb, At(gb, w, db));
  }

  lemma AllGrounded(h: Hasher, rung: Rung, g: Graph, ds: seq<Digest>, v: nat)
    requires Hashed(h, rung, g, ds)
    ensures At(g, v, ds).Grounded()
  {
    hide Scc, NodeDigest;
  }

  // Nodes with equal digests have the same label and as many edges, and edge by edge, where
  // one leaves its component so does the other, and both stand for the same digest.
  lemma EqualDigestsAgree(h: Hasher, ra: Rung, ga: Graph, da: seq<Digest>, v: nat,
                          rb: Rung, gb: Graph, db: seq<Digest>, w: nat)
    requires Hashed(h, ra, ga, da) && Hashed(h, rb, gb, db) && v < |da| && w < |db|
    requires At(ga, v, da).Sized() && At(gb, w, db).Sized() && RungFits(ra) && RungFits(rb)
    requires !Collides(h, ra, At(ga, v, da), rb, At(gb, w, db)) && da[v] == db[w]
    ensures ra == rb && ga.labels[v] == gb.labels[w] && |ga.edges[v]| == |gb.edges[w]|
    ensures forall k :: 0 <= k < |ga.edges[v]| && !Internal(Scc(ga, v), ga.edges[v][k]) ==>
              && !Internal(Scc(gb, w), gb.edges[w][k])
              && CarryAlike(ga.edges[v][k], Known(da), gb.edges[w][k], Known(db))
  {
    hide Scc, Canonical, Material, Bijection, Collides, RungFits;
    EqualDigestsIffIsomorphic(h, ra, ga, da, v, rb, gb, db, w);
    var a, b := At(ga, v, da), At(gb, w, db);
    var f :| Isomorphic(a, b, f);
    assert NodeMatches(a, v, b, w, f);
    forall k | 0 <= k < |ga.edges[v]| && !Internal(Scc(ga, v), ga.edges[v][k])
      ensures !Internal(Scc(gb, w), gb.edges[w][k])
      ensures CarryAlike(ga.edges[v][k], Known(da), gb.edges[w][k], Known(db))
    {
      assert EdgeMatches(a, ga.edges[v][k], b, gb.edges[w][k], f);
    }
  }

  // So a digest depends on the digest of everything its node refers to: if the k-th edges of
  // two nodes lead out of their components to nodes of different digests, the nodes
  // themselves have different digests.
  lemma ReferencesMatter(h: Hasher, ra: Rung, ga: Graph, da: seq<Digest>, v: nat,
                         rb: Rung, gb: Graph, db: seq<Digest>, w: nat, k: nat, t: nat, u: nat)
    requires Hashed(h, ra, ga, da) && Hashed(h, rb, gb, db) && v < |da| && w < |db|
    requires At(ga, v, da).Sized() && At(gb, w, db).Sized() && RungFits(ra) && RungFits(rb)
    requires !Collides(h, ra, At(ga, v, da), rb, At(gb, w, db))
    requires k < |ga.edges[v]| && ga.edges[v][k] == Edge.Node(t) && t < |da| && t !in Scc(ga, v)
    requires k < |gb.edges[w]| && gb.edges[w][k] == Edge.Node(u) && u < |db| && u !in Scc(gb, w)
    requires da[t] != db[u]
    ensures da[v] != db[w]
  {
    hide Scc, Canonical, Material, Collides, RungFits;
    if da[v] == db[w] { EqualDigestsAgree(h, ra, ga, da, v, rb, gb, db, w); }
  }

  // ----- renumbering -----

  ghost predicate RenamedEdge(x: Edge, y: Edge, p: seq<nat>) {
    match x
    case External(d) => y == x
    case Node(t) => y.Node? && t < |p| && y.target == p[t]
  }

  // b is a with node v called p[v].
  ghost predicate Renamed(a: Graph, b: Graph, p: seq<nat>) {
    && a.Closed() && b.Closed() && |p| == |a.edges| == |b.edges|
    && (forall v :: 0 <= v < |p| ==> p[v] < |p|)
    && (forall u, v :: 0 <= u < |p| && 0 <= v < |p| && p[u] == p[v] ==> u == v)
    && (forall w: nat {:trigger w in p} :: w < |p| ==> w in p)
    && (forall v :: 0 <= v < |p| ==>
          && b.labels[p[v]] == a.labels[v] && |b.edges[p[v]]| == |a.edges[v]|
          && forall e :: 0 <= e < |a.edges[v]| ==> RenamedEdge(a.edges[v][e], b.edges[p[v]][e], p))
  }

  lemma RenamedHasEdge(a: Graph, b: Graph, p: seq<nat>, u: nat, v: nat)
    requires Renamed(a, b, p) && u < |p| && v < |p|
    ensures HasEdge(a, u, v) <==> HasEdge(b, p[u], p[v])
  {
    if HasEdge(a, u, v) {
      var e :| 0 <= e < |a.edges[u]| && a.edges[u][e] == Edge.Node(v);
      assert RenamedEdge(a.edges[u][e], b.edges[p[u]][e], p);
    }
    if HasEdge(b, p[u], p[v]) {
      var e :| 0 <= e < |b.edges[p[u]]| && b.edges[p[u]][e] == Edge.Node(p[v]);
      assert RenamedEdge(a.edges[u][e], b.edges[p[u]][e], p);
      assert a.edges[u][e] == Edge.Node(v);
    }
  }

  lemma RenamedReach(a: Graph, b: Graph, p: seq<nat>, u: nat, v: nat)
    requires Renamed(a, b, p) && u < |p| && v < |p|
    ensures Reach(a, u, v) <==> Reach(b, p[u], p[v])
  {
    hide Reach, HasEdge, RenamedEdge;
    ReachRefl(a, u);
    ReachRefl(b, p[u]);
    if Reach(a, u, v) {
      var s := set x: nat | x < |a.edges| && Reach(b, p[u], p[x]);
      forall x: nat, y: nat | x in s && HasEdge(a, x, y)
        ensures y in s
      {
        EdgeInGraph(a, x, y);
        RenamedHasEdge(a, b, p, x, y);
        ReachEdge(b, p[x], p[y]);
        ReachTrans(b, p[u], p[x], p[y]);
      }
      StaysInside(a, s, u, v);
    }
    if Reach(b, p[u], p[v]) {
      var s := set x: nat | x < |a.edges| && Reach(a, u, x) :: p[x];
      forall x: nat, y: nat | x in s && HasEdge(b, x, y)
        ensures y in s
      {
        var x0: nat :| x0 < |a.edges| && Reach(a, u, x0) && p[x0] == x;
        EdgeInGraph(b, x, y);
        assert y in p;
        var y0: nat :| y0 < |p| && p[y0] == y;
        RenamedHasEdge(a, b, p, x0, y0);
        ReachEdge(a, x0, y0);
        ReachTrans(a, u, x0, y0);
      }
      assert p[u] in s;
      StaysInside(b, s, p[u], p[v]);
    }
  }

  lemma RenamedScc(a: Graph, b: Graph, p: seq<nat>, u: nat, v: nat)
    requires Renamed(a, b, p) && u < |p| && v < |p|
    ensures v in Scc(a, u) <==> p[v] in Scc(b, p[u])
  {
    hide Reach, HasEdge, RenamedEdge;
    RenamedReach(a, b, p, u, v);
    RenamedReach(a, b, p, v, u);
  }

  ghost function Restricted(p: seq<nat>, c: set<nat>): (f: map<nat, nat>)
    requires forall v :: v in c ==> v < |p|
    ensures f.Keys == c && forall v :: v in c ==> f[v] == p[v]
  {
    map v | v in c :: p[v]
  }

  lemma RenamedBijection(a: Graph, b: Graph, p: seq<nat>, v: nat)
    requires Renamed(a, b, p) && v < |p|
    requires forall x :: x in Scc(a, v) ==> x < |p|
    ensures Bijection(Restricted(p, Scc(a, v)), Scc(a, v), Scc(b, p[v]))
  {
    hide RenamedEdge, Mutual;
    var f := Restricted(p, Scc(a, v));
    forall x | x in f
      ensures f[x] in Scc(b, p[v])
    {
      RenamedScc(a, b, p, v, x);
    }
    forall y | y in Scc(b, p[v])
      ensures exists x :: x in f && f[x] == y
    {
      assert y in p;
      var x: nat :| x < |p| && p[x] == y;
      RenamedScc(a, b, p, v, x);
      assert x in f && f[x] == y;
    }
  }

  // Renumbering the nodes renumbers the digests and changes none of them. No property of
  // the hash is needed.
  lemma {:induction false} NumberingDoesNotMatter(h: Hasher, rung: Rung, a: Graph, da: seq<Digest>,
                                                  b: Graph, db: seq<Digest>, p: seq<nat>, v: nat)
    requires Hashed(h, rung, a, da) && Hashed(h, rung, b, db) && Renamed(a, b, p) && v < |p|
    ensures db[p[v]] == da[v]
    decreases ReachSet(a, v)
  {
    hide Reach, Mutual, Scc, HasEdge, Renamed, Hashed, ReachSet, Canonical, Material;
    var ra, rb := At(a, v, da), At(b, p[v], db);
    RenamedSizes(a, b, p);
    CompInGraph(ra);
    assert ra.Comp() == Scc(a, v);
    InOwnScc(a, v);
    var f := Restricted(p, Scc(a, v));
    RenamedBijection(a, b, p, v);
    HashedAt(h, rung, a, da, v);
    HashedAt(h, rung, b, db, p[v]);
    forall x | x in f
      ensures NodeMatches(ra, x, rb, f[x], f)
    {
      RenamedNode(a, b, p, x);
      forall e | 0 <= e < |a.edges[x]|
        ensures EdgeMatches(ra, a.edges[x][e], rb, b.edges[p[x]][e], f)
      {
        if a.edges[x][e].Node? {
          var t := a.edges[x][e].target;
          SettingEdges(a, x, e);
          RenamedScc(a, b, p, v, t);
          if t !in Scc(a, v) {
            LeavingComponentShrinks(a, v, x, t);
            NumberingDoesNotMatter(h, rung, a, da, b, db, p, t);
            assert Carries(a.edges[x][e], ra.done, da[t]) && Carries(b.edges[p[x]][e], rb.done, da[t]);
          }
        } else {
          var d := a.edges[x][e].digest;
          assert Carries(a.edges[x][e], ra.done, d) && Carries(b.edges[p[x]][e], rb.done, d);
        }
      }
    }
    IsoToRecords(ra, rb, f);
  }

  lemma RenamedSizes(a: Graph, b: Graph, p: seq<nat>)
    requires Renamed(a, b, p)
    ensures a.Closed() && b.Closed() && |p| == |a.edges| == |b.edges|
    ensures forall v :: 0 <= v < |p| ==> p[v] < |p|
  {
  }

  lemma RenamedNode(a: Graph, b: Graph, p: seq<nat>, v: nat)
    requires Renamed(a, b, p) && v < |p|
    ensures p[v] < |b.edges| && v < |a.edges| && |a.labels| == |a.edges| && |b.labels| == |b.edges|
    ensures b.labels[p[v]] == a.labels[v] && |b.edges[p[v]]| == |a.edges[v]|
    ensures forall e :: 0 <= e < |a.edges[v]| ==> RenamedEdge(a.edges[v][e], b.edges[p[v]][e], p)
  {
    hide RenamedEdge;
  }

  lemma HashedAt(h: Hasher, rung: Rung, g: Graph, ds: seq<Digest>, v: nat)
    requires Hashed(h, rung, g, ds) && v < |g.edges|
    ensures |ds| == |g.edges| && ds[v] == NodeDigest(h, rung, g, v, Known(ds))
  {
    hide Canonical, Material;
  }

  lemma InOwnScc(g: Graph, v: nat)
    requires v < |g.edges|
    ensures v in Scc(g, v)
  {
    ReachRefl(g, v);
  }

  lemma LeavingComponentShrinks(g: Graph, v: nat, x: nat, t: nat)
    requires x in Scc(g, v) && HasEdge(g, x, t) && t !in Scc(g, v)
    ensures ReachSet(g, t) < ReachSet(g, v)
  {
    hide Reach, HasEdge;
    SccOfMember(g, v, x);
    LeavingShrinks(g, x, t);
    forall y | y in ReachSet(g, x)
      ensures y in ReachSet(g, v)
    {
      ReachTrans(g, v, x, y);
    }
  }
}
