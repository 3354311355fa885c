// Two rooted components have the same canonical records exactly when they are
// isomorphic; the records, the rung and the digest determine each other.
module Isomorphism {
  import opened Bytes
  import opened Graphs
  import opened Options
  import opened Canon

  // A node of a finished graph: where it is and the digests known for its graph.
  datatype Rooted = Rooted(g: Graph, root: nat, done: seq<Option<Digest>>) {
    ghost function Comp(): set<nat> { Scc(g, root) }
    ghost function Order(): seq<nat> { Canon.Order(g, Comp(), root) }
    ghost function Records(): seq<Record> { Canonical(g, root, done) }

    ghost predicate Placed() {
      g.Closed() && root < |g.edges|
    }

    // Whatever lies beyond the component has its digest already.
    ghost predicate Grounded() {
      forall v, e :: v in Comp() && v < |g.edges| && 0 <= e < |g.edges[v]| && g.edges[v][e].Node? ==>
        g.edges[v][e].target in Comp() || (g.edges[v][e].target < |done| && done[g.edges[v][e].target].Some?)
    }

    // Sizes are machine words, as every Vec length is.
    ghost predicate Sized() {
      && Fits(|g.edges|)
      && (forall v :: 0 <= v < |g.labels| ==> Fits(|g.labels[v]|))
      && (forall v :: 0 <= v < |g.edges| ==> Fits(|g.edges[v]|))
    }
  }

  ghost predicate Internal(c: set<nat>, e: Edge) {
    e.Node? && e.target in c
  }

  // The digest an edge stands for: its own if it is external, else the one known for its target.
  ghost predicate Carries(e: Edge, done: seq<Option<Digest>>, d: Digest) {
    match e
    case External(x) => d == x
    case Node(t) => t < |done| && done[t] == Some(d)
  }

  ghost predicate CarryAlike(x: Edge, da: seq<Option<Digest>>, y: Edge, db: seq<Option<Digest>>) {
    exists d: Digest :: Carries(x, da, d) && Carries(y, db, d)
  }

  // Edges inside the components correspond; edges leaving them carry one digest.
  ghost predicate EdgeMatches(a: Rooted, x: Edge, b: Rooted, y: Edge, f: map<nat, nat>) {
    if Internal(a.Comp(), x) then
      x.target in f && Internal(b.Comp(), y) && y.target == f[x.target]
    else
      !Internal(b.Comp(), y) && CarryAlike(x, a.done, y, b.done)
  }

  ghost predicate NodeMatches(a: Rooted, v: nat, b: Rooted, w: nat, f: map<nat, nat>) {
    && v < |a.g.edges| && w < |b.g.edges| && |a.g.labels| == |a.g.edges| && |b.g.labels| == |b.g.edges|
    && a.g.labels[v] == b.g.labels[w]
    && |a.g.edges[v]| == |b.g.edges[w]|
    && forall e :: 0 <= e < |a.g.edges[v]| ==> EdgeMatches(a, a.g.edges[v][e], b, b.g.edges[w][e], f)
  }

  ghost predicate Bijection(f: map<nat, nat>, c: set<nat>, d: set<nat>) {
    && f.Keys == c
    && (forall v :: v in f ==> f[v] in d)
    && (forall w :: w in d ==> exists v :: v in f && f[v] == w)
    && (forall u, v :: u in f && v in f && f[u] == f[v] ==> u == v)
  }

  ghost predicate Isomorphic(a: Rooted, b: Rooted, f: map<nat, nat>) {
    && Bijection(f, a.Comp(), b.Comp())
    && a.root in f && f[a.root] == b.root
    && forall v :: v in f ==> NodeMatches(a, v, b, f[v], f)
  }

  // ----- isomorphic components have equal records -----

  ghost function Image(f: map<nat, nat>, s: seq<nat>): (r: seq<nat>)
    requires Within(s, f.Keys)
    ensures |r| == |s| && forall i :: 0 <= i < |s| ==> r[i] == f[s[i]]
  {
    seq(|s|, i requires 0 <= i < |s| => f[s[i]])
  }

  lemma {:induction false} ScanImage(a: Rooted, b: Rooted, f: map<nat, nat>, v: nat, k: nat, visit: seq<nat>)
    requires Bijection(f, a.Comp(), b.Comp()) && v in f && NodeMatches(a, v, b, f[v], f)
    requires k <= |a.g.edges[v]| && Distinct(visit) && Within(visit, a.Comp())
    ensures var r := Scan(a.Comp(), a.g.edges[v], k, visit);
            Within(r, f.Keys) && Scan(b.Comp(), b.g.edges[f[v]], k, Image(f, visit)) == Image(f, r)
  {
    hide Scc;
    ScanStays(a.Comp(), a.g.edges[v], k, visit);
    if k > 0 {
      ScanImage(a, b, f, v, k - 1, visit);
      ScanStays(a.Comp(), a.g.edges[v], k - 1, visit);
      var p := Scan(a.Comp(), a.g.edges[v], k - 1, visit);
      var x, y := a.g.edges[v][k - 1], b.g.edges[f[v]][k - 1];
      assert EdgeMatches(a, x, b, y, f);
      if Internal(a.Comp(), x) {
        var t := x.target;
        if t in p {
          var i :| 0 <= i < |p| && p[i] == t;
          assert Image(f, p)[i] == y.target;
        }
        if y.target in Image(f, p) {
          var i :| 0 <= i < |p| && Image(f, p)[i] == y.target;
          assert p[i] == t;
        }
      }
    }
  }

  lemma {:induction false} VisitedImage(a: Rooted, b: Rooted, f: map<nat, nat>, i: nat)
    requires Isomorphic(a, b, f)
    ensures var r := Visited(a.g, a.Comp(), a.root, i);
            Within(r, f.Keys) && Visited(b.g, b.Comp(), b.root, i) == Image(f, r)
  {
    hide Scc, HasEdge, Reach, Mutual, Within;
    VisitedStays(a.g, a.Comp(), a.root, i);
    if i > 0 {
      VisitedImage(a, b, f, i - 1);
      var p := Visited(a.g, a.Comp(), a.root, i - 1);
      VisitedStays(a.g, a.Comp(), a.root, i - 1);
      if i - 1 < |p| {
        var v := p[i - 1];
        assert NodeMatches(a, v, b, f[v], f);
        ScanImage(a, b, f, v, |a.g.edges[v]|, p);
      }
    }
  }

  lemma OrderImage(a: Rooted, b: Rooted, f: map<nat, nat>)
    requires a.Placed() && b.Placed() && Isomorphic(a, b, f)
    ensures Within(a.Order(), f.Keys) && b.Order() == Image(f, a.Order())
  {
    hide Reach, Mutual;
    ReachRefl(a.g, a.root);
    ReachRefl(b.g, b.root);
    assert Mutual(a.g, a.root, a.root) && Mutual(b.g, b.root, b.root);
    var m := |a.Comp()| + |b.Comp()|;
    OrderStable(a.g, a.Comp(), a.root, m);
    OrderStable(b.g, b.Comp(), b.root, m);
    VisitedImage(a, b, f, m);
  }

  lemma IndexImage(f: map<nat, nat>, s: seq<nat>, t: nat)
    requires Within(s, f.Keys) && Distinct(s) && t in s
    requires forall u, v :: u in f && v in f && f[u] == f[v] ==> u == v
    ensures IndexOf(Image(f, s), f[t]) == IndexOf(s, t)
  {
    var i := IndexOf(s, t);
    assert Image(f, s)[i] == f[t];
    var j := IndexOf(Image(f, s), f[t]);
    assert s[j] == t;
  }

  lemma NodeRecords(a: Rooted, v: nat, b: Rooted, f: map<nat, nat>)
    requires a.Placed() && b.Placed() && Isomorphic(a, b, f) && v in f
    requires Within(a.Order(), f.Keys) && b.Order() == Image(f, a.Order())
    ensures RecordOf(a.g, a.Comp(), a.Order(), a.done, v) == RecordOf(b.g, b.Comp(), b.Order(), b.done, f[v])
  {
    hide Reach, Mutual, Order, Scc;
    OrderComplete(a.g, a.root);
    assert NodeMatches(a, v, b, f[v], f);
    forall e | 0 <= e < |a.g.edges[v]|
      ensures TokenOf(a.Comp(), a.Order(), a.done, a.g.edges[v][e])
           == TokenOf(b.Comp(), b.Order(), b.done, b.g.edges[f[v]][e])
    {
      var x := a.g.edges[v][e];
      assert EdgeMatches(a, x, b, b.g.edges[f[v]][e], f);
      if Internal(a.Comp(), x) {
        IndexImage(f, a.Order(), x.target);
      }
    }
  }

  lemma IsoToRecords(a: Rooted, b: Rooted, f: map<nat, nat>)
    requires a.Placed() && b.Placed() && Isomorphic(a, b, f)
    ensures a.Records() == b.Records()
  {
    hide Reach, Mutual, Order, Scc, RecordOf;
    OrderImage(a, b, f);
    forall i | 0 <= i < |a.Order()|
      ensures a.Records()[i] == b.Records()[i]
    {
      NodeRecords(a, a.Order()[i], b, f);
    }
  }

  // ----- equal records give an isomorphism -----

  // Send the i-th node of one order to the i-th node of the other.
  ghost function Pairing(s: seq<nat>, t: seq<nat>): (f: map<nat, nat>)
    requires |s| == |t| && Distinct(s)
    ensures forall x :: x in f <==> x in s
    ensures forall i :: 0 <= i < |s| ==> s[i] in f && f[s[i]] == t[i]
  {
    if |s| == 0 then map[]
    else
      assert s[..|s| - 1] + [s[|s| - 1]] == s;
      Pairing(s[..|s| - 1], t[..|t| - 1])[s[|s| - 1] := t[|t| - 1]]
  }

  lemma PairingBijection(s: seq<nat>, t: seq<nat>, c: set<nat>, d: set<nat>)
    requires |s| == |t| && Distinct(s) && Distinct(t) && Within(s, c) && Within(t, d)
    requires (forall x :: x in c ==> x in s) && (forall x :: x in d ==> x in t)
    ensures Bijection(Pairing(s, t), c, d)
  {
    hide Pairing;
    var f := Pairing(s, t);
    assert f.Keys == c;
    forall w | w in d
      ensures exists v :: v in f && f[v] == w
    {
      var i :| 0 <= i < |t| && t[i] == w;
      assert s[i] in f && f[s[i]] == w;
    }
    forall v | v in f ensures f[v] in d {
      var i :| 0 <= i < |s| && s[i] == v;
    }
    forall u, v | u in f && v in f && f[u] == f[v]
      ensures u == v
    {
      PairingInjective(s, t, u, v);
    }
  }

  lemma PairingInjective(s: seq<nat>, t: seq<nat>, u: nat, v: nat)
    requires |s| == |t| && Distinct(s) && Distinct(t) && u in s && v in s && Pairing(s, t)[u] == Pairing(s, t)[v]
    ensures u == v
  {
    hide Pairing;
    var i :| 0 <= i < |s| && s[i] == u;
    var j :| 0 <= j < |s| && s[j] == v;
    assert t[i] == t[j];
  }

  lemma RecordsShape(a: Rooted)
    ensures |a.Records()| == |a.Order()|
    ensures forall i :: 0 <= i < |a.Order()| ==>
              a.Records()[i] == RecordOf(a.g, a.Comp(), a.Order(), a.done, a.Order()[i])
  {
  }

  lemma RecordsToIso(a: Rooted, b: Rooted) returns (f: map<nat, nat>)
    requires a.Placed() && b.Placed() && a.Grounded() && b.Grounded() && a.Records() == b.Records()
    ensures Isomorphic(a, b, f)
  {
    hide Reach, Mutual, Order, Scc, Canonical, RecordOf, NodeMatches, Pairing;
    OrderComplete(a.g, a.root);
    OrderComplete(b.g, b.root);
    RecordsShape(a);
    RecordsShape(b);
    CompInGraph(a);
    CompInGraph(b);
    var s, t := a.Order(), b.Order();
    f := Pairing(s, t);
    PairingBijection(s, t, a.Comp(), b.Comp());
    forall v | v in f
      ensures NodeMatches(a, v, b, f[v], f)
    {
      var i :| 0 <= i < |s| && s[i] == v;
      MatchAt(a, b, f, i);
    }
    assert s[0] == a.root && t[0] == b.root;
  }

  lemma MatchAt(a: Rooted, b: Rooted, f: map<nat, nat>, i: nat)
    requires a.Placed() && b.Placed()
    requires Distinct(a.Order()) && |a.Order()| == |b.Order()| && f == Pairing(a.Order(), b.Order())
    requires i < |a.Order()| && a.Order()[i] < |a.g.edges| && b.Order()[i] < |b.g.edges|
    requires a.Grounded() && b.Grounded() && a.Order()[i] in a.Comp() && b.Order()[i] in b.Comp()
    requires forall x :: x in a.Comp() ==> x in a.Order()
    requires forall x :: x in b.Comp() ==> x in b.Order()
    requires RecordOf(a.g, a.Comp(), a.Order(), a.done, a.Order()[i])
          == RecordOf(b.g, b.Comp(), b.Order(), b.done, b.Order()[i])
    ensures NodeMatches(a, a.Order()[i], b, b.Order()[i], f)
  {
    hide Order, Scc, Rooted.Order, Rooted.Comp, TokenOf, TokensOf, EdgeMatches, Pairing, Distinct;
    var v, w := a.Order()[i], b.Order()[i];
    var rv := RecordOf(a.g, a.Comp(), a.Order(), a.done, v);
    var rw := RecordOf(b.g, b.Comp(), b.Order(), b.done, w);
    assert |rv.out| == |rw.out|;
    forall e | 0 <= e < |a.g.edges[v]|
      ensures EdgeMatches(a, a.g.edges[v][e], b, b.g.edges[w][e], f)
    {
      assert rv.out[e] == rw.out[e];
      GroundedAt(a, v, e);
      GroundedAt(b, w, e);
      EdgeAt(a, b, f, a.g.edges[v][e], b.g.edges[w][e]);
    }
  }

  lemma GroundedAt(a: Rooted, v: nat, e: nat)
    requires a.Grounded() && v in a.Comp() && v < |a.g.edges| && e < |a.g.edges[v]|
    ensures var x := a.g.edges[v][e]; !Internal(a.Comp(), x) ==> Carries(x, a.done, OutDigest(x, a.done))
  {
    hide Scc, Rooted.Comp;
  }

  lemma EdgeAt(a: Rooted, b: Rooted, f: map<nat, nat>, x: Edge, y: Edge)
    requires Distinct(a.Order()) && |a.Order()| == |b.Order()| && f == Pairing(a.Order(), b.Order())
    requires forall v :: v in a.Comp() ==> v in a.Order()
    requires forall v :: v in b.Comp() ==> v in b.Order()
    requires TokenOf(a.Comp(), a.Order(), a.done, x) == TokenOf(b.Comp(), b.Order(), b.done, y)
    requires !Internal(a.Comp(), x) ==> Carries(x, a.done, OutDigest(x, a.done))
    requires !Internal(b.Comp(), y) ==> Carries(y, b.done, OutDigest(y, b.done))
    ensures EdgeMatches(a, x, b, y, f)
  {
    hide Order, Scc, Rooted.Order, Rooted.Comp;
  }

  // ----- digests -----

  ghost predicate RungFits(rung: Rung) {
    rung.Target().Some? ==> Fits(|rung.Target().value|)
  }

  lemma RecordsFit(a: Rooted)
    requires a.Placed() && a.Sized()
    ensures AllFit(a.Records())
  {
    hide Reach, Mutual, Scc, Range;
    OrderComplete(a.g, a.root);
    var c, v := a.Comp(), a.Order();
    var all := Below(|a.g.edges|);
    assert Within(v, all) by { CompInGraph(a); }
    DistinctBound(v, all);
    forall i | 0 <= i < |v|
      ensures RecordFits(a.Records()[i])
    {
      var r := RecordOf(a.g, c, v, a.done, v[i]);
      CompInGraph(a);
      forall e | 0 <= e < |r.out| && r.out[e].Inner?
        ensures Fits(r.out[e].local)
      {
        assert r.out[e] == TokenOf(c, v, a.done, a.g.edges[v[i]][e]);
      }
    }
  }

  lemma CompInGraph(a: Rooted)
    ensures forall x :: x in a.Comp() ==> x < |a.g.edges|
  {
  }

  ghost function Below(n: nat): (r: set<nat>)
    ensures |r| == n && forall x: nat :: x in r <==> x < n
  {
    if n == 0 then {} else Below(n - 1) + {n - 1}
  }

  // With no collision between these two hash inputs, digests agree exactly when the
  // rungs agree and the rooted components are isomorphic.
  lemma DigestsDecideIsomorphism(h: Hasher, ra: Rung, a: Rooted, rb: Rung, b: Rooted)
    requires a.Placed() && b.Placed() && a.Sized() && b.Sized() && RungFits(ra) && RungFits(rb)
    requires a.Grounded() && b.Grounded()
    requires h(ra.Key(), Material(ra, a.Records())) == h(rb.Key(), Material(rb, b.Records())) ==>
               ra.Key() == rb.Key() && Material(ra, a.Records()) == Material(rb, b.Records())
    ensures h(ra.Key(), Material(ra, a.Records())) == h(rb.Key(), Material(rb, b.Records()))
       <==> ra == rb && exists f :: Isomorphic(a, b, f)
  {
    hide Reach, Mutual, Scc, Isomorphic, Canonical, Material, AllFit;
    RecordsFit(a);
    RecordsFit(b);
    if h(ra.Key(), Material(ra, a.Records())) == h(rb.Key(), Material(rb, b.Records())) {
      MaterialInjective(ra, a.Records(), rb, b.Records());
      var f := RecordsToIso(a, b);
    }
    if ra == rb && exists f :: Isomorphic(a, b, f) {
      var f :| Isomorphic(a, b, f);
      IsoToRecords(a, b, f);
    }
  }
}
