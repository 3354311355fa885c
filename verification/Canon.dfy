// The rooted breadth-first form of a component and the bytes that are hashed:
// definitions of src/identity.rs:121-177 on values, and what they determine.
module Canon {
  import opened Bytes
  import opened Graphs
  import opened Options

  datatype Rung = Nominal | Api | Abi(target: seq<byte>) | Object(target: seq<byte>) {
    function Key(): string {
      match this
      case Nominal => "jinn:identity:v1:nominal"
      case Api => "jinn:identity:v1:api"
      case Abi(_) => "jinn:identity:v1:abi"
      case Object(_) => "jinn:identity:v1:object"
    }

    function Target(): Option<seq<byte>> {
      match this
      case Abi(t) => Some(t)
      case Object(t) => Some(t)
      case _ => None
    }
  }

  // blake3 in derive-key mode: any function of the context and the material.
  type Hasher = (string, seq<byte>) -> Digest

  // ----- breadth-first numbering -----

  // The targets of the first k edges that lie in c and are new, in edge order.
  ghost function Scan(c: set<nat>, es: seq<Edge>, k: nat, visit: seq<nat>): (r: seq<nat>)
    requires k <= |es|
    ensures visit <= r
  {
    if k == 0 then visit
    else
      var p := Scan(c, es, k - 1, visit);
      if es[k - 1].Node? && es[k - 1].target in c && es[k - 1].target !in p then p + [es[k - 1].target] else p
  }

  // The visit list after the first i listed nodes have been scanned.
  ghost function Visited(g: Graph, c: set<nat>, root: nat, i: nat): (r: seq<nat>)
    ensures |r| > 0 && r[0] == root
  {
    if i == 0 then [root]
    else
      var p := Visited(g, c, root, i - 1);
      if i - 1 < |p| && p[i - 1] < |g.edges| then Scan(c, g.edges[p[i - 1]], |g.edges[p[i - 1]]|, p) else p
  }

  ghost function Order(g: Graph, c: set<nat>, root: nat): (r: seq<nat>)
    ensures |r| > 0 && r[0] == root
  {
    Visited(g, c, root, |c|)
  }

  ghost predicate Distinct(s: seq<nat>) {
    forall i, j :: 0 <= i < j < |s| ==> s[i] != s[j]
  }

  ghost predicate Within(s: seq<nat>, c: set<nat>) {
    forall i :: 0 <= i < |s| ==> s[i] in c
  }

  lemma {:induction false} ScanStays(c: set<nat>, es: seq<Edge>, k: nat, visit: seq<nat>)
    requires k <= |es| && Distinct(visit) && Within(visit, c)
    ensures var r := Scan(c, es, k, visit);
            && Distinct(r) && Within(r, c)
            && forall e :: 0 <= e < k && es[e].Node? && es[e].target in c ==> es[e].target in r
  {
    if k > 0 {
      ScanStays(c, es, k - 1, visit);
      var p, r := Scan(c, es, k - 1, visit), Scan(c, es, k, visit);
      assert forall x: nat :: x in p ==> x in r;
      if es[k - 1].Node? && es[k - 1].target in c && es[k - 1].target !in p {
        assert r[|p|] == es[k - 1].target;
      }
    }
  }

  lemma {:induction false} VisitedStays(g: Graph, c: set<nat>, root: nat, i: nat)
    requires root in c
    ensures Distinct(Visited(g, c, root, i)) && Within(Visited(g, c, root, i), c)
  {
    if i > 0 {
      VisitedStays(g, c, root, i - 1);
      var p := Visited(g, c, root, i - 1);
      if i - 1 < |p| && p[i - 1] < |g.edges| {
        ScanStays(c, g.edges[p[i - 1]], |g.edges[p[i - 1]]|, p);
      }
    }
  }

  lemma {:induction false} VisitedGrows(g: Graph, c: set<nat>, root: nat, i: nat, j: nat)
    requires i <= j
    ensures Visited(g, c, root, i) <= Visited(g, c, root, j)
    ensures |Visited(g, c, root, i)| <= i ==> Visited(g, c, root, i) == Visited(g, c, root, j)
  {
    if i < j {
      VisitedGrows(g, c, root, i, j - 1);
    }
  }

  lemma {:induction false} DistinctBound(s: seq<nat>, c: set<nat>)
    requires Distinct(s) && Within(s, c)
    ensures |s| <= |c|
  {
    if |s| > 0 {
      var x := s[|s| - 1];
      DistinctBound(s[..|s| - 1], c - {x});
    }
  }

  // Scanning further than the size of the component changes nothing.
  lemma OrderStable(g: Graph, c: set<nat>, root: nat, m: nat)
    requires root in c && |c| <= m
    ensures Visited(g, c, root, m) == Order(g, c, root)
  {
    VisitedStays(g, c, root, |c|);
    DistinctBound(Visited(g, c, root, |c|), c);
    VisitedGrows(g, c, root, |c|, m);
  }

  // Once every listed node has been scanned the list is the whole order.
  lemma OrderReached(g: Graph, c: set<nat>, root: nat, i: nat)
    requires root in c && |Visited(g, c, root, i)| <= i
    ensures Visited(g, c, root, i) == Order(g, c, root)
  {
    var m := i + |c|;
    VisitedGrows(g, c, root, i, m);
    OrderStable(g, c, root, m);
  }

  lemma OrderClosed(g: Graph, c: set<nat>, root: nat, u: nat, w: nat)
    requires root in c && u in Order(g, c, root) && w in c && HasEdge(g, u, w)
    ensures w in Order(g, c, root)
  {
    var v := Order(g, c, root);
    var i :| 0 <= i < |v| && v[i] == u;
    VisitedStays(g, c, root, |c|);
    DistinctBound(v, c);
    VisitedGrows(g, c, root, i, |c|);
    VisitedGrows(g, c, root, i + 1, |c|);
    var p := Visited(g, c, root, i);
    VisitedStays(g, c, root, i);
    assert i < |p|;
    assert p[i] == u;
    ScanStays(c, g.edges[u], |g.edges[u]|, p);
    var e :| 0 <= e < |g.edges[u]| && g.edges[u][e] == Edge.Node(w);
    assert w in Visited(g, c, root, i + 1);
  }

  // The breadth-first order of a strongly connected component lists all of it.
  lemma OrderComplete(g: Graph, root: nat)
    requires root < |g.edges|
    ensures var c := Scc(g, root);
            var v := Order(g, c, root);
            root in c && Distinct(v) && Within(v, c) && forall x :: x in c ==> x in v
  {
    hide Reach, HasEdge;
    var c := Scc(g, root);
    ReachRefl(g, root);
    var v := Order(g, c, root);
    VisitedStays(g, c, root, |c|);
    forall x | x in c
      ensures x in v
    {
      var s := set u: nat | u < |g.edges| && (u in v || (u !in c && Reach(g, root, u)));
      forall u: nat, w: nat | u in s && HasEdge(g, u, w)
        ensures w in s
      {
        ReachEdge(g, u, w);
        ReachInGraph(g, u, w);
        ReachTrans(g, root, u, w);
        if w in c {
          ReachTrans(g, u, w, root);
          OrderClosed(g, c, root, u, w);
        }
      }
      StaysInside(g, s, root, x);
    }
  }

  // Edge b of the listed node number a leads to x.
  ghost predicate Leads(g: Graph, v: seq<nat>, a: nat, b: nat, x: nat) {
    a < |v| && v[a] < |g.edges| && b < |g.edges[v[a]]| && g.edges[v[a]][b] == Edge.Node(x)
  }

  // Edges are taken in the order of the listed nodes, and of each node's list.
  ghost predicate Before(a: nat, b: nat, i: nat, e: nat) { a < i || (a == i && b < e) }

  // An edge before (i, e), of a node listed earlier, leads to the listed node number j.
  ghost predicate FoundBefore(g: Graph, v: seq<nat>, j: nat, i: nat, e: nat) {
    j < |v| && exists a: nat, b: nat :: Before(a, b, i, e) && a < j && Leads(g, v, a, b, v[j])
  }

  ghost predicate HasParent(g: Graph, v: seq<nat>, j: nat) {
    j < |v| && exists a: nat, b: nat :: a < j && Leads(g, v, a, b, v[j])
  }

  // r is what the edges before (i, e) make of the order v.
  ghost predicate Scanned(g: Graph, c: set<nat>, v: seq<nat>, r: seq<nat>, i: nat, e: nat) {
    && r <= v
    && (forall j: nat :: 1 <= j < |r| ==> FoundBefore(g, v, j, i, e))
    && (forall a: nat, b: nat, x: nat :: Leads(g, v, a, b, x) && Before(a, b, i, e) && x in c ==> x in r)
    && (forall j: nat, m: nat, a: nat, b: nat ::
          1 <= j < m < |r| && Leads(g, v, a, b, v[m]) ==> FoundBefore(g, v, j, a, b))
  }

  lemma FoundLater(g: Graph, v: seq<nat>, j: nat, i: nat, e: nat, k: nat, f: nat)
    requires FoundBefore(g, v, j, i, e) && !Before(k, f, i, e)
    ensures FoundBefore(g, v, j, k, f)
  {
    var a: nat, b: nat :| Before(a, b, i, e) && a < j && Leads(g, v, a, b, v[j]);
    assert Before(a, b, k, f);
  }

  lemma ScannedOne(g: Graph, c: set<nat>, v: seq<nat>, r: seq<nat>, i: nat, e: nat)
    requires Scanned(g, c, v, r, i, e) && i < |r| && v[i] < |g.edges| && e < |g.edges[v[i]]|
    requires var y := g.edges[v[i]][e]; y.Node? && y.target in c && y.target !in r ==> r + [y.target] <= v
    ensures var y := g.edges[v[i]][e];
            Scanned(g, c, v, if y.Node? && y.target in c && y.target !in r then r + [y.target] else r, i, e + 1)
  {
    hide FoundBefore;
    var y := g.edges[v[i]][e];
    var s := if y.Node? && y.target in c && y.target !in r then r + [y.target] else r;
    assert forall x :: x in r ==> x in s;
    var next := e + 1;
    forall j: nat | 1 <= j < |s| ensures FoundBefore(g, v, j, i, next) {
      if j < |r| { FoundLater(g, v, j, i, e, i, e + 1); } else { FoundHere(g, v, j, i, e); }
    }
    forall a: nat, b: nat, x: nat | Leads(g, v, a, b, x) && Before(a, b, i, next) && x in c ensures x in s {
      if a == i && b == e { assert x == y.target; }
    }
    forall j: nat, m: nat, a: nat, b: nat | 1 <= j < m < |s| && Leads(g, v, a, b, v[m])
      ensures FoundBefore(g, v, j, a, b)
    {
      if m == |r| {
        assert v[m] == y.target;
        FoundLater(g, v, j, i, e, a, b);
      }
    }
  }

  lemma FoundHere(g: Graph, v: seq<nat>, j: nat, i: nat, e: nat)
    requires j < |v| && i < j && Leads(g, v, i, e, v[j])
    ensures FoundBefore(g, v, j, i, e + 1)
  {
    assert Before(i, e, i, e + 1);
  }

  lemma {:induction false} ScanIsScanned(g: Graph, c: set<nat>, v: seq<nat>, p: seq<nat>, i: nat, k: nat)
    requires Scanned(g, c, v, p, i, 0) && i < |p| && v[i] < |g.edges| && k <= |g.edges[v[i]]|
    requires Scan(c, g.edges[v[i]], k, p) <= v
    ensures Scanned(g, c, v, Scan(c, g.edges[v[i]], k, p), i, k)
  {
    if k > 0 {
      hide Scanned, HasEdge, Reach, Scc, Order;
      var q := Scan(c, g.edges[v[i]], k - 1, p);
      assert q <= Scan(c, g.edges[v[i]], k, p);
      ScanIsScanned(g, c, v, p, i, k - 1);
      ScannedOne(g, c, v, q, i, k - 1);
    }
  }

  lemma {:induction false} VisitedIsScanned(g: Graph, c: set<nat>, root: nat, i: nat)
    requires root in c && (forall x :: x in c ==> x < |g.edges|) && i <= |Order(g, c, root)|
    ensures Scanned(g, c, Order(g, c, root), Visited(g, c, root, i), i, 0)
  {
    var v := Order(g, c, root);
    VisitedStays(g, c, root, |c|);
    DistinctBound(v, c);
    VisitedGrows(g, c, root, i, |c|);
    hide Distinct, Scan, FoundBefore;
    if i > 0 {
      hide Scanned;
      VisitedIsScanned(g, c, root, i - 1);
      VisitedGrows(g, c, root, i - 1, |c|);
      var p := Visited(g, c, root, i - 1);
      assert i - 1 < |p| && p[i - 1] == v[i - 1];
      ScanIsScanned(g, c, v, p, i - 1, |g.edges[v[i - 1]]|);
      NextNode(g, c, v, Visited(g, c, root, i), i - 1);
    }
  }

  // After a node's last edge comes the next node's first.
  lemma NextNode(g: Graph, c: set<nat>, v: seq<nat>, r: seq<nat>, i: nat)
    requires i < |v| && v[i] < |g.edges| && Scanned(g, c, v, r, i, |g.edges[v[i]]|)
    ensures Scanned(g, c, v, r, i + 1, 0)
  {
    hide FoundBefore;
    var next := i + 1;
    forall j: nat | 1 <= j < |r| ensures FoundBefore(g, v, j, next, 0) {
      FoundLater(g, v, j, i, |g.edges[v[i]]|, next, 0);
    }
  }

  // The order is breadth-first: every node but the root is listed after a node with an edge
  // to it, and of two listed nodes the earlier is the one an earlier edge leads to first.
  lemma BreadthFirst(g: Graph, root: nat)
    requires root < |g.edges|
    ensures var v := Order(g, Scc(g, root), root);
            && (forall j: nat :: 1 <= j < |v| ==> HasParent(g, v, j))
            && (forall j: nat, m: nat, a: nat, b: nat ::
                  1 <= j < m < |v| && Leads(g, v, a, b, v[m]) ==> FoundBefore(g, v, j, a, b))
  {
    hide Reach;
    var c := Scc(g, root);
    ReachRefl(g, root);
    var v := Order(g, c, root);
    VisitedStays(g, c, root, |c|);
    DistinctBound(v, c);
    hide Distinct, Leads, FoundBefore, HasParent, Scc;
    VisitedIsScanned(g, c, root, |v|);
    VisitedGrows(g, c, root, |v|, |c|);
    hide Visited;
    assert Scanned(g, c, v, v, |v|, 0);
    forall j: nat | 1 <= j < |v| ensures HasParent(g, v, j) {
      FoundHasParent(g, v, j, |v|, 0);
    }
  }

  lemma FoundHasParent(g: Graph, v: seq<nat>, j: nat, i: nat, e: nat)
    requires FoundBefore(g, v, j, i, e)
    ensures HasParent(g, v, j)
  {
  }

  // ----- canonical records -----

  datatype Token = Inner(local: nat) | Outer(digest: Digest)
  datatype Record = Record(name: seq<byte>, out: seq<Token>)

  ghost function IndexOf(s: seq<nat>, x: nat): (i: nat)
    ensures x in s ==> i < |s| && s[i] == x && forall j :: 0 <= j < i ==> s[j] != x
  {
    if |s| == 0 || s[0] == x then 0 else 1 + IndexOf(s[1..], x)
  }

  const ZERO: Digest := LE(0, 32)

  // The digest an edge that leaves the component contributes.
  function OutDigest(e: Edge, done: seq<Option<Digest>>): Digest {
    if e.External? then e.digest
    else if e.target < |done| && done[e.target].Some? then done[e.target].value
    else ZERO
  }

  ghost function TokenOf(c: set<nat>, visit: seq<nat>, done: seq<Option<Digest>>, e: Edge): Token {
    if e.Node? && e.target in c then Inner(IndexOf(visit, e.target)) else Outer(OutDigest(e, done))
  }

  ghost function TokensOf(c: set<nat>, visit: seq<nat>, done: seq<Option<Digest>>, es: seq<Edge>): (r: seq<Token>)
    ensures |r| == |es| && forall e :: 0 <= e < |es| ==> r[e] == TokenOf(c, visit, done, es[e])
  {
    if |es| == 0 then [] else [TokenOf(c, visit, done, es[0])] + TokensOf(c, visit, done, es[1..])
  }

  ghost function RecordOf(g: Graph, c: set<nat>, visit: seq<nat>, done: seq<Option<Digest>>, n: nat): Record {
    if n < |g.edges| && n < |g.labels| then Record(g.labels[n], TokensOf(c, visit, done, g.edges[n]))
    else Record([], [])
  }

  ghost function RecordsOf(g: Graph, c: set<nat>, visit: seq<nat>, done: seq<Option<Digest>>, k: nat): (r: seq<Record>)
    requires k <= |visit|
    ensures |r| == k && forall i :: 0 <= i < k ==> r[i] == RecordOf(g, c, visit, done, visit[i])
  {
    if k == 0 then [] else RecordsOf(g, c, visit, done, k - 1) + [RecordOf(g, c, visit, done, visit[k - 1])]
  }

  // The canonical form of the component of root, seen from root.
  ghost function Canonical(g: Graph, root: nat, done: seq<Option<Digest>>): seq<Record> {
    RecordsOf(g, Scc(g, root), Order(g, Scc(g, root), root), done, |Order(g, Scc(g, root), root)|)
  }

  // ----- the hashed bytes -----

  function PutLen(n: nat): seq<byte> { LE(n, 8) }
  function PutBytes(b: seq<byte>): seq<byte> { PutLen(|b|) + b }

  function TokenBytes(t: Token): seq<byte> {
    match t
    case Inner(l) => [0] + PutLen(l)
    case Outer(d) => [1] + d
  }

  function TokensBytes(ts: seq<Token>): seq<byte> {
    if |ts| == 0 then [] else TokenBytes(ts[0]) + TokensBytes(ts[1..])
  }

  function RecordBytes(r: Record): seq<byte> {
    PutBytes(r.name) + PutLen(|r.out|) + TokensBytes(r.out)
  }

  function RecordsBytes(rs: seq<Record>): seq<byte> {
    if |rs| == 0 then [] else RecordBytes(rs[0]) + RecordsBytes(rs[1..])
  }

  function Prefix(rung: Rung): seq<byte> {
    match rung.Target()
    case Some(t) => PutBytes(t)
    case None => []
  }

  function Material(rung: Rung, rs: seq<Record>): seq<byte> {
    Prefix(rung) + PutLen(|rs|) + RecordsBytes(rs)
  }

  // The hashed bytes of a component of two nodes that refer to each other, the first one also
  // to a node outside.
  lemma LayoutExample(d: Digest)
    ensures Material(Api, [Record([97], [Inner(1), Outer(d)]), Record([98, 99], [Inner(0)])])
         == [2, 0, 0, 0, 0, 0, 0, 0]
          + ([1, 0, 0, 0, 0, 0, 0, 0] + [97] + [2, 0, 0, 0, 0, 0, 0, 0] + ([0] + [1, 0, 0, 0, 0, 0, 0, 0] + ([1] + d))
          + ([2, 0, 0, 0, 0, 0, 0, 0] + [98, 99] + [1, 0, 0, 0, 0, 0, 0, 0] + ([0] + [0, 0, 0, 0, 0, 0, 0, 0])))
    ensures Prefix(Object([120])) == [1, 0, 0, 0, 0, 0, 0, 0] + [120]
  {
    SmallWord(0);
    SmallWord(1);
    SmallWord(2);
    hide LE;
    var a, b := Record([97], [Inner(1), Outer(d)]), Record([98, 99], [Inner(0)]);
    OneToken(Outer(d));
    OneToken(Inner(0));
    OneRecord(b);
    assert a.out[1..] == [Outer(d)] && [a, b][1..] == [b];
    hide PutLen, TokenBytes, RecordBytes;
    assert TokensBytes(a.out) == TokenBytes(Inner(1)) + TokenBytes(Outer(d));
    assert RecordsBytes([a, b]) == RecordBytes(a) + RecordBytes(b);
    hide RecordsBytes, TokensBytes;
    assert [] + PutLen(2) == PutLen(2);
  }

  lemma OneToken(t: Token)
    ensures TokensBytes([t]) == TokenBytes(t)
  {
    assert TokenBytes(t) + [] == TokenBytes(t);
  }

  lemma OneRecord(r: Record)
    ensures RecordsBytes([r]) == RecordBytes(r)
  {
    assert RecordBytes(r) + [] == RecordBytes(r);
  }

  lemma SmallWord(n: byte)
    ensures LE(n, 8) == [n, 0, 0, 0, 0, 0, 0, 0]
  {
    assert LE(n, 8) == [n] + LE(0, 7);
    assert LE(0, 7) == [0] + LE(0, 6) && LE(0, 6) == [0] + LE(0, 5) && LE(0, 5) == [0] + LE(0, 4);
    assert LE(0, 4) == [0] + LE(0, 3) && LE(0, 3) == [0] + LE(0, 2) && LE(0, 2) == [0] + LE(0, 1);
  }

  // Every length and index fits the 64-bit word it is written in.
  ghost predicate Fits(n: nat) { n < Range(8) }

  ghost predicate RecordFits(r: Record) {
    && Fits(|r.name|) && Fits(|r.out|)
    && forall i :: 0 <= i < |r.out| && r.out[i].Inner? ==> Fits(r.out[i].local)
  }

  ghost predicate AllFit(rs: seq<Record>) {
    Fits(|rs|) && forall i :: 0 <= i < |rs| ==> RecordFits(rs[i])
  }

  lemma LenInjective(m: nat, n: nat, x: seq<byte>, y: seq<byte>)
    requires Fits(m) && Fits(n) && PutLen(m) + x == PutLen(n) + y
    ensures m == n && x == y
  {
    SplitEqual(PutLen(m), PutLen(n), x, y);
    WordInjective(m, n, 8);
  }

  lemma BytesInjective(a: seq<byte>, b: seq<byte>, x: seq<byte>, y: seq<byte>)
    requires Fits(|a|) && Fits(|b|) && PutBytes(a) + x == PutBytes(b) + y
    ensures a == b && x == y
  {
    hide PutLen, Fits;
    Associate(PutLen(|a|), a, x);
    Associate(PutLen(|b|), b, y);
    LenInjective(|a|, |b|, a + x, b + y);
    SplitEqual(a, b, x, y);
  }

  lemma TokenInjective(s: Token, t: Token, x: seq<byte>, y: seq<byte>)
    requires s.Inner? ==> Fits(s.local)
    requires t.Inner? ==> Fits(t.local)
    requires TokenBytes(s) + x == TokenBytes(t) + y
    ensures s == t && x == y
  {
    hide PutLen, Fits;
    assert (TokenBytes(s) + x)[0] == (TokenBytes(t) + y)[0];
    match s
    case Inner(l) =>
      TailEqual(0, PutLen(l), PutLen(t.local), x, y);
      LenInjective(l, t.local, x, y);
    case Outer(d) =>
      TailEqual(1, d, t.digest, x, y);
      SplitEqual(d, t.digest, x, y);
  }

  lemma TailEqual(tag: byte, a: seq<byte>, b: seq<byte>, x: seq<byte>, y: seq<byte>)
    requires [tag] + a + x == [tag] + b + y
    ensures a + x == b + y
  {
    Associate([tag], a, x);
    Associate([tag], b, y);
    SplitEqual([tag], [tag], a + x, b + y);
  }

  lemma {:induction false} TokensInjective(s: seq<Token>, t: seq<Token>, x: seq<byte>, y: seq<byte>)
    requires |s| == |t|
    requires forall i :: 0 <= i < |s| && s[i].Inner? ==> Fits(s[i].local)
    requires forall i :: 0 <= i < |t| && t[i].Inner? ==> Fits(t[i].local)
    requires TokensBytes(s) + x == TokensBytes(t) + y
    ensures s == t && x == y
  {
    hide TokenBytes, Fits;
    if |s| > 0 {
      var sx, ty := TokensBytes(s[1..]) + x, TokensBytes(t[1..]) + y;
      Associate(TokenBytes(s[0]), TokensBytes(s[1..]), x);
      Associate(TokenBytes(t[0]), TokensBytes(t[1..]), y);
      TokenInjective(s[0], t[0], sx, ty);
      TokensInjective(s[1..], t[1..], x, y);
      assert s == [s[0]] + s[1..] && t == [t[0]] + t[1..];
    } else {
      assert TokensBytes(s) + x == x && TokensBytes(t) + y == y;
    }
  }

  lemma RecordInjective(r: Record, q: Record, x: seq<byte>, y: seq<byte>)
    requires RecordFits(r) && RecordFits(q) && RecordBytes(r) + x == RecordBytes(q) + y
    ensures r == q && x == y
  {
    hide PutBytes, PutLen, TokensBytes, Fits;
    var rx, qy := TokensBytes(r.out) + x, TokensBytes(q.out) + y;
    assert RecordBytes(r) + x == PutBytes(r.name) + (PutLen(|r.out|) + rx);
    assert RecordBytes(q) + y == PutBytes(q.name) + (PutLen(|q.out|) + qy);
    BytesInjective(r.name, q.name, PutLen(|r.out|) + rx, PutLen(|q.out|) + qy);
    LenInjective(|r.out|, |q.out|, rx, qy);
    TokensInjective(r.out, q.out, x, y);
  }

  lemma {:induction false} RecordsInjective(s: seq<Record>, t: seq<Record>)
    requires |s| == |t| && RecordsBytes(s) == RecordsBytes(t)
    requires forall i :: 0 <= i < |s| ==> RecordFits(s[i]) && RecordFits(t[i])
    ensures s == t
  {
    if |s| > 0 {
      RecordInjective(s[0], t[0], RecordsBytes(s[1..]), RecordsBytes(t[1..]));
      RecordsInjective(s[1..], t[1..]);
      assert s == [s[0]] + s[1..] && t == [t[0]] + t[1..];
    }
  }

  // Context key and material together determine the rung and the records.
  lemma MaterialInjective(rung1: Rung, rs1: seq<Record>, rung2: Rung, rs2: seq<Record>)
    requires AllFit(rs1) && AllFit(rs2)
    requires rung1.Target().Some? ==> Fits(|rung1.Target().value|)
    requires rung2.Target().Some? ==> Fits(|rung2.Target().value|)
    requires rung1.Key() == rung2.Key() && Material(rung1, rs1) == Material(rung2, rs2)
    ensures rung1 == rung2 && rs1 == rs2
  {
    hide PutLen, RecordsBytes, PutBytes, RecordFits, Fits;
    KeysDiffer(rung1, rung2);
    var x, y := PutLen(|rs1|) + RecordsBytes(rs1), PutLen(|rs2|) + RecordsBytes(rs2);
    Associate(Prefix(rung1), PutLen(|rs1|), RecordsBytes(rs1));
    Associate(Prefix(rung2), PutLen(|rs2|), RecordsBytes(rs2));
    if rung1.Target().Some? {
      BytesInjective(rung1.Target().value, rung2.Target().value, x, y);
    } else {
      assert Prefix(rung1) + x == x && Prefix(rung2) + y == y;
    }
    LenInjective(|rs1|, |rs2|, RecordsBytes(rs1), RecordsBytes(rs2));
    RecordsInjective(rs1, rs2);
  }

  lemma KeysDiffer(a: Rung, b: Rung)
    requires a.Key() == b.Key()
    ensures (a.Nominal? <==> b.Nominal?) && (a.Api? <==> b.Api?) && (a.Abi? <==> b.Abi?)
  {
    assert |a.Key()| == |b.Key()|;
    assert a.Key()[17] == b.Key()[17] && a.Key()[18] == b.Key()[18];
  }
}
