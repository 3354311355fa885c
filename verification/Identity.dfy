// src/identity.rs: building an identity graph and hashing every node of it.
module Identity {
  import opened Bytes
  import opened Graphs
  import opened Options
  import opened Tarjan
  import opened Canon
  import opened Isomorphism

  datatype IdentityError = DanglingEdge(from: nat, to: nat) | EmptyTarget

  datatype Hashes = Ok(digests: seq<Digest>) | Err(error: IdentityError)

  // The digest of a node, given the digests already known.
  ghost function NodeDigest(h: Hasher, rung: Rung, g: Graph, v: nat, done: seq<Option<Digest>>): Digest {
    h(rung.Key(), Material(rung, Canonical(g, v, done)))
  }

  ghost function Known(ds: seq<Digest>): (r: seq<Option<Digest>>)
    ensures |r| == |ds| && forall v :: 0 <= v < |ds| ==> r[v] == Some(ds[v])
  {
    seq(|ds|, v requires 0 <= v < |ds| => Some(ds[v]))
  }

  // ds gives every node the hash of its own rooted component, which in turn
  // mentions only digests in ds.
  ghost predicate Hashed(h: Hasher, rung: Rung, g: Graph, ds: seq<Digest>) {
    && g.Closed() && |ds| == |g.edges|
    && forall v :: 0 <= v < |ds| ==> ds[v] == NodeDigest(h, rung, g, v, Known(ds))
  }

  ghost predicate Dangles(g: Graph, from: nat, e: nat) {
    && from < |g.edges| && e < |g.edges[from]|
    && g.edges[from][e].Node? && g.edges[from][e].target >= |g.labels|
  }

  // The first dangling edge in node order, then edge order.
  ghost predicate FirstDangling(g: Graph, from: nat, to: nat) {
    exists e: nat :: Dangles(g, from, e) && g.edges[from][e].target == to &&
      forall f: nat, d: nat :: Dangles(g, f, d) ==> f > from || (f == from && d >= e)
  }

  // Digests known for every node the component's outgoing edges lead to.
  ghost predicate OutgoingKnown(g: Graph, c: set<nat>, done: seq<Option<Digest>>) {
    && |done| == |g.edges|
    && forall v: nat, w: nat :: v in c && HasEdge(g, v, w) && w !in c ==> w < |done| && done[w].Some?
  }

  // Records depend only on the digests of nodes outside the component that its edges name.
  lemma CanonicalLocal(g: Graph, root: nat, d1: seq<Option<Digest>>, d2: seq<Option<Digest>>)
    requires g.Closed() && root < |g.edges| && |d1| == |d2| == |g.edges|
    requires forall v: nat, w: nat ::
               v in Scc(g, root) && HasEdge(g, v, w) && w !in Scc(g, root) && w < |d1| && w < |d2| ==> d1[w] == d2[w]
    ensures Canonical(g, root, d1) == Canonical(g, root, d2)
  {
    hide Reach, Mutual, Canon.Order, Scc;
    var a, b := Rooted(g, root, d1), Rooted(g, root, d2);
    OrderComplete(g, root);
    CompInGraph(a);
    RecordsShape(a);
    RecordsShape(b);
    var v := a.Order();
    forall i | 0 <= i < |v|
      ensures a.Records()[i] == b.Records()[i]
    {
      forall e | 0 <= e < |g.edges[v[i]]|
        ensures TokenOf(a.Comp(), v, d1, g.edges[v[i]][e]) == TokenOf(a.Comp(), v, d2, g.edges[v[i]][e])
      {
        var x := g.edges[v[i]][e];
        if x.Node? { assert HasEdge(g, v[i], x.target); }
      }
      assert RecordOf(g, a.Comp(), v, d1, v[i]) == RecordOf(g, a.Comp(), v, d2, v[i]);
    }
  }

  lemma {:induction false} RecordsAppend(rs: seq<Record>, r: Record)
    ensures RecordsBytes(rs + [r]) == RecordsBytes(rs) + RecordBytes(r)
  {
    hide RecordBytes;
    if |rs| == 0 {
      assert rs + [r] == [r];
      assert RecordsBytes([r]) == RecordBytes(r) + RecordsBytes([]);
    } else {
      RecordsAppend(rs[1..], r);
      assert (rs + [r])[1..] == rs[1..] + [r];
      Associate(RecordBytes(rs[0]), RecordsBytes(rs[1..]), RecordBytes(r));
    }
  }

  lemma {:induction false} TokensAppend(ts: seq<Token>, t: Token)
    ensures TokensBytes(ts + [t]) == TokensBytes(ts) + TokenBytes(t)
  {
    hide TokenBytes;
    if |ts| == 0 {
      assert ts + [t] == [t];
      assert TokensBytes([t]) == TokenBytes(t) + TokensBytes([]);
    } else {
      TokensAppend(ts[1..], t);
      assert (ts + [t])[1..] == ts[1..] + [t];
      Associate(TokenBytes(ts[0]), TokensBytes(ts[1..]), TokenBytes(t));
    }
  }

  // `pos` gives each node its place in its component.
  ghost predicate Positions(order: seq<seq<nat>>, pos: seq<nat>) {
    forall k, i :: 0 <= k < |order| && 0 <= i < |order[k]| ==>
      order[k][i] < |pos| && pos[order[k][i]] == i
  }

  // `local` holds the visit number of the component members visited so far.
  ghost predicate Numbering(scc: seq<nat>, local: seq<Option<nat>>, visit: seq<nat>) {
    && |local| == |scc|
    && forall k :: 0 <= k < |scc| ==>
         local[k] == if scc[k] in visit then Some(IndexOf(visit, scc[k])) else None
  }

  lemma StartNumbering(scc: seq<nat>, root: nat, k: nat)
    requires k < |scc| && scc[k] == root && Distinct(scc)
    ensures Numbering(scc, seq(|scc|, _ => None)[k := Some(0)], [root])
  {
  }

  lemma NumberNext(scc: seq<nat>, local: seq<Option<nat>>, visit: seq<nat>, k: nat)
    requires Numbering(scc, local, visit) && k < |scc| && Distinct(scc) && scc[k] !in visit
    ensures Numbering(scc, local[k := Some(|visit|)], visit + [scc[k]])
  {
    var v := visit + [scc[k]];
    forall i | 0 <= i < |scc|
      ensures local[k := Some(|visit|)][i] == if scc[i] in v then Some(IndexOf(v, scc[i])) else None
    {
      if scc[i] in visit {
        IndexPrefix(visit, scc[k], scc[i]);
      } else if i == k {
        assert v[|visit|] == scc[k];
      }
    }
  }

  lemma {:induction false} IndexPrefix(s: seq<nat>, x: nat, t: nat)
    requires t in s
    ensures t in s + [x] && IndexOf(s + [x], t) == IndexOf(s, t)
  {
    var i := IndexOf(s, t);
    assert (s + [x])[i] == t;
    var j := IndexOf(s + [x], t);
    assert j <= i;
  }

  // Everything rooted_hash is given about the component it works in.
  ghost predicate Setting(g: Graph, root: nat, size: nat, of: seq<Option<nat>>, pos: seq<nat>, order: seq<seq<nat>>) {
    && Components(g, of, order) && Positions(order, pos)
    && |pos| == |g.edges| && root < |g.edges|
    && size == |order[of[root].value]|
  }

  // `of` and `pos` locate the members of the component of root in scc.
  ghost predicate Members(c: set<nat>, scc: seq<nat>, of: seq<Option<nat>>, pos: seq<nat>, root: nat)
    requires root < |of| == |pos|
  {
    && Distinct(scc)
    && (forall t: nat :: t < |of| ==> (t in c <==> of[t] == of[root]))
    && (forall t: nat :: t in c ==> t < |pos| && pos[t] < |scc| && scc[pos[t]] == t)
  }

  lemma MembersAt(c: set<nat>, scc: seq<nat>, of: seq<Option<nat>>, pos: seq<nat>, root: nat, t: nat)
    requires root < |of| == |pos| && Members(c, scc, of, pos, root) && t in c
    ensures t < |pos| && pos[t] < |scc| && scc[pos[t]] == t && Distinct(scc)
  {
  }

  lemma SettingFacts(g: Graph, root: nat, size: nat, of: seq<Option<nat>>, pos: seq<nat>, order: seq<seq<nat>>)
    requires Setting(g, root, size, of, pos, order)
    ensures g.Closed() && root < |g.edges| == |of| == |pos| && of[root].Some? && of[root].value < |order|
    ensures size == |order[of[root].value]|
    ensures Members(Scc(g, root), order[of[root].value], of, pos, root) && root in Scc(g, root)
  {
    hide Reach, HasEdge;
    ReachRefl(g, root);
    var scc := order[of[root].value];
    forall t: nat | t < |g.edges| && of[t] == of[root]
      ensures pos[t] < |scc| && scc[pos[t]] == t
    {
      assert t in order[of[t].value];
      var i :| 0 <= i < |scc| && scc[i] == t;
      assert pos[order[of[root].value][i]] == i;
    }
    forall t: nat | t < |g.edges|
      ensures t in Scc(g, root) <==> of[t] == of[root]
    {
      assert Mutual(g, root, t) <==> of[t] == of[root];
    }
  }

  lemma SettingEdges(g: Graph, n: nat, j: nat)
    requires g.Closed() && n < |g.edges| && j < |g.edges[n]| && g.edges[n][j].Node?
    ensures g.edges[n][j].target < |g.edges| && HasEdge(g, n, g.edges[n][j].target)
  {
  }

  // The visit list stays within the component, and each listed node is scanned in turn.
  lemma VisitBounds(g: Graph, root: nat, i: nat)
    requires g.Closed() && root < |g.edges|
    ensures var c := Scc(g, root);
            var v := Visited(g, c, root, i);
            && |v| <= |c| && (forall j :: 0 <= j < |v| ==> v[j] < |g.edges|)
            && Visited(g, c, root, 0) == [root]
            && (i < |v| ==> Visited(g, c, root, i + 1) == Scan(c, g.edges[v[i]], |g.edges[v[i]]|, v))
  {
    hide Reach, HasEdge;
    var c := Scc(g, root);
    ReachRefl(g, root);
    VisitedStays(g, c, root, i);
    DistinctBound(Visited(g, c, root, i), c);
  }

  // What `local` says about a member.
  lemma NumberingAt(scc: seq<nat>, local: seq<Option<nat>>, visit: seq<nat>, k: nat)
    requires Numbering(scc, local, visit) && k < |scc|
    ensures k < |local| && (local[k].None? <==> scc[k] !in visit)
    ensures scc[k] in visit ==> local[k] == Some(IndexOf(visit, scc[k]))
  {
  }

  // After k components: exactly their members have digests, each its own node digest.
  ghost predicate Progress(h: Hasher, rung: Rung, g: Graph, of: seq<Option<nat>>, k: nat, done: seq<Option<Digest>>) {
    && g.Closed() && |of| == |done| == |g.edges|
    && forall v: nat :: v < |of| && of[v].Some? ==>
         if of[v].value < k then done[v] == Some(NodeDigest(h, rung, g, v, done)) else done[v] == None
  }

  lemma ProgressStart(h: Hasher, rung: Rung, g: Graph, of: seq<Option<nat>>, done: seq<Option<Digest>>)
    requires g.Closed() && |of| == |done| == |g.edges| && forall v :: 0 <= v < |done| ==> done[v] == None
    ensures Progress(h, rung, g, of, 0, done)
  {
  }

  lemma ProgressSize(h: Hasher, rung: Rung, g: Graph, of: seq<Option<nat>>, k: nat, done: seq<Option<Digest>>)
    requires Progress(h, rung, g, of, k, done)
    ensures g.Closed() && |of| == |done| == |g.edges|
  {
    hide NodeDigest;
  }

  lemma ComponentRange(g: Graph, of: seq<Option<nat>>, order: seq<seq<nat>>, k: nat)
    requires Components(g, of, order) && k < |order|
    ensures forall i :: 0 <= i < |order[k]| ==> order[k][i] < |g.edges| == |of| && of[order[k][i]] == Some(k)
    ensures Distinct(order[k])
    ensures forall v: nat :: v < |of| && of[v] == Some(k) ==> v in order[k]
  {
    hide Mutual, HasEdge;
  }

  // Components come out successors first, so a component's outgoing edges lead to earlier ones.
  lemma OutgoingEarlier(g: Graph, of: seq<Option<nat>>, order: seq<seq<nat>>, root: nat)
    requires Components(g, of, order) && root < |of|
    ensures of[root].Some?
    ensures forall v: nat, w: nat :: v in Scc(g, root) && HasEdge(g, v, w) && w !in Scc(g, root) ==>
              w < |of| && of[w].Some? && of[w].value < of[root].value
  {
    hide Reach, HasEdge;
    forall v: nat, w: nat | v in Scc(g, root) && HasEdge(g, v, w) && w !in Scc(g, root)
      ensures w < |of| && of[w].Some? && of[w].value < of[root].value
    {
      EdgeInGraph(g, v, w);
      assert Mutual(g, root, v) <==> of[v] == of[root];
      assert Mutual(g, root, w) <==> of[w] == of[root];
    }
  }

  lemma EdgeInGraph(g: Graph, v: nat, w: nat)
    requires HasEdge(g, v, w)
    ensures v < |g.edges| && w < |g.edges|
  {
  }

  lemma ReadyToHash(h: Hasher, rung: Rung, g: Graph, of: seq<Option<nat>>, pos: seq<nat>, order: seq<seq<nat>>, k: nat,
                    i: nat, done: seq<Option<Digest>>)
    requires Components(g, of, order) && Positions(order, pos) && |pos| == |g.edges| && k < |order| && i < |order[k]|
    requires Progress(h, rung, g, of, k, done)
    ensures Setting(g, order[k][i], |order[k]|, of, pos, order)
    ensures OutgoingKnown(g, Scc(g, order[k][i]), done)
  {
    hide Positions, Scc, HasEdge, Mutual, NodeDigest, Components;
    ComponentRange(g, of, order, k);
    OutgoingEarlier(g, of, order, order[k][i]);
  }

  // Recording a component's digests disturbs no digest already computed.
  lemma RecordedProgress(h: Hasher, rung: Rung, g: Graph, of: seq<Option<nat>>, order: seq<seq<nat>>, k: nat,
                         done0: seq<Option<Digest>>, done: seq<Option<Digest>>)
    requires Components(g, of, order) && k < |order| && Progress(h, rung, g, of, k, done0)
    requires |done| == |g.edges|
    requires forall j :: 0 <= j < |order[k]| && order[k][j] < |done| ==>
               done[order[k][j]] == Some(NodeDigest(h, rung, g, order[k][j], done0))
    requires forall v :: 0 <= v < |g.edges| && v !in order[k] ==> done[v] == done0[v]
    ensures Progress(h, rung, g, of, k + 1, done)
  {
    hide Reach, HasEdge, Mutual, Scc, Canonical, Components, Material;
    ComponentRange(g, of, order, k);
    forall v: nat | v < |of| && of[v].Some? && of[v].value <= k
      ensures done[v] == Some(NodeDigest(h, rung, g, v, done))
    {
      OutgoingEarlier(g, of, order, v);
      CanonicalLocal(g, v, done0, done);
      if of[v].value == k {
        assert v in order[k];
        var j :| 0 <= j < |order[k]| && order[k][j] == v;
      }
    }
  }

  lemma OrderApart(g: Graph, of: seq<Option<nat>>, order: seq<seq<nat>>)
    requires Components(g, of, order)
    ensures forall k, i :: 0 <= k < |order| && 0 <= i < |order[k]| ==> order[k][i] < |g.edges|
    ensures forall k, i, l, j :: 0 <= k < |order| && 0 <= i < |order[k]| && 0 <= l < |order| && 0 <= j < |order[l]| ==>
              order[k][i] == order[l][j] ==> k == l && i == j
  {
    hide Mutual, HasEdge;
  }

  lemma FinishedHashes(h: Hasher, rung: Rung, g: Graph, of: seq<Option<nat>>, order: seq<seq<nat>>,
                       done: seq<Option<Digest>>)
    requires Components(g, of, order) && Progress(h, rung, g, of, |order|, done)
    ensures |done| == |g.edges|
    ensures forall v :: 0 <= v < |done| ==> done[v].Some? && done[v] == Some(NodeDigest(h, rung, g, v, done))
  {
    hide Mutual, HasEdge, NodeDigest;
  }

  class IdentityGraph {
    var labels: seq<seq<byte>>
    var edges: seq<seq<Edge>>

    ghost function Value(): Graph
      reads this
    {
      Graph.Graph(labels, edges)
    }

    constructor ()
      ensures Value() == Graph.Graph([], [])
    {
      labels, edges := [], [];
    }

    // node(): the new node gets the next number and no edges.
    method Node(name: seq<byte>) returns (id: nat)
      requires Value().Shaped()
      modifies this
      ensures Value().Shaped() && id == |old(labels)|
      ensures Value() == Graph.Graph(old(labels) + [name], old(edges) + [[]])
    {
      labels := labels + [name];
      edges := edges + [[]];
      id := |labels| - 1;
    }

    // edge(): appended after the edges `from` already has.
    method Edge(from: nat, to: Edge)
      requires Value().Shaped() && from < |edges|
      modifies this`edges
      ensures Value().Shaped()
      ensures Value() == Graph.Graph(old(labels), old(edges)[from := old(edges)[from] + [to]])
    {
      edges := edges[from := edges[from] + [to]];
    }

    // One node of the visit: number the unseen component members its edges name.
    method ScanNode(n: nat, root: nat, of: seq<Option<nat>>, pos: seq<nat>, visit0: seq<nat>, local0: seq<Option<nat>>,
                    ghost c: set<nat>, ghost scc: seq<nat>)
      returns (visit: seq<nat>, local: seq<Option<nat>>)
      requires Value().Closed() && n < |edges| && root < |of| == |pos| == |edges|
      requires Members(c, scc, of, pos, root) && Numbering(scc, local0, visit0)
      ensures visit == Scan(c, edges[n], |edges[n]|, visit0) && Numbering(scc, local, visit)
    {
      hide Numbering, HasEdge;
      visit, local := visit0, local0;
      for k := 0 to |edges[n]|
        invariant visit == Scan(c, edges[n], k, visit0) && Numbering(scc, local, visit)
      {
        match edges[n][k]
        case External(_) =>
        case Node(t) =>
          if of[t] == of[root] { NumberingAt(scc, local, visit, pos[t]); }
          if of[t] == of[root] && local[pos[t]].None? {
            NumberNext(scc, local, visit, pos[t]);
            local := local[pos[t] := Some(|visit|)];
            visit := visit + [t];
          }
      }
    }

    // The breadth-first visit of rooted_hash.
    method Visit(root: nat, size: nat, of: seq<Option<nat>>, pos: seq<nat>, ghost order: seq<seq<nat>>)
      returns (visit: seq<nat>, local: seq<Option<nat>>)
      requires Setting(Value(), root, size, of, pos, order)
      ensures root < |of| && of[root].Some? && of[root].value < |order|
      ensures visit == Order(Value(), Scc(Value(), root), root)
      ensures Numbering(order[of[root].value], local, visit)
    {
      hide Scc, Setting, Numbering, Scan, Visited, Members;
      ghost var g := Value();
      ghost var c := Scc(g, root);
      SettingFacts(g, root, size, of, pos, order);
      ghost var scc := order[of[root].value];
      VisitBounds(g, root, 0);
      MembersAt(c, scc, of, pos, root, root);
      local := seq(size, _ => None);
      visit := [root];
      local := local[pos[root] := Some(0)];
      StartNumbering(scc, root, pos[root]);
      var i := 0;
      while i < |visit|
        invariant visit == Visited(g, c, root, i) && Numbering(scc, local, visit)
        invariant i <= |visit| <= |c|
        decreases |c| - i
      {
        VisitBounds(g, root, i);
        visit, local := ScanNode(visit[i], root, of, pos, visit, local, c, scc);
        i := i + 1;
        VisitBounds(g, root, i);
      }
      OrderReached(g, c, root, i);
    }

    // The bytes of one visited node's edges.
    method PutEdges(n: nat, root: nat, of: seq<Option<nat>>, pos: seq<nat>, local: seq<Option<nat>>,
                    done: seq<Option<Digest>>, ghost c: set<nat>, ghost scc: seq<nat>, ghost visit: seq<nat>)
      returns (out: seq<byte>)
      requires Value().Closed() && n < |edges| && root < |of| == |pos| == |edges|
      requires Members(c, scc, of, pos, root) && Numbering(scc, local, visit) && n in c
      requires OutgoingKnown(Value(), c, done) && (forall t :: t in c ==> t in visit)
      ensures out == TokensBytes(TokensOf(c, visit, done, edges[n]))
    {
      hide Numbering, HasEdge, TokensOf, TokensBytes, OutgoingKnown, PutLen;
      ghost var ts := TokensOf(c, visit, done, edges[n]);
      out := [];
      NothingHashed([]);
      assert ts[..0] == [];
      for k := 0 to |edges[n]|
        invariant out == TokensBytes(ts[..k])
      {
        var bytes: seq<byte>;
        match edges[n][k] {
          case Node(t) =>
            SettingEdges(Value(), n, k);
            if of[t] == of[root] {
              NumberingAt(scc, local, visit, pos[t]);
              bytes := [0] + PutLen(local[pos[t]].value);
            } else {
              KnownAt(Value(), c, done, n, t);
              bytes := [1] + done[t].value;
            }
          case External(d) =>
            bytes := [1] + d;
        }
        assert bytes == TokenBytes(ts[k]);
        out := out + bytes;
        TokensAppend(ts[..k], ts[k]);
        assert ts[..k + 1] == ts[..k] + [ts[k]];
      }
      assert ts[..|edges[n]|] == ts;
    }

    // rooted_hash: serialise the component breadth first from root and hash it.
    method RootedHash(h: Hasher, rung: Rung, root: nat, size: nat, of: seq<Option<nat>>, pos: seq<nat>,
                      done: seq<Option<Digest>>, ghost order: seq<seq<nat>>)
      returns (digest: Digest)
      requires Setting(Value(), root, size, of, pos, order)
      requires OutgoingKnown(Value(), Scc(Value(), root), done)
      ensures digest == NodeDigest(h, rung, Value(), root, done)
    {
      hide Scc, Setting, Numbering, TokensBytes, RecordsBytes, Canon.Order, OutgoingKnown, Members, TokensOf, Canonical;
      ghost var g := Value();
      ghost var c := Scc(g, root);
      SettingFacts(g, root, size, of, pos, order);
      var visit, local := Visit(root, size, of, pos, order);
      ghost var rs := Canonical(g, root, done);
      OrderComplete(g, root);
      RecordsShape(Rooted(g, root, done));
      var out: seq<byte> := [];
      match rung.Target() {
        case Some(t) => out := PutBytes(t);
        case None =>
      }
      out := out + PutLen(|visit|);
      ghost var start := out;
      assert rs[..0] == [];
      NothingHashed(start);
      for i := 0 to |visit|
        invariant out == start + RecordsBytes(rs[..i])
      {
        CompInGraph(Rooted(g, root, done));
        var n := visit[i];
        var bytes := PutEdges(n, root, of, pos, local, done, c, order[of[root].value], visit);
        bytes := PutBytes(labels[n]) + PutLen(|edges[n]|) + bytes;
        out := out + bytes;
        RecordsAppend(rs[..i], rs[i]);
        assert rs[..i + 1] == rs[..i] + [rs[i]];
        Associate(start, RecordsBytes(rs[..i]), bytes);
      }
      assert rs[..|visit|] == rs;
      digest := h(rung.Key(), out);
    }

    // The scan for an edge that names no node.
    method FindDangling() returns (r: Option<(nat, nat)>)
      requires Value().Shaped()
      ensures r.None? <==> Value().Closed()
      ensures r.Some? ==> FirstDangling(Value(), r.value.0, r.value.1)
    {
      for from := 0 to |edges|
        invariant forall f: nat, d: nat :: f < from ==> !Dangles(Value(), f, d)
      {
        for e := 0 to |edges[from]|
          invariant forall d: nat :: d < e ==> !Dangles(Value(), from, d)
        {
          match edges[from][e]
          case External(_) =>
          case Node(to) =>
            if to >= |labels| {
              assert Dangles(Value(), from, e);
              return Some((from, to));
            }
        }
      }
      forall v, e | 0 <= v < |edges| && 0 <= e < |edges[v]| && edges[v][e].Node?
        ensures edges[v][e].target < |edges|
      {
        assert !Dangles(Value(), v, e);
      }
      return None;
    }

    // Where each node sits in its component.
    method PositionsOf(order: seq<seq<nat>>) returns (pos: seq<nat>)
      requires forall k, i :: 0 <= k < |order| && 0 <= i < |order[k]| ==> order[k][i] < |edges|
      requires forall k, i, l, j ::
                 0 <= k < |order| && 0 <= i < |order[k]| && 0 <= l < |order| && 0 <= j < |order[l]| ==>
                   order[k][i] == order[l][j] ==> k == l && i == j
      ensures |pos| == |edges| && Positions(order, pos)
    {
      pos := seq(|edges|, _ => 0);
      for k := 0 to |order|
        invariant |pos| == |edges|
        invariant forall l, j :: 0 <= l < k && 0 <= j < |order[l]| ==> pos[order[l][j]] == j
      {
        for i := 0 to |order[k]|
          invariant |pos| == |edges|
          invariant forall l, j :: 0 <= l < k && 0 <= j < |order[l]| ==> pos[order[l][j]] == j
          invariant forall j :: 0 <= j < i ==> pos[order[k][j]] == j
        {
          pos := pos[order[k][i] := i];
        }
      }
    }

    // One component: hash every member, then record the digests.
    method HashComponent(h: Hasher, rung: Rung, k: nat, of: seq<Option<nat>>, pos: seq<nat>, order: seq<seq<nat>>,
                         done0: seq<Option<Digest>>)
      returns (done: seq<Option<Digest>>)
      requires Components(Value(), of, order) && Positions(order, pos) && |pos| == |edges| && k < |order|
      requires Progress(h, rung, Value(), of, k, done0)
      ensures Progress(h, rung, Value(), of, k + 1, done)
    {
      hide Components, Positions, Progress, NodeDigest, OutgoingKnown, Scc;
      var scc := order[k];
      ghost var g := Value();
      var hs: seq<Digest> := [];
      for i := 0 to |scc|
        invariant |hs| == i
        invariant forall j :: 0 <= j < i ==> hs[j] == NodeDigest(h, rung, g, scc[j], done0)
      {
        ReadyToHash(h, rung, g, of, pos, order, k, i, done0);
        var d := RootedHash(h, rung, scc[i], |scc|, of, pos, done0, order);
        hs := hs + [d];
      }
      done := done0;
      ComponentRange(g, of, order, k);
      ProgressSize(h, rung, g, of, k, done0);
      for i := 0 to |scc|
        invariant |done| == |edges|
        invariant forall j :: 0 <= j < i ==> done[scc[j]] == Some(hs[j])
        invariant forall v :: 0 <= v < |edges| && v !in scc[..i] ==> done[v] == done0[v]
      {
        done := done[scc[i] := Some(hs[i])];
        assert scc[..i + 1] == scc[..i] + [scc[i]];
      }
      assert scc[..|scc|] == scc;
      RecordedProgress(h, rung, g, of, order, k, done0, done);
    }

    // hashes(): reject an empty target and dangling edges, otherwise digest every node.
    method HashAll(h: Hasher, rung: Rung) returns (r: Hashes)
      requires Value().Shaped()
      ensures rung.Target() == Some([]) ==> r == Err(EmptyTarget)
      ensures rung.Target() != Some([]) && !Value().Closed() ==>
                r.Err? && r.error.DanglingEdge? && FirstDangling(Value(), r.error.from, r.error.to)
      ensures rung.Target() != Some([]) && Value().Closed() ==>
                r.Ok? && Hashed(h, rung, Value(), r.digests)
    {
      hide Components, Positions, Progress, NodeDigest, FirstDangling;
      if rung.Target() == Some([]) {
        return Err(EmptyTarget);
      }
      var dangling := FindDangling();
      if dangling.Some? {
        return Err(DanglingEdge(dangling.value.0, dangling.value.1));
      }
      var g := Graph.Graph(labels, edges);
      var pass := new Pass(g);
      pass.Run(g);
      var of, order := pass.of[..], pass.order;
      OrderApart(g, of, order);
      var pos := PositionsOf(order);
      var done: seq<Option<Digest>> := seq(|edges|, _ => None);
      ProgressStart(h, rung, g, of, done);
      for k := 0 to |order|
        invariant Progress(h, rung, g, of, k, done)
      {
        done := HashComponent(h, rung, k, of, pos, order, done);
      }
      FinishedHashes(h, rung, g, of, order, done);
      var ds := seq(|done|, v requires 0 <= v < |done| && done[v].Some? => done[v].value);
      assert Known(ds) == done;
      assert Hashed(h, rung, g, ds);
      r := Ok(ds);
    }
  }

  lemma NothingHashed(s: seq<byte>)
    ensures s + RecordsBytes([]) == s && s + TokensBytes([]) == s
  {
  }

  lemma KnownAt(g: Graph, c: set<nat>, done: seq<Option<Digest>>, n: nat, t: nat)
    requires OutgoingKnown(g, c, done) && n in c && HasEdge(g, n, t) && t !in c
    ensures t < |done| && done[t].Some?
  {
  }
}
