// The iterative Tarjan pass of src/identity.rs: its working state, the invariant
// every step of the loop keeps, and the loop itself.
module Tarjan {
  import opened Graphs
  import opened Options

  // The vectors of the pass, plus the ghost count of edges already examined per
  // node. `None` stands for the sentinel usize::MAX.
  datatype State = State(
    index: seq<Option<nat>>, low: seq<nat>, onStack: seq<bool>, stack: seq<nat>,
    of: seq<Option<nat>>, order: seq<seq<nat>>, next: nat,
    frames: seq<(nat, nat)>, done: seq<nat>)
  {
    ghost predicate Seen(v: nat) { v < |index| && index[v].Some? }
    ghost predicate Live(v: nat) { v < |onStack| && onStack[v] }
    ghost predicate Assigned(v: nat) { v < |of| && of[v].Some? }
    ghost function Num(v: nat): nat requires Seen(v) { index[v].value }
  }

  ghost predicate Sizes(g: Graph, s: State) {
    && g.Closed()
    && |s.index| == |s.low| == |s.onStack| == |s.of| == |s.done| == |g.edges|
  }

  // Discovery numbers are distinct and below `next`.
  ghost predicate Numbered(g: Graph, s: State) {
    && (forall v: nat :: s.Seen(v) ==> s.Num(v) < s.next)
    && (forall u: nat, v: nat :: s.Seen(u) && s.Seen(v) && s.Num(u) == s.Num(v) ==> u == v)
  }

  // The stack holds exactly the live nodes, in discovery order.
  ghost predicate Stacked(g: Graph, s: State) {
    && (forall i :: 0 <= i < |s.stack| ==> s.Live(s.stack[i]))
    && (forall v: nat :: s.Live(v) ==> s.Seen(v))
    && (forall v: nat {:trigger v in s.stack} :: s.Live(v) ==> v in s.stack)
    && (forall i, j :: 0 <= i < j < |s.stack| && s.Seen(s.stack[i]) && s.Seen(s.stack[j]) ==>
          s.Num(s.stack[i]) < s.Num(s.stack[j]))
  }

  // The frames are live nodes in discovery order, each with its edge cursor.
  ghost predicate Framed(g: Graph, s: State) {
    && (forall j :: 0 <= j < |s.frames| ==>
          s.Live(s.frames[j].0) && s.Seen(s.frames[j].0)
          && s.frames[j].0 < |s.done|
          && s.done[s.frames[j].0] == s.frames[j].1)
    && (forall i, j :: 0 <= i < j < |s.frames| && s.Seen(s.frames[i].0) && s.Seen(s.frames[j].0) ==>
          s.Num(s.frames[i].0) < s.Num(s.frames[j].0))
  }

  ghost predicate IsFrame(s: State, v: nat) {
    exists j :: 0 <= j < |s.frames| && s.frames[j].0 == v
  }

  // Edge cursors: unseen nodes have examined nothing, finished nodes everything,
  // and an examined edge leads to a seen node.
  ghost predicate Cursors(g: Graph, s: State)
    requires Sizes(g, s)
  {
    && (forall v: nat :: 0 <= v < |g.edges| ==> s.done[v] <= |g.edges[v]|)
    && (forall v: nat :: 0 <= v < |g.edges| && !s.Seen(v) ==> s.done[v] == 0)
    && (forall v: nat :: s.Seen(v) && !IsFrame(s, v) ==> s.done[v] == |g.edges[v]|)
    && (forall v: nat, e: nat :: 0 <= v < |g.edges| && 0 <= e < s.done[v] && g.edges[v][e].Node? ==>
          s.Seen(g.edges[v][e].target))
  }

  // A seen node is live or assigned, never both; components list what `of` says,
  // without repetition, and are strongly connected and maximal; an edge of an
  // assigned node leads to an assigned node of the same or an earlier component.
  ghost predicate Emitted(g: Graph, s: State)
    requires Sizes(g, s)
  {
    && (forall v: nat :: s.Assigned(v) <==> s.Seen(v) && !s.Live(v))
    && (forall v: nat :: s.Assigned(v) ==> s.of[v].value < |s.order| && v in s.order[s.of[v].value])
    && (forall k, i :: 0 <= k < |s.order| && 0 <= i < |s.order[k]| ==>
          s.Assigned(s.order[k][i]) && s.of[s.order[k][i]].value == k)
    && (forall k, i, j :: 0 <= k < |s.order| && 0 <= i < j < |s.order[k]| ==>
          s.order[k][i] != s.order[k][j])
    && (forall v: nat, w: nat :: s.Assigned(v) && HasEdge(g, v, w) ==>
          s.Assigned(w) && s.of[w].value <= s.of[v].value)
    && (forall v: nat, w: nat :: s.Assigned(v) && 0 <= w < |g.edges| ==>
          (Mutual(g, v, w) <==> s.of[w] == s.of[v]))
  }

  // Older live nodes reach younger ones.
  ghost predicate Upward(g: Graph, s: State) {
    forall x: nat, y: nat :: s.Live(x) && s.Live(y) && s.Seen(x) && s.Seen(y) && s.Num(x) <= s.Num(y) ==>
      Reach(g, x, y)
  }

  ghost predicate Anchor(g: Graph, s: State, y: nat, j: nat)
    requires s.Seen(y)
  {
    && j < |s.frames| && s.Seen(s.frames[j].0)
    && s.Num(s.frames[j].0) <= s.Num(y) && Reach(g, y, s.frames[j].0)
  }

  ghost predicate HasAnchor(g: Graph, s: State, y: nat) {
    s.Seen(y) && exists j :: Anchor(g, s, y, j)
  }

  // Every live node reaches a frame that is no younger than itself.
  ghost predicate Anchored(g: Graph, s: State) {
    forall y: nat {:trigger HasAnchor(g, s, y)} :: s.Live(y) ==> HasAnchor(g, s, y)
  }

  ghost predicate LowWitness(g: Graph, s: State, v: nat, w: nat)
    requires v < |s.low|
  {
    s.Live(w) && s.Seen(w) && s.Num(w) == s.low[v] && Reach(g, v, w)
  }

  ghost predicate HasLow(g: Graph, s: State, v: nat) {
    s.Seen(v) && v < |s.low| && s.low[v] <= s.Num(v) && exists w :: LowWitness(g, s, v, w)
  }

  // The low value of a frame is the number of a live node the frame reaches.
  ghost predicate LowSound(g: Graph, s: State)
    requires Sizes(g, s)
  {
    forall j {:trigger HasLow(g, s, s.frames[j].0)} :: 0 <= j < |s.frames| ==> HasLow(g, s, s.frames[j].0)
  }

  // u belongs to the stretch of the stack between frame j and the next frame.
  ghost predicate InSegment(s: State, j: nat, u: nat)
  {
    && j < |s.frames| && s.Seen(s.frames[j].0) && s.Live(u) && s.Seen(u)
    && s.Num(s.frames[j].0) <= s.Num(u)
    && (j + 1 < |s.frames| ==> s.Seen(s.frames[j + 1].0) && s.Num(u) < s.Num(s.frames[j + 1].0))
  }

  // No examined edge out of a frame's segment reaches a live node older than low.
  ghost predicate LowTight(g: Graph, s: State)
    requires Sizes(g, s)
  {
    forall j: nat, u: nat, e: nat ::
      (InSegment(s, j, u) && u < |g.edges| && 0 <= e < s.done[u] && e < |g.edges[u]| &&
      g.edges[u][e].Node? && s.Live(g.edges[u][e].target) && s.Seen(g.edges[u][e].target)) ==>
      s.frames[j].0 < |s.low| && s.low[s.frames[j].0] <= s.Num(g.edges[u][e].target)
  }

  ghost predicate Inv(g: Graph, s: State) {
    && Sizes(g, s) && Numbered(g, s) && Stacked(g, s) && Framed(g, s) && Cursors(g, s)
    && Emitted(g, s) && Upward(g, s) && Anchored(g, s) && LowSound(g, s) && LowTight(g, s)
  }

  // ----- the steps -----

  ghost function Discover(s: State, w: nat): State
    requires w < |s.index| && w < |s.low| && w < |s.onStack|
  {
    s.(index := s.index[w := Some(s.next)], low := s.low[w := s.next], next := s.next + 1,
       stack := s.stack + [w], onStack := s.onStack[w := true], frames := s.frames + [(w, 0)])
  }

  // Frame j moves its cursor past one edge.
  ghost function Advance(s: State, j: nat): State
    requires j < |s.frames| && s.frames[j].0 < |s.done|
  {
    var (v, ei) := s.frames[j];
    s.(frames := s.frames[j := (v, ei + 1)], done := s.done[v := ei + 1])
  }

  ghost function Lower(s: State, v: nat, k: nat): State
    requires v < |s.low|
  {
    s.(low := s.low[v := if k < s.low[v] then k else s.low[v]])
  }

  ghost function Top(s: State): nat
    requires |s.frames| > 0
  {
    s.frames[|s.frames| - 1].0
  }

  // frames.pop() and the merge into the parent's low value.
  ghost function Retreat(s: State): State
    requires |s.frames| > 0 && Top(s) < |s.low|
    requires |s.frames| > 1 ==> s.frames[|s.frames| - 2].0 < |s.low|
  {
    var r := s.(frames := s.frames[..|s.frames| - 1]);
    if |r.frames| == 0 then r else Lower(r, Top(r), s.low[Top(s)])
  }

  ghost function Reverse(s: seq<nat>): (r: seq<nat>)
    ensures |r| == |s| && forall i :: 0 <= i < |s| ==> r[i] == s[|s| - 1 - i]
  {
    if |s| == 0 then [] else [s[|s| - 1]] + Reverse(s[..|s| - 1])
  }

  ghost function Clear(onStack: seq<bool>, scc: seq<nat>): (r: seq<bool>)
    ensures |r| == |onStack|
    ensures forall v: nat :: v < |onStack| ==> r[v] == (onStack[v] && v !in scc)
  {
    seq(|onStack|, v requires 0 <= v < |onStack| => onStack[v] && v !in scc)
  }

  ghost function Assign(of: seq<Option<nat>>, scc: seq<nat>, id: nat): (r: seq<Option<nat>>)
    ensures |r| == |of|
    ensures forall v: nat :: v < |of| ==> r[v] == if v in scc then Some(id) else of[v]
  {
    seq(|of|, v requires 0 <= v < |of| => if v in scc then Some(id) else of[v])
  }

  lemma PopOne(onStack: seq<bool>, of: seq<Option<nat>>, w: nat, scc: seq<nat>, id: nat)
    requires w < |onStack| && w < |of|
    ensures Clear(onStack, [w] + scc) == Clear(onStack, scc)[w := false]
    ensures Assign(of, [w] + scc, id) == Assign(of, scc, id)[w := Some(id)]
    ensures Reverse([w] + scc) == Reverse(scc) + [w]
  {
  }

  lemma NothingPopped(onStack: seq<bool>, of: seq<Option<nat>>, id: nat)
    ensures Clear(onStack, []) == onStack && Assign(of, [], id) == of && Reverse([]) == []
  {
  }

  // Popping the stack from position p upwards into a new component.
  ghost function Emit(s: State, p: nat): State
    requires p < |s.stack| && |s.onStack| == |s.of|
  {
    s.(stack := s.stack[..p],
       onStack := Clear(s.onStack, s.stack[p..]),
       of := Assign(s.of, s.stack[p..], |s.order|),
       order := s.order + [Reverse(s.stack[p..])])
  }

  // ----- each step keeps the invariant -----

  lemma LiveReachesTop(g: Graph, s: State, y: nat)
    requires Numbered(g, s) && Stacked(g, s) && Framed(g, s) && Upward(g, s) && Anchored(g, s)
    requires |s.frames| > 0 && s.Live(y)
    ensures Reach(g, y, Top(s))
  {
    hide Reach;
    assert HasAnchor(g, s, y);
    var j: nat :| Anchor(g, s, y, j);
    assert s.Num(s.frames[j].0) <= s.Num(Top(s));
    ReachTrans(g, y, s.frames[j].0, Top(s));
  }

  lemma DiscoverKeeps(g: Graph, s: State, w: nat)
    requires Inv(g, s) && w < |g.edges| && !s.Seen(w)
    requires |s.frames| > 0 ==> HasEdge(g, Top(s), w)
    ensures Inv(g, Discover(s, w))
  {
    hide Reach, HasEdge;
    DiscoverShape(g, s, w);
    DiscoverReach(g, s, w);
    DiscoverTight(g, s, w);
  }

  lemma DiscoverShape(g: Graph, s: State, w: nat)
    requires Sizes(g, s) && Numbered(g, s) && Stacked(g, s) && Framed(g, s) && Cursors(g, s) && Emitted(g, s)
    requires w < |g.edges| && !s.Seen(w)
    ensures var t := Discover(s, w);
            Sizes(g, t) && Numbered(g, t) && Stacked(g, t) && Framed(g, t) && Cursors(g, t) && Emitted(g, t)
  {
    hide *;
    DiscoverStacked(g, s, w);
    DiscoverFramed(g, s, w);
    DiscoverCursors(g, s, w);
    DiscoverEmitted(g, s, w);
  }

  // What a step leaves of the three per-node views.
  ghost predicate SameNumbers(s: State, t: State) {
    && (forall v: nat :: t.Seen(v) <==> s.Seen(v))
    && (forall v: nat :: s.Seen(v) && t.Seen(v) ==> t.Num(v) == s.Num(v))
  }

  lemma DiscoverView(s: State, w: nat)
    requires w < |s.index| == |s.low| == |s.onStack| && !s.Seen(w)
    ensures var t := Discover(s, w);
            && (forall v: nat :: t.Seen(v) <==> s.Seen(v) || v == w)
            && (forall v: nat :: t.Live(v) <==> s.Live(v) || v == w)
            && (forall v: nat :: s.Seen(v) && t.Seen(v) ==> t.Num(v) == s.Num(v))
            && t.Num(w) == s.next
  {
  }

  lemma DiscoverStacked(g: Graph, s: State, w: nat)
    requires Sizes(g, s) && Numbered(g, s) && Stacked(g, s)
    requires w < |g.edges| && !s.Seen(w)
    ensures var t := Discover(s, w); Sizes(g, t) && Numbered(g, t) && Stacked(g, t)
  {
    var t := Discover(s, w);
    DiscoverView(s, w);
    forall v: nat | t.Live(v)
      ensures v in t.stack
    {
      if v == w { assert t.stack[|s.stack|] == w; } else { assert v in s.stack; }
    }
  }

  lemma DiscoverFramed(g: Graph, s: State, w: nat)
    requires Sizes(g, s) && Numbered(g, s) && Framed(g, s) && Cursors(g, s)
    requires w < |g.edges| && !s.Seen(w)
    ensures Framed(g, Discover(s, w))
  {
    hide IsFrame;
    DiscoverView(s, w);
  }

  lemma DiscoverCursors(g: Graph, s: State, w: nat)
    requires Sizes(g, s) && Cursors(g, s)
    requires w < |g.edges| && !s.Seen(w)
    ensures Sizes(g, Discover(s, w)) && Cursors(g, Discover(s, w))
  {
    var t := Discover(s, w);
    DiscoverView(s, w);
    assert t.frames[|s.frames|].0 == w;
    forall v: nat | IsFrame(s, v)
      ensures IsFrame(t, v)
    {
      var j :| 0 <= j < |s.frames| && s.frames[j].0 == v;
      assert t.frames[j].0 == v;
    }
  }

  lemma DiscoverEmitted(g: Graph, s: State, w: nat)
    requires Sizes(g, s) && Stacked(g, s) && Emitted(g, s)
    requires w < |g.edges| && !s.Seen(w)
    ensures Sizes(g, Discover(s, w)) && Emitted(g, Discover(s, w))
  {
    hide Reach, HasEdge, Mutual, Stacked;
  }

  lemma DiscoverReach(g: Graph, s: State, w: nat)
    requires Inv(g, s) && w < |g.edges| && !s.Seen(w)
    requires |s.frames| > 0 ==> HasEdge(g, Top(s), w)
    ensures Upward(g, Discover(s, w)) && Anchored(g, Discover(s, w)) && LowSound(g, Discover(s, w))
  {
    DiscoverUpward(g, s, w);
    DiscoverAnchors(g, s, w);
    DiscoverLows(g, s, w);
  }

  lemma DiscoverUpward(g: Graph, s: State, w: nat)
    requires Inv(g, s) && w < |g.edges| && !s.Seen(w)
    requires |s.frames| > 0 ==> HasEdge(g, Top(s), w)
    ensures Upward(g, Discover(s, w))
  {
    hide Reach, HasEdge, Cursors, Emitted, LowSound, LowTight;
    DiscoverView(s, w);
    ReachRefl(g, w);
    forall x: nat | s.Live(x)
      ensures Reach(g, x, w)
    {
      assert HasAnchor(g, s, x);
      LiveReachesTop(g, s, x);
      ReachEdge(g, Top(s), w);
      ReachTrans(g, x, Top(s), w);
    }
  }

  lemma DiscoverAnchors(g: Graph, s: State, w: nat)
    requires Inv(g, s) && w < |g.edges| && !s.Seen(w)
    ensures Anchored(g, Discover(s, w))
  {
    hide Reach, HasEdge, Cursors, Emitted, LowSound, LowTight, Upward;
    var t := Discover(s, w);
    DiscoverView(s, w);
    ReachRefl(g, w);
    forall y: nat | t.Live(y)
      ensures HasAnchor(g, t, y)
    {
      if y == w {
        assert Anchor(g, t, w, |s.frames|);
      } else {
        assert HasAnchor(g, s, y);
        var j: nat :| Anchor(g, s, y, j);
        assert Anchor(g, t, y, j);
      }
    }
  }

  lemma DiscoverLows(g: Graph, s: State, w: nat)
    requires Inv(g, s) && w < |g.edges| && !s.Seen(w)
    ensures LowSound(g, Discover(s, w))
  {
    hide Reach, HasEdge, Cursors, Emitted, LowTight, Upward, Anchored;
    var t := Discover(s, w);
    DiscoverView(s, w);
    ReachRefl(g, w);
    forall j | 0 <= j < |t.frames|
      ensures HasLow(g, t, t.frames[j].0)
    {
      if j == |s.frames| {
        assert LowWitness(g, t, w, w);
      } else {
        assert HasLow(g, s, s.frames[j].0);
        var x: nat :| LowWitness(g, s, s.frames[j].0, x);
        assert LowWitness(g, t, t.frames[j].0, x);
      }
    }
  }

  lemma DiscoverTight(g: Graph, s: State, w: nat)
    requires Sizes(g, s) && Numbered(g, s) && Stacked(g, s) && Framed(g, s) && Cursors(g, s) && LowTight(g, s)
    requires w < |g.edges| && !s.Seen(w)
    ensures LowTight(g, Discover(s, w))
  {
    hide Reach, HasEdge;
    var t := Discover(s, w);
    forall j: nat, u: nat, e: nat | InSegment(t, j, u) && u < |g.edges| && 0 <= e < t.done[u] && e < |g.edges[u]| &&
                     g.edges[u][e].Node? && t.Live(g.edges[u][e].target) && t.Seen(g.edges[u][e].target)
      ensures t.frames[j].0 < |t.low| && t.low[t.frames[j].0] <= t.Num(g.edges[u][e].target)
    {
      var x := g.edges[u][e].target;
      assert u != w;
      assert s.Seen(x) && x != w;
      assert j < |s.frames|;
      assert InSegment(s, j, u);
    }
  }

  lemma AdvanceKeeps(g: Graph, s: State, j: nat)
    requires Inv(g, s) && j < |s.frames|
    requires var (v, ei) := s.frames[j];
             && ei < |g.edges[v]|
             && (g.edges[v][ei].Node? ==>
                   var w := g.edges[v][ei].target;
                   s.Seen(w) && (s.Live(w) ==> s.low[v] <= s.Num(w)))
    ensures Inv(g, Advance(s, j))
  {
    hide Reach, HasEdge, Mutual, Emitted, Upward, Anchored, LowSound, LowTight;
    AdvanceCursors(g, s, j);
    AdvanceFramed(g, s, j);
    AdvanceReach(g, s, j);
    AdvanceTight(g, s, j);
  }

  lemma AdvanceCursors(g: Graph, s: State, j: nat)
    requires Sizes(g, s) && Cursors(g, s) && Framed(g, s) && j < |s.frames|
    requires var (v, ei) := s.frames[j];
             ei < |g.edges[v]| && (g.edges[v][ei].Node? ==> s.Seen(g.edges[v][ei].target))
    ensures Cursors(g, Advance(s, j))
  {
    var t := Advance(s, j);
    forall v: nat | IsFrame(s, v)
      ensures IsFrame(t, v)
    {
      var i :| 0 <= i < |s.frames| && s.frames[i].0 == v;
      assert t.frames[i].0 == v;
    }
    assert t.frames[j].0 == s.frames[j].0;
  }

  lemma AdvanceFramed(g: Graph, s: State, j: nat)
    requires Sizes(g, s) && Numbered(g, s) && Framed(g, s) && j < |s.frames|
    ensures Framed(g, Advance(s, j))
  {
    var t := Advance(s, j);
    forall i | 0 <= i < |s.frames|
      ensures t.done[t.frames[i].0] == t.frames[i].1
    {
      if i != j { assert s.frames[i].0 != s.frames[j].0; }
    }
  }

  lemma AdvanceReach(g: Graph, s: State, j: nat)
    requires Inv(g, s) && j < |s.frames|
    ensures var t := Advance(s, j);
            Emitted(g, t) && Upward(g, t) && Anchored(g, t) && LowSound(g, t)
  {
    hide Reach, HasEdge, Mutual, Cursors, Stacked, LowTight, Numbered, LowSound, Anchored;
    AdvanceAnchors(g, s, j);
    AdvanceLows(g, s, j);
  }

  lemma AdvanceAnchors(g: Graph, s: State, j: nat)
    requires Inv(g, s) && j < |s.frames|
    ensures Anchored(g, Advance(s, j))
  {
    hide Reach, HasEdge, Mutual, Cursors, Emitted, LowTight, Stacked, Numbered, LowSound, Upward;
    var t := Advance(s, j);
    forall y: nat | t.Live(y)
      ensures HasAnchor(g, t, y)
    {
      assert HasAnchor(g, s, y);
      var i: nat :| Anchor(g, s, y, i);
      assert Anchor(g, t, y, i);
    }
  }

  lemma AdvanceLows(g: Graph, s: State, j: nat)
    requires Inv(g, s) && j < |s.frames|
    ensures LowSound(g, Advance(s, j))
  {
    hide Reach, HasEdge, Mutual, Cursors, Emitted, LowTight, Stacked, Numbered, Anchored, Upward;
    var t := Advance(s, j);
    forall i | 0 <= i < |t.frames|
      ensures HasLow(g, t, t.frames[i].0)
    {
      assert HasLow(g, s, s.frames[i].0);
      var x: nat :| LowWitness(g, s, s.frames[i].0, x);
      assert LowWitness(g, t, t.frames[i].0, x);
    }
  }

  lemma AdvanceTight(g: Graph, s: State, j: nat)
    requires Sizes(g, s) && Numbered(g, s) && Framed(g, s) && LowTight(g, s) && j < |s.frames|
    requires var (v, ei) := s.frames[j];
             && ei < |g.edges[v]|
             && (g.edges[v][ei].Node? ==>
                   var w := g.edges[v][ei].target;
                   s.Seen(w) && (s.Live(w) ==> s.low[v] <= s.Num(w)))
    ensures LowTight(g, Advance(s, j))
  {
    var t := Advance(s, j);
    forall i: nat, u: nat, e: nat | InSegment(t, i, u) && u < |g.edges| && 0 <= e < t.done[u] && e < |g.edges[u]| &&
                     g.edges[u][e].Node? && t.Live(g.edges[u][e].target) && t.Seen(g.edges[u][e].target)
      ensures t.frames[i].0 < |t.low| && t.low[t.frames[i].0] <= t.Num(g.edges[u][e].target)
    {
      assert InSegment(s, i, u);
    }
  }

  // Lowering a frame to the number of a live node it reaches.
  lemma LowerKeeps(g: Graph, s: State, j: nat, w: nat)
    requires Inv(g, s) && j < |s.frames| && s.Live(w) && Reach(g, s.frames[j].0, w)
    ensures Inv(g, Lower(s, s.frames[j].0, s.Num(w)))
  {
    hide Reach, HasEdge, Mutual;
    LowerTight(g, s, s.frames[j].0, s.Num(w));
    LowerReach(g, s, j, w);
    LowerShape(g, s, s.frames[j].0, s.Num(w));
  }

  lemma LowerShape(g: Graph, s: State, v: nat, k: nat)
    requires Inv(g, s) && v < |s.low|
    ensures var t := Lower(s, v, k);
            && Sizes(g, t) && Numbered(g, t) && Stacked(g, t) && Framed(g, t) && Cursors(g, t)
            && Emitted(g, t) && Upward(g, t)
  {
    hide Reach, HasEdge, Mutual, LowTight, LowSound, Anchored;
    var t := Lower(s, v, k);
    assert forall x: nat :: IsFrame(t, x) <==> IsFrame(s, x);
    assert SameNumbers(s, t);
    assert forall x: nat :: s.Live(x) <==> t.Live(x);
    assert Stacked(g, t) by { assert forall x: nat {:trigger x in t.stack} :: t.Live(x) ==> x in s.stack; }
  }

  lemma LowerReach(g: Graph, s: State, j: nat, w: nat)
    requires Inv(g, s) && j < |s.frames| && s.Live(w) && Reach(g, s.frames[j].0, w)
    ensures var t := Lower(s, s.frames[j].0, s.Num(w)); Anchored(g, t) && LowSound(g, t)
  {
    hide Reach, HasEdge, Mutual, Cursors, Emitted, LowTight, Upward;
    var v := s.frames[j].0;
    var t := Lower(s, v, s.Num(w));
    forall y: nat | t.Live(y)
      ensures HasAnchor(g, t, y)
    {
      assert HasAnchor(g, s, y);
      var i: nat :| Anchor(g, s, y, i);
      assert Anchor(g, t, y, i);
    }
    forall i | 0 <= i < |t.frames|
      ensures HasLow(g, t, t.frames[i].0)
    {
      assert HasLow(g, s, s.frames[i].0);
      var x: nat :| LowWitness(g, s, s.frames[i].0, x);
      if s.frames[i].0 == v && s.Num(w) < s.low[v] {
        assert LowWitness(g, t, t.frames[i].0, w);
      } else {
        assert LowWitness(g, t, t.frames[i].0, x);
      }
    }
  }

  lemma LowerTight(g: Graph, s: State, v: nat, k: nat)
    requires Sizes(g, s) && LowTight(g, s) && v < |s.low|
    ensures LowTight(g, Lower(s, v, k))
  {
    var t := Lower(s, v, k);
    assert forall i: nat, u: nat :: InSegment(t, i, u) <==> InSegment(s, i, u);
  }

  // ----- leaving a node -----

  // The live node behind the top frame's low value, and an older frame it reaches.
  lemma LowTarget(g: Graph, s: State) returns (w: nat, i: nat)
    requires Inv(g, s) && |s.frames| > 0 && s.low[Top(s)] < s.Num(Top(s))
    ensures |s.frames| >= 2 && LowWitness(g, s, Top(s), w) && Anchor(g, s, w, i)
    ensures Top(s) < |s.low| && s.frames[|s.frames| - 2].0 < |s.low| && Top(s) != s.frames[|s.frames| - 2].0
    ensures Reach(g, s.frames[|s.frames| - 2].0, w)
  {
    hide Reach, HasEdge, Mutual, Cursors, Emitted, LowTight;
    var k, v := |s.frames| - 1, Top(s);
    assert HasLow(g, s, s.frames[k].0);
    w :| LowWitness(g, s, v, w);
    assert HasAnchor(g, s, w);
    i :| Anchor(g, s, w, i);
    var p := s.frames[k - 1].0;
    assert s.Num(p) < s.Num(v);
    ReachTrans(g, p, v, w);
  }

  // A finished top frame whose low value is older than itself is not a root.
  lemma RetreatKeeps(g: Graph, s: State)
    requires Inv(g, s) && |s.frames| > 0
    requires s.frames[|s.frames| - 1].1 == |g.edges[Top(s)]| && s.low[Top(s)] < s.Num(Top(s))
    ensures |s.frames| >= 2 && Inv(g, Retreat(s))
  {
    hide Reach, HasEdge, Mutual, Numbered, Stacked, Framed, Cursors, Emitted, Upward, Anchored, LowSound, LowTight;
    var w, i := LowTarget(g, s);
    var k, v := |s.frames| - 1, Top(s);
    var p := s.frames[k - 1].0;
    var t := Lower(s, p, s.low[v]);
    LowerKeeps(g, s, k - 1, w);
    LowerLeaves(s, p, v, s.low[v]);
    assert Anchor(g, t, w, i);
    DropKeeps(g, t, i, w);
    assert Retreat(s) == t.(frames := t.frames[..k]);
  }

  lemma LowerLeaves(s: State, p: nat, v: nat, k: nat)
    requires p < |s.low| && v < |s.low| && p != v
    ensures Lower(s, p, k).low[v] == s.low[v] && Lower(s, p, k).low[p] <= k
  {
  }

  // Dropping a finished top frame whose low value has reached its parent.
  lemma DropKeeps(g: Graph, s: State, i: nat, w: nat)
    requires Inv(g, s) && |s.frames| >= 2
    requires s.frames[|s.frames| - 1].1 == |g.edges[Top(s)]|
    requires s.low[s.frames[|s.frames| - 2].0] <= s.low[Top(s)] < s.Num(Top(s))
    requires LowWitness(g, s, Top(s), w) && Anchor(g, s, w, i)
    ensures Inv(g, s.(frames := s.frames[..|s.frames| - 1]))
  {
    hide Reach, HasEdge, Mutual;
    DropShape(g, s);
    DropTight(g, s);
    DropReach(g, s, i, w);
  }

  lemma DropShape(g: Graph, s: State)
    requires Sizes(g, s) && Numbered(g, s) && Stacked(g, s) && Framed(g, s) && Cursors(g, s) && Emitted(g, s)
    requires |s.frames| >= 1 && s.frames[|s.frames| - 1].1 == |g.edges[Top(s)]|
    ensures var t := s.(frames := s.frames[..|s.frames| - 1]);
            && Sizes(g, t) && Numbered(g, t) && Stacked(g, t) && Framed(g, t) && Cursors(g, t) && Emitted(g, t)
  {
    hide Reach, HasEdge, Mutual;
    var t := s.(frames := s.frames[..|s.frames| - 1]);
    assert SameNumbers(s, t);
    assert forall x: nat :: s.Live(x) <==> t.Live(x);
    assert Stacked(g, t) by { assert forall x: nat {:trigger x in t.stack} :: t.Live(x) ==> x in s.stack; }
    forall x: nat | IsFrame(s, x) && x != Top(s)
      ensures IsFrame(t, x)
    {
      var i :| 0 <= i < |s.frames| && s.frames[i].0 == x;
      assert t.frames[i].0 == x;
    }
  }

  lemma DropTight(g: Graph, s: State)
    requires Sizes(g, s) && Framed(g, s) && LowTight(g, s) && |s.frames| >= 2
    requires s.low[s.frames[|s.frames| - 2].0] <= s.low[Top(s)]
    ensures LowTight(g, s.(frames := s.frames[..|s.frames| - 1]))
  {
    var t := s.(frames := s.frames[..|s.frames| - 1]);
    forall j: nat, u: nat | InSegment(t, j, u)
      ensures InSegment(s, j, u) || (j == |s.frames| - 2 && InSegment(s, j + 1, u))
    {
    }
  }

  lemma DropReach(g: Graph, s: State, i: nat, w: nat)
    requires Inv(g, s) && |s.frames| >= 2
    requires s.low[Top(s)] < s.Num(Top(s))
    requires LowWitness(g, s, Top(s), w) && Anchor(g, s, w, i)
    ensures var t := s.(frames := s.frames[..|s.frames| - 1]);
            Upward(g, t) && Anchored(g, t) && LowSound(g, t)
  {
    hide Reach, HasEdge, Mutual, Cursors, Emitted, LowTight, Stacked, Numbered, Anchored, LowSound;
    DropAnchors(g, s, i, w);
    DropLows(g, s);
  }

  lemma DropAnchors(g: Graph, s: State, i: nat, w: nat)
    requires Inv(g, s) && |s.frames| >= 2
    requires s.low[Top(s)] < s.Num(Top(s))
    requires LowWitness(g, s, Top(s), w) && Anchor(g, s, w, i)
    ensures Anchored(g, s.(frames := s.frames[..|s.frames| - 1]))
  {
    hide Reach, HasEdge, Mutual, Cursors, Emitted, LowTight, Stacked, Numbered, LowSound, Upward;
    var t := s.(frames := s.frames[..|s.frames| - 1]);
    forall y: nat | t.Live(y)
      ensures HasAnchor(g, t, y)
    {
      assert HasAnchor(g, s, y);
      var j: nat :| Anchor(g, s, y, j);
      if j == |s.frames| - 1 {
        ReachTrans(g, y, Top(s), w);
        ReachTrans(g, y, w, s.frames[i].0);
        assert Anchor(g, t, y, i);
      } else {
        assert Anchor(g, t, y, j);
      }
    }
  }

  lemma DropLows(g: Graph, s: State)
    requires Sizes(g, s) && LowSound(g, s) && |s.frames| >= 2
    ensures LowSound(g, s.(frames := s.frames[..|s.frames| - 1]))
  {
    hide Reach;
    var t := s.(frames := s.frames[..|s.frames| - 1]);
    forall j | 0 <= j < |t.frames|
      ensures HasLow(g, t, t.frames[j].0)
    {
      assert HasLow(g, s, s.frames[j].0);
      var x: nat :| LowWitness(g, s, s.frames[j].0, x);
      assert LowWitness(g, t, t.frames[j].0, x);
    }
  }

  // ----- closing a component -----

  // The stack from the root's position up holds the live nodes at least as young.
  ghost predicate RootAt(g: Graph, s: State, p: nat) {
    && Inv(g, s) && |s.frames| > 0
    && s.frames[|s.frames| - 1].1 == |g.edges[Top(s)]|
    && s.low[Top(s)] == s.Num(Top(s))
    && p < |s.stack| && s.stack[p] == Top(s)
  }

  ghost predicate Younger(s: State, u: nat)
    requires |s.frames| > 0
  {
    s.Live(u) && s.Seen(u) && s.Seen(Top(s)) && s.Num(Top(s)) <= s.Num(u)
  }

  lemma Cut(g: Graph, s: State, p: nat)
    requires RootAt(g, s, p)
    ensures forall u: nat :: u in s.stack[p..] <==> Younger(s, u)
    ensures forall u: nat :: u in s.stack[..p] <==> s.Live(u) && !Younger(s, u)
  {
    hide Reach, HasEdge, Mutual, Cursors, Emitted, LowTight, Upward, Anchored, LowSound;
    forall u: nat | Younger(s, u)
      ensures u in s.stack[p..]
    {
      assert u in s.stack;
      var i :| 0 <= i < |s.stack| && s.stack[i] == u;
      assert i >= p;
      assert s.stack[p..][i - p] == u;
    }
    forall u: nat | s.Live(u) && !Younger(s, u)
      ensures u in s.stack[..p]
    {
      assert u in s.stack;
      var i :| 0 <= i < |s.stack| && s.stack[i] == u;
      assert i < p;
      assert s.stack[..p][i] == u;
    }
  }

  lemma RootFinished(g: Graph, s: State, p: nat, u: nat)
    requires RootAt(g, s, p) && Younger(s, u)
    ensures s.done[u] == |g.edges[u]|
  {
    hide Reach, HasEdge, Mutual, Emitted, LowTight, Upward, Anchored, LowSound, Stacked;
    if IsFrame(s, u) {
      var j :| 0 <= j < |s.frames| && s.frames[j].0 == u;
    }
  }

  // Edges out of the closing component stay in it or lead to assigned nodes.
  lemma RootClosed(g: Graph, s: State, p: nat, u: nat, w: nat)
    requires RootAt(g, s, p) && Younger(s, u) && HasEdge(g, u, w)
    ensures Younger(s, w) || s.Assigned(w)
  {
    hide Reach, Mutual, Upward, Anchored, LowSound, Stacked, Numbered;
    RootFinished(g, s, p, u);
    var e :| 0 <= e < |g.edges[u]| && g.edges[u][e] == Edge.Node(w);
    assert InSegment(s, |s.frames| - 1, u);
  }

  lemma AssignedClosed(g: Graph, s: State, a: nat, b: nat)
    requires Sizes(g, s) && Emitted(g, s) && s.Assigned(a) && Reach(g, a, b)
    ensures s.Assigned(b)
  {
    hide Reach, HasEdge, Mutual;
    var c := set u: nat | u < |g.edges| && s.Assigned(u);
    assert SuccessorClosed(g, c);
    StaysInside(g, c, a, b);
  }

  lemma RootComponent(g: Graph, s: State, p: nat, a: nat, b: nat)
    requires RootAt(g, s, p) && Younger(s, a) && b < |g.edges|
    ensures Mutual(g, a, b) <==> Younger(s, b)
  {
    hide Reach, HasEdge, Cursors, LowSound, LowTight;
    if Younger(s, b) {
      assert s.Live(Top(s));
      LiveReachesTop(g, s, a);
      LiveReachesTop(g, s, b);
      ReachTrans(g, a, Top(s), b);
      ReachTrans(g, b, Top(s), a);
    }
    if Mutual(g, a, b) {
      var c := set u: nat | u < |g.edges| && (Younger(s, u) || s.Assigned(u));
      forall u: nat, w: nat | u in c && HasEdge(g, u, w)
        ensures w in c
      {
        if Younger(s, u) { RootClosed(g, s, p, u, w); }
      }
      StaysInside(g, c, a, b);
      if s.Assigned(b) { AssignedClosed(g, s, b, a); }
    }
  }

  lemma EmitView(g: Graph, s: State, p: nat)
    requires RootAt(g, s, p)
    ensures var t := Emit(s, p);
            && SameNumbers(s, t)
            && (forall v: nat :: t.Live(v) <==> s.Live(v) && !Younger(s, v))
            && (forall v: nat :: t.Assigned(v) <==> s.Assigned(v) || Younger(s, v))
            && (forall v: nat :: t.Assigned(v) ==>
                  t.of[v] == if Younger(s, v) then Some(|s.order|) else s.of[v])
  {
    hide Reach, HasEdge, Mutual, Cursors, LowTight, Upward, Anchored, LowSound, Numbered, Framed;
    Cut(g, s, p);
  }

  lemma EmitKeeps(g: Graph, s: State, p: nat)
    requires RootAt(g, s, p)
    ensures |s.frames| > 1 ==> s.frames[|s.frames| - 2].0 < |s.low|
    ensures Inv(g, Emit(Retreat(s), p))
  {
    hide Reach, HasEdge, Mutual, Cursors, Emitted, LowTight, Upward, Anchored, Stacked;
    var t := Emit(Retreat(s), p);
    assert Retreat(s).low == s.low by {
      if |s.frames| > 1 {
        assert HasLow(g, s, s.frames[|s.frames| - 2].0);
        assert s.Num(s.frames[|s.frames| - 2].0) < s.Num(Top(s));
      }
    }
    var e := Emit(s, p);
    assert t == e.(frames := s.frames[..|s.frames| - 1]);
    EmitShape(g, s, p);
    EmitEmitted(g, s, p);
    EmitReach(g, s, p);
  }

  lemma EmitShape(g: Graph, s: State, p: nat)
    requires RootAt(g, s, p)
    ensures var t := Emit(s, p).(frames := s.frames[..|s.frames| - 1]);
            Sizes(g, t) && Numbered(g, t) && Stacked(g, t) && Framed(g, t) && Cursors(g, t)
  {
    hide Reach, HasEdge, Mutual, LowTight, Upward, Anchored, LowSound;
    var t := Emit(s, p).(frames := s.frames[..|s.frames| - 1]);
    DropShape(g, s);
    EmitView(g, s, p);
    Cut(g, s, p);
    EmitStacked(g, s, p, t);
    EmitFramed(g, s, t);
    EmitCursors(g, s.(frames := s.frames[..|s.frames| - 1]), t);
  }

  lemma EmitStacked(g: Graph, s: State, p: nat, t: State)
    requires Numbered(g, s) && Stacked(g, s) && SameNumbers(s, t) && t.next == s.next
    requires p <= |s.stack| && t.stack == s.stack[..p]
    requires forall v: nat :: t.Live(v) <==> v in s.stack[..p]
    ensures Numbered(g, t) && Stacked(g, t)
  {
    assert forall v: nat :: t.Live(v) ==> v in t.stack;
    forall v: nat | t.Live(v)
      ensures t.Seen(v)
    {
      var i :| 0 <= i < p && s.stack[i] == v;
    }
  }

  lemma EmitFramed(g: Graph, s: State, t: State)
    requires |s.frames| > 0 && Framed(g, s) && SameNumbers(s, t)
    requires t.frames == s.frames[..|s.frames| - 1] && t.done == s.done
    requires forall v: nat :: t.Live(v) <==> s.Live(v) && !Younger(s, v)
    ensures Framed(g, t)
  {
  }

  lemma EmitCursors(g: Graph, s: State, t: State)
    requires Sizes(g, s) && Sizes(g, t) && Cursors(g, s) && SameNumbers(s, t)
    requires t.frames == s.frames && t.done == s.done
    ensures Cursors(g, t)
  {
    assert forall v: nat :: IsFrame(t, v) <==> IsFrame(s, v);
  }

  lemma EmitEmitted(g: Graph, s: State, p: nat)
    requires RootAt(g, s, p)
    ensures var t := Emit(s, p).(frames := s.frames[..|s.frames| - 1]);
            Sizes(g, t) && Emitted(g, t)
  {
    hide Reach, Mutual, Cursors, LowTight, Upward, Anchored, LowSound, Framed, HasEdge, Younger;
    var t := Emit(s, p).(frames := s.frames[..|s.frames| - 1]);
    EmitView(g, s, p);
    Cut(g, s, p);
    EmitOrder(g, s, p, t);
    EmitDistinct(g, s, p, t);
    forall v: nat, w: nat | t.Assigned(v) && HasEdge(g, v, w)
      ensures t.Assigned(w) && t.of[w].value <= t.of[v].value
    {
      if Younger(s, v) { RootClosed(g, s, p, v, w); }
    }
    forall v: nat, w: nat | t.Assigned(v) && 0 <= w < |g.edges|
      ensures Mutual(g, v, w) <==> t.of[w] == t.of[v]
    {
      if Younger(s, v) { RootComponent(g, s, p, v, w); }
      else if Younger(s, w) { RootComponent(g, s, p, w, v); MutualSymmetric(g, v, w); }
    }
  }

  lemma MutualSymmetric(g: Graph, v: nat, w: nat)
    ensures Mutual(g, v, w) <==> Mutual(g, w, v)
  {
    hide Reach;
  }

  // The component emitted lists the younger live nodes, each once.
  lemma EmittedList(g: Graph, s: State, p: nat)
    requires RootAt(g, s, p)
    ensures var emitted := Reverse(s.stack[p..]);
            && (forall v: nat :: v in emitted <==> Younger(s, v))
            && (forall i, j :: 0 <= i < j < |emitted| ==> emitted[i] != emitted[j])
  {
    hide Reach, Mutual, Cursors, LowTight, Upward, Anchored, LowSound, Framed, HasEdge, Numbered, Emitted, Younger,
      Reverse, Stacked;
    Cut(g, s, p);
    ReverseSame(s.stack[p..]);
    StackDistinct(g, s);
  }

  lemma ReverseSame(q: seq<nat>)
    ensures forall v :: v in Reverse(q) <==> v in q
  {
    hide Reverse;
    forall v | v in q ensures v in Reverse(q) {
      var i :| 0 <= i < |q| && q[i] == v;
      assert Reverse(q)[|q| - 1 - i] == v;
    }
  }

  lemma StackDistinct(g: Graph, s: State)
    requires Stacked(g, s)
    ensures forall i, j :: 0 <= i < j < |s.stack| ==> s.stack[i] != s.stack[j]
  {
  }

  lemma EmitDistinct(g: Graph, s: State, p: nat, t: State)
    requires RootAt(g, s, p) && t == Emit(s, p).(frames := s.frames[..|s.frames| - 1])
    ensures forall k, i, j :: 0 <= k < |t.order| && 0 <= i < j < |t.order[k]| ==>
              t.order[k][i] != t.order[k][j]
  {
    hide Reach, Mutual, Cursors, LowTight, Upward, Anchored, LowSound, Framed, HasEdge, Numbered, Younger, Stacked,
      Reverse;
    EmittedList(g, s, p);
    assert t.order[|s.order|] == Reverse(s.stack[p..]) && forall k :: 0 <= k < |s.order| ==> t.order[k] == s.order[k];
  }

  lemma EmitOrder(g: Graph, s: State, p: nat, t: State)
    requires RootAt(g, s, p) && t == Emit(s, p).(frames := s.frames[..|s.frames| - 1])
    ensures forall v: nat :: t.Assigned(v) <==> t.Seen(v) && !t.Live(v)
    ensures forall v: nat :: t.Assigned(v) ==> t.of[v].value < |t.order| && v in t.order[t.of[v].value]
    ensures forall k, i :: 0 <= k < |t.order| && 0 <= i < |t.order[k]| ==>
              t.Assigned(t.order[k][i]) && t.of[t.order[k][i]].value == k
  {
    hide Reach, Mutual, Cursors, LowTight, Upward, Anchored, LowSound, Framed, HasEdge, Numbered, Reverse;
    EmitView(g, s, p);
    EmittedList(g, s, p);
    assert t.order[|s.order|] == Reverse(s.stack[p..]);
  }

  lemma EmitReach(g: Graph, s: State, p: nat)
    requires RootAt(g, s, p)
    ensures var t := Emit(s, p).(frames := s.frames[..|s.frames| - 1]);
            Sizes(g, t) && Upward(g, t) && Anchored(g, t) && LowSound(g, t) && LowTight(g, t)
  {
    hide Reach, HasEdge, Mutual, Cursors, Emitted, Stacked, LowTight, Numbered, Anchored, LowSound, Framed;
    var t := Emit(s, p).(frames := s.frames[..|s.frames| - 1]);
    EmitView(g, s, p);
    EmitAnchored(g, s, t);
    EmitLow(g, s, t);
    EmitTight(g, s, t);
  }

  // The parts of an emission that the reachability clauses see.
  ghost predicate Emitting(s: State, t: State) {
    && |s.frames| > 0 && t.frames == s.frames[..|s.frames| - 1]
    && t.low == s.low && t.done == s.done && SameNumbers(s, t)
    && (forall v: nat :: t.Live(v) <==> s.Live(v) && !Younger(s, v))
  }

  lemma EmitAnchored(g: Graph, s: State, t: State)
    requires Framed(g, s) && Anchored(g, s) && Emitting(s, t)
    ensures Anchored(g, t)
  {
    hide Reach;
    forall y: nat | t.Live(y)
      ensures HasAnchor(g, t, y)
    {
      assert HasAnchor(g, s, y);
      var j: nat :| Anchor(g, s, y, j);
      assert !Younger(s, y);
      assert s.Seen(Top(s)) && j != |s.frames| - 1;
      assert Anchor(g, t, y, j);
    }
  }

  lemma EmitLow(g: Graph, s: State, t: State)
    requires Sizes(g, s) && Sizes(g, t) && Framed(g, s) && LowSound(g, s) && Emitting(s, t)
    ensures LowSound(g, t)
  {
    hide Reach;
    forall j | 0 <= j < |t.frames|
      ensures HasLow(g, t, t.frames[j].0)
    {
      assert HasLow(g, s, s.frames[j].0);
      var x: nat :| LowWitness(g, s, s.frames[j].0, x);
      assert LowWitness(g, t, t.frames[j].0, x);
    }
  }

  lemma EmitTight(g: Graph, s: State, t: State)
    requires Sizes(g, s) && Sizes(g, t) && Framed(g, s) && LowTight(g, s) && Emitting(s, t)
    ensures LowTight(g, t)
  {
    forall j: nat, u: nat | InSegment(t, j, u)
      ensures InSegment(s, j, u)
    {
      assert !Younger(s, u);
    }
  }

  // ----- the pass -----

  // What `components` promises: `of` numbers the mutual-reachability classes,
  // `order` lists each class once and without repetition, and no edge leads to
  // a later class.
  ghost predicate Components(g: Graph, of: seq<Option<nat>>, order: seq<seq<nat>>) {
    && g.Closed() && |of| == |g.edges|
    && (forall v: nat :: v < |of| ==> of[v].Some? && of[v].value < |order| && v in order[of[v].value])
    && (forall k, i :: 0 <= k < |order| && 0 <= i < |order[k]| ==>
          order[k][i] < |of| && of[order[k][i]] == Some(k))
    && (forall k, i, j :: 0 <= k < |order| && 0 <= i < j < |order[k]| ==> order[k][i] != order[k][j])
    && (forall v: nat, w: nat :: v < |of| && w < |of| ==> (Mutual(g, v, w) <==> of[w] == of[v]))
    && (forall v: nat, w: nat :: HasEdge(g, v, w) && v < |of| && w < |of| && of[v].Some? && of[w].Some? ==>
          of[w].value <= of[v].value)
  }

  ghost function Unseen(s: State): set<nat> {
    set v | 0 <= v < |s.index| && !s.Seen(v)
  }

  // Edges and frames still to be handled.
  ghost function Work(g: Graph, frames: seq<(nat, nat)>): nat {
    if |frames| == 0 then 0
    else
      var (v, ei) := frames[|frames| - 1];
      Work(g, frames[..|frames| - 1]) + 1 + if v < |g.edges| && ei < |g.edges[v]| then |g.edges[v]| - ei else 0
  }

  lemma WorkAdvance(g: Graph, s: State)
    requires |s.frames| > 0 && Top(s) < |g.edges| == |s.done|
    requires s.frames[|s.frames| - 1].1 < |g.edges[Top(s)]|
    ensures Work(g, Advance(s, |s.frames| - 1).frames) < Work(g, s.frames)
  {
    var k := |s.frames| - 1;
    assert Advance(s, k).frames[..k] == s.frames[..k];
  }

  lemma DiscoverShrinks(s: State, w: nat)
    requires w < |s.index| == |s.low| == |s.onStack| && !s.Seen(w)
    ensures Unseen(Discover(s, w)) < Unseen(s)
  {
    DiscoverView(s, w);
    assert w in Unseen(s) && w !in Unseen(Discover(s, w));
  }

  lemma NothingLive(g: Graph, s: State, v: nat)
    requires Inv(g, s) && |s.frames| == 0
    ensures !s.Live(v)
  {
    hide Reach, Mutual, HasEdge;
    assert s.Live(v) ==> HasAnchor(g, s, v);
  }

  lemma Finished(g: Graph, s: State)
    requires Inv(g, s) && |s.frames| == 0 && forall v: nat :: v < |g.edges| ==> s.Seen(v)
    ensures Components(g, s.of, s.order)
  {
    hide Reach, HasEdge, Mutual, Cursors, Upward, Anchored, LowSound, LowTight, Numbered, Stacked, Framed;
    forall v: nat | v < |g.edges|
      ensures s.Assigned(v)
    {
      NothingLive(g, s, v);
    }
    forall v: nat, w: nat | v < |s.of| && w < |s.of|
      ensures Mutual(g, v, w) <==> s.of[w] == s.of[v]
    {
      assert s.Assigned(v);
    }
    forall v: nat, w: nat | HasEdge(g, v, w) && v < |s.of| && w < |s.of| && s.of[v].Some? && s.of[w].Some?
      ensures s.of[w].value <= s.of[v].value
    {
      assert s.Assigned(v);
    }
    forall v: nat | v < |s.of|
      ensures s.of[v].Some? && s.of[v].value < |s.order| && v in s.order[s.of[v].value]
    {
      assert s.Assigned(v);
    }
    forall k, i | 0 <= k < |s.order| && 0 <= i < |s.order[k]|
      ensures s.order[k][i] < |s.of| && s.of[s.order[k][i]] == Some(k)
    {
      assert s.Assigned(s.order[k][i]);
    }
  }

  ghost function Start(g: Graph): State {
    var n := |g.edges|;
    State(seq(n, _ => None), seq(n, _ => 0), seq(n, _ => false), [], seq(n, _ => None), [], 0, [], seq(n, _ => 0))
  }

  lemma StartInv(g: Graph)
    requires g.Closed()
    ensures Inv(g, Start(g))
  {
    hide Reach, HasEdge, Mutual;
  }

  // One examined edge of the top frame.
  ghost function EdgeStep(g: Graph, s: State): State
    requires Sizes(g, s) && |s.frames| > 0 && Top(s) < |g.edges|
    requires s.frames[|s.frames| - 1].1 < |g.edges[Top(s)]|
  {
    var k := |s.frames| - 1;
    var e := g.edges[Top(s)][s.frames[k].1];
    if e.Node? && !s.Seen(e.target) && e.target < |g.edges| then Advance(Discover(s, e.target), k)
    else if e.Node? && s.Live(e.target) && s.Seen(e.target) then Advance(Lower(s, Top(s), s.Num(e.target)), k)
    else Advance(s, k)
  }

  lemma EdgeStepKeeps(g: Graph, s: State)
    requires Inv(g, s) && |s.frames| > 0 && Top(s) < |g.edges|
    requires s.frames[|s.frames| - 1].1 < |g.edges[Top(s)]|
    ensures Inv(g, EdgeStep(g, s))
  {
    hide Reach, Mutual, Cursors, Upward, Anchored, LowTight, Numbered, Stacked, Framed, Emitted;
    var k, v := |s.frames| - 1, Top(s);
    var e := g.edges[v][s.frames[k].1];
    assert HasLow(g, s, s.frames[k].0);
    if e.Node? {
      var w := e.target;
      assert HasEdge(g, v, w);
      ReachEdge(g, v, w);
      if !s.Seen(w) {
        DiscoverKeeps(g, s, w);
        TopOlder(g, s, w);
        AdvanceKeeps(g, Discover(s, w), k);
      } else if s.Live(w) {
        LowerKeeps(g, s, k, w);
        AdvanceKeeps(g, Lower(s, v, s.Num(w)), k);
      } else {
        AdvanceKeeps(g, s, k);
      }
    } else {
      AdvanceKeeps(g, s, k);
    }
  }

  lemma TopOlder(g: Graph, s: State, w: nat)
    requires Inv(g, s) && |s.frames| > 0 && w < |g.edges| && !s.Seen(w)
    ensures var t := Discover(s, w); Top(s) < |t.low| && t.Seen(w) && t.low[Top(s)] <= t.Num(w)
  {
    hide Reach, Mutual, Cursors, Upward, Anchored, LowTight, HasEdge, Emitted;
    assert HasLow(g, s, s.frames[|s.frames| - 1].0);
    DiscoverView(s, w);
  }

  // The vectors the pass allocates, viewed as a state.
  class Pass {
    const index: array<Option<nat>>
    const low: array<nat>
    const onStack: array<bool>
    const of: array<Option<nat>>
    var stack: seq<nat>
    var order: seq<seq<nat>>
    var next: nat
    var frames: seq<(nat, nat)>
    ghost var done: seq<nat>

    ghost function Repr(): set<object> { {this, index, low, onStack, of} }

    ghost predicate Separate() {
      low != index as object && of != low as object && index != of
    }

    ghost function View(): State
      reads this, index, low, onStack, of
    {
      State(index[..], low[..], onStack[..], stack, of[..], order, next, frames, done)
    }

    constructor (g: Graph)
      requires g.Closed()
      ensures fresh(Repr()) && Separate() && View() == Start(g) && Inv(g, View())
    {
      var n := |g.edges|;
      index := new Option<nat>[n](_ => None);
      low := new nat[n](_ => 0);
      onStack := new bool[n](_ => false);
      of := new Option<nat>[n](_ => None);
      stack, order, next, frames, done := [], [], 0, [], seq(n, _ => 0);
      new;
      assert View() == Start(g);
      StartInv(g);
    }

    // Number a node, push it on the stack and open a frame for it.
    method Open(w: nat)
      requires Separate() && w < index.Length == low.Length == onStack.Length
      modifies this`next, this`stack, this`frames, index, low, onStack
      ensures View() == Discover(old(View()), w)
    {
      index[w] := Some(next);
      low[w] := next;
      next := next + 1;
      stack := stack + [w];
      onStack[w] := true;
      frames := frames + [(w, 0)];
    }

    method Unstack(w: nat, id: nat)
      requires Separate() && w < onStack.Length == of.Length
      modifies onStack, of
      ensures onStack[..] == old(onStack[..])[w := false] && of[..] == old(of[..])[w := Some(id)]
    {
      onStack[w] := false;
      of[w] := Some(id);
    }

    // Pop the component of root v off the stack.
    method Close(v: nat, ghost p: nat)
      requires Separate() && onStack.Length == of.Length && p < |stack| && stack[p] == v
      requires forall i :: 0 <= i < |stack| ==> stack[i] < of.Length
      requires forall i :: p < i < |stack| ==> stack[i] != v
      modifies this`stack, this`order, onStack, of
      ensures View() == Emit(old(View()), p)
    {
      ghost var s := View();
      var scc := PopUntil(v, p);
      order := order + [scc];
      assert View() == Emit(s, p);
    }

    method PopUntil(v: nat, ghost p: nat) returns (scc: seq<nat>)
      requires Separate() && onStack.Length == of.Length && p < |stack| && stack[p] == v
      requires forall i :: 0 <= i < |stack| ==> stack[i] < of.Length
      requires forall i :: p < i < |stack| ==> stack[i] != v
      modifies this`stack, onStack, of
      ensures stack == old(stack[..p]) && scc == Reverse(old(stack[p..]))
      ensures onStack[..] == Clear(old(onStack[..]), old(stack[p..]))
      ensures of[..] == Assign(old(of[..]), old(stack[p..]), |order|)
    {
      hide Clear, Assign, Reverse;
      ghost var st, on, o := stack, onStack[..], of[..];
      var id := |order|;
      scc := [];
      NothingPopped(on, o, id);
      assert st[|st|..] == [];
      var open := true;
      while open
        invariant p <= |stack| <= |st| && stack == st[..|stack|] && |order| == id
        invariant open <==> |stack| > p
        invariant scc == Reverse(st[|stack|..])
        invariant onStack[..] == Clear(on, st[|stack|..])
        invariant of[..] == Assign(o, st[|stack|..], id)
        decreases |stack|
      {
        var w := stack[|stack| - 1];
        stack := stack[..|stack| - 1];
        PopOne(on, o, w, st[|stack| + 1..], id);
        assert st[|stack|..] == [w] + st[|stack| + 1..];
        Unstack(w, id);
        scc := scc + [w];
        open := w != v;
      }
    }

    // Examine the next edge of the top frame.
    method Examine(g: Graph)
      requires Separate() && Inv(g, View()) && |frames| > 0 && Top(View()) < |g.edges|
      requires frames[|frames| - 1].1 < |g.edges[Top(View())]|
      modifies Repr()
      ensures View() == EdgeStep(g, old(View()))
    {
      hide Numbered, Stacked, Emitted, Upward, Anchored, LowSound, LowTight;
      ghost var s := View();
      var k := |frames| - 1;
      var (v, ei) := frames[k];
      frames := frames[k := (v, ei + 1)];
      done := done[v := ei + 1];
      match g.edges[v][ei]
      case External(_) =>
      case Node(w) =>
        if index[w].None? {
          Open(w);
        } else if onStack[w] {
          low[v] := if index[w].value < low[v] then index[w].value else low[v];
        }
    }

    // Leave the finished top frame, closing its component if it is a root.
    method Leave(g: Graph)
      requires Separate() && Inv(g, View()) && |frames| > 0
      requires frames[|frames| - 1].1 == |g.edges[Top(View())]|
      modifies Repr()
      ensures Inv(g, View())
      ensures |frames| == |old(frames)| - 1 && frames == old(frames)[..|frames|]
      ensures forall v: nat :: View().Seen(v) <==> old(View()).Seen(v)
      ensures Unseen(View()) == Unseen(old(View()))
    {
      hide Numbered, Stacked, Emitted, Upward, Anchored, LowSound, LowTight, Cursors, Reach, HasEdge;
      ghost var s := View();
      var (v, ei) := frames[|frames| - 1];
      frames := frames[..|frames| - 1];
      if |frames| > 0 {
        var (p, pe) := frames[|frames| - 1];
        low[p] := if low[v] < low[p] then low[v] else low[p];
      }
      assert View() == Retreat(s);
      ghost var p := TopOnStack(g, s);
      if low[v] == index[v].value {
        Close(v, p);
        EmitKeeps(g, s, p);
      } else {
        RetreatKeeps(g, s);
      }
    }

    // components()
    method Run(g: Graph)
      requires Separate() && g.Closed() && View() == Start(g)
      modifies Repr()
      ensures Components(g, of[..], order)
    {
      hide Inv, Components, Unseen, EdgeStep, HasEdge, Discover, Work;
      StartInv(g);
      for start := 0 to |g.edges|
        invariant Inv(g, View()) && |frames| == 0
        invariant forall v: nat :: v < start ==> View().Seen(v)
      {
        if index[start].Some? { continue; }
        DiscoverKeeps(g, View(), start);
        TopInRange(g, View());
        DiscoverView(View(), start);
        Open(start);
        while |frames| > 0
          invariant Inv(g, View())
          invariant forall v: nat :: v <= start ==> View().Seen(v)
          decreases Unseen(View()), Work(g, frames)
        {
          TopInRange(g, View());
          if frames[|frames| - 1].1 < |g.edges[frames[|frames| - 1].0]| {
            EdgeStepKeeps(g, View());
            EdgeStepShrinks(g, View());
            Examine(g);
          } else {
            LeaveShrinks(g, frames);
            Leave(g);
          }
        }
      }
      Finished(g, View());
    }
  }

  lemma TopInRange(g: Graph, s: State)
    requires Inv(g, s)
    ensures |s.index| == |s.low| == |s.onStack| == |g.edges|
    ensures |s.frames| > 0 ==> Top(s) < |g.edges| && s.frames[|s.frames| - 1].1 <= |g.edges[Top(s)]|
  {
    hide Numbered, Stacked, Emitted, Upward, Anchored, LowSound, LowTight, Reach, HasEdge;
  }

  // The top frame's node sits on the stack above nothing but its own component.
  lemma TopOnStack(g: Graph, s: State) returns (p: nat)
    requires Inv(g, s) && |s.frames| > 0
    ensures p < |s.stack| && s.stack[p] == Top(s)
    ensures forall i :: 0 <= i < |s.stack| ==> s.stack[i] < |s.of|
    ensures forall i :: p < i < |s.stack| ==> s.stack[i] != Top(s)
    ensures Top(s) < |s.low| && s.Seen(Top(s)) && s.low[Top(s)] <= s.Num(Top(s))
    ensures |s.frames| > 1 ==> s.frames[|s.frames| - 2].0 < |s.low|
  {
    hide Emitted, Upward, Anchored, LowTight, Cursors, Reach, HasEdge;
    assert HasLow(g, s, s.frames[|s.frames| - 1].0);
    assert Top(s) in s.stack;
    p :| 0 <= p < |s.stack| && s.stack[p] == Top(s);
  }

  lemma EdgeStepShrinks(g: Graph, s: State)
    requires Inv(g, s) && |s.frames| > 0 && Top(s) < |g.edges|
    requires s.frames[|s.frames| - 1].1 < |g.edges[Top(s)]|
    ensures Unseen(EdgeStep(g, s)) < Unseen(s) ||
            (Unseen(EdgeStep(g, s)) == Unseen(s) && Work(g, EdgeStep(g, s).frames) < Work(g, s.frames))
    ensures forall v: nat :: s.Seen(v) ==> EdgeStep(g, s).Seen(v)
  {
    hide Numbered, Stacked, Emitted, Upward, Anchored, LowSound, LowTight, Cursors, Framed, Reach, HasEdge;
    var e := g.edges[Top(s)][s.frames[|s.frames| - 1].1];
    if e.Node? && !s.Seen(e.target) && e.target < |g.edges| {
      DiscoverShrinks(s, e.target);
      DiscoverView(s, e.target);
      assert Unseen(EdgeStep(g, s)) == Unseen(Discover(s, e.target));
    } else {
      WorkAdvance(g, s);
      assert Unseen(EdgeStep(g, s)) == Unseen(s);
    }
  }

  lemma LeaveShrinks(g: Graph, frames: seq<(nat, nat)>)
    requires |frames| > 0
    ensures Work(g, frames[..|frames| - 1]) < Work(g, frames)
  {
  }
}
