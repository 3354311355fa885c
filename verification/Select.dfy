// The sequential pieces of runtime/select.c: the address sort, the list of distinct locks,
// and the intrusive wait queues with their claim words.
module Selecting {
  import opened Options
  import opened Parking

  ghost predicate Sorted(order: seq<nat>, addr: seq<nat>)
    requires forall i :: 0 <= i < |order| ==> order[i] < |addr|
  {
    forall i, j :: 0 <= i < j < |order| ==> addr[order[i]] <= addr[order[j]]
  }

  // sort_by_addr: insertion sort of case numbers by channel address.
  method SortByAddr(order: array<nat>, addr: seq<nat>)
    requires forall i :: 0 <= i < order.Length ==> order[i] < |addr|
    modifies order
    ensures multiset(order[..]) == multiset(old(order[..]))
    ensures forall i :: 0 <= i < order.Length ==> order[i] < |addr|
    ensures Sorted(order[..], addr)
  {
    var i := 1;
    while i < order.Length
      invariant 1 <= i && (order.Length > 0 ==> i <= order.Length)
      invariant multiset(order[..]) == multiset(old(order[..]))
      invariant forall k :: 0 <= k < order.Length ==> order[k] < |addr|
      invariant forall a, b :: 0 <= a < b < i && i <= order.Length ==> addr[order[a]] <= addr[order[b]]
    {
      Insert(order, addr, i);
      i := i + 1;
    }
  }

  // One round: slide larger entries up and drop the key into the hole.
  method Insert(order: array<nat>, addr: seq<nat>, i: nat)
    requires 1 <= i < order.Length
    requires forall k :: 0 <= k < order.Length ==> order[k] < |addr|
    requires forall a, b :: 0 <= a < b < i ==> addr[order[a]] <= addr[order[b]]
    modifies order
    ensures multiset(order[..]) == multiset(old(order[..]))
    ensures forall k :: 0 <= k < order.Length ==> order[k] < |addr|
    ensures forall a, b :: 0 <= a < b < i + 1 ==> addr[order[a]] <= addr[order[b]]
  {
    ghost var was := order[..];
    var key := order[i];
    var h := SlideUp(order, addr, i);
    order[h] := key;
    MovedIsPermuted(was, order[..], i, h);
    MovedIsSorted(was, order[..], addr, i, h);
    assert forall k :: 0 <= k < order.Length ==> order[k] == order[..][k];
  }

  // Move the entries above the key up by one; the hole ends where the key belongs.
  method SlideUp(order: array<nat>, addr: seq<nat>, i: nat) returns (h: nat)
    requires 1 <= i < order.Length
    requires forall k :: 0 <= k < order.Length ==> order[k] < |addr|
    modifies order
    ensures h <= i && (h > 0 ==> addr[old(order[h - 1])] <= addr[old(order[i])])
    ensures forall k :: h <= k < i ==> addr[old(order[k])] > addr[old(order[i])]
    ensures forall k :: 0 <= k <= h || i < k < order.Length ==> order[k] == old(order[k])
    ensures forall k {:trigger order[k]} :: h < k <= i ==> order[k] == old(order[k - 1])
  {
    var key := order[i];
    h := i;
    while h > 0 && addr[order[h - 1]] > addr[key]
      invariant h <= i
      invariant forall k :: h <= k < i ==> addr[old(order[k])] > addr[key]
      invariant forall k :: 0 <= k <= h || i < k < order.Length ==> order[k] == old(order[k])
      invariant forall k {:trigger order[k]} :: h < k <= i ==> order[k] == old(order[k - 1])
    {
      order[h] := order[h - 1];
      h := h - 1;
    }
  }

  // m is s with the entry at i taken out and put in at h.
  ghost predicate Moved(s: seq<nat>, m: seq<nat>, i: nat, h: nat) {
    && h <= i < |s| && |m| == |s|
    && m[h] == s[i]
    && (forall k {:trigger m[k]} :: 0 <= k < h || i < k < |m| ==> m[k] == s[k])
    && (forall k {:trigger m[k]} :: h < k <= i ==> m[k] == s[k - 1])
  }

  lemma MovedIsPermuted(s: seq<nat>, m: seq<nat>, i: nat, h: nat)
    requires Moved(s, m, i, h)
    ensures multiset(m) == multiset(s)
  {
    assert m == s[..h] + [s[i]] + s[h..i] + s[i + 1..];
    assert s == s[..h] + s[h..i] + [s[i]] + s[i + 1..];
  }

  lemma MovedIsSorted(s: seq<nat>, m: seq<nat>, addr: seq<nat>, i: nat, h: nat)
    requires Moved(s, m, i, h) && forall k :: 0 <= k < |s| ==> s[k] < |addr|
    requires forall a, b :: 0 <= a < b < i ==> addr[s[a]] <= addr[s[b]]
    requires h > 0 ==> addr[s[h - 1]] <= addr[s[i]]
    requires forall k :: h <= k < i ==> addr[s[k]] > addr[s[i]]
    ensures forall k :: 0 <= k < |m| ==> m[k] < |addr|
    ensures forall a, b :: 0 <= a < b < i + 1 ==> addr[m[a]] <= addr[m[b]]
  {
    forall a, b | 0 <= a < b < i + 1 ensures addr[m[a]] <= addr[m[b]] {
      if b == h && a < h - 1 { assert addr[s[a]] <= addr[s[h - 1]]; }
    }
  }

  // The distinct channels of the sorted cases, as lock_all takes them; address 0 is a case
  // without a channel. This is the lock list a wait is built on.
  method LockList(order: seq<nat>, addr: seq<nat>) returns (locks: seq<Chan>)
    requires forall i :: 0 <= i < |order| ==> order[i] < |addr|
    requires Sorted(order, addr)
    ensures Increasing(locks)
    ensures forall ch :: ch in locks <==> ch != 0 && exists i :: 0 <= i < |order| && addr[order[i]] == ch
  {
    locks := [];
    var last := 0;
    for i := 0 to |order|
      invariant Increasing(locks) && last == if |locks| > 0 then locks[|locks| - 1] else 0
      invariant forall k :: 0 <= k < |locks| ==> 0 < locks[k] <= last
      invariant forall k :: 0 <= k < i ==> addr[order[k]] == 0 || addr[order[k]] in locks
      invariant forall ch :: ch in locks ==> ch != 0 && exists k :: 0 <= k < i && addr[order[k]] == ch
      invariant forall k :: i <= k < |order| ==> last <= addr[order[k]]
    {
      var ch := addr[order[i]];
      if ch != 0 && ch != last {
        locks := locks + [ch];
        last := ch;
      }
    }
  }

  // ----- the intrusive wait queue -----

  class Claim {
    var taken: bool

    constructor ()
      ensures !taken
    {
      taken := false;
    }
  }

  class WaitNode {
    const coro: Id
    const claim: Claim?
    var next: WaitNode?

    constructor (c: Id, word: Claim?)
      ensures coro == c && claim == word && next == null
    {
      coro, claim, next := c, word, null;
    }

    // Whether a pop would win this node.
    ghost predicate Winnable()
      reads this, claim
    {
      claim == null || !claim.taken
    }
  }

  ghost predicate NoDups(q: seq<WaitNode>) {
    forall i, j :: 0 <= i < j < |q| ==> q[i] != q[j]
  }

  ghost function Without(q: seq<WaitNode>, n: WaitNode): seq<WaitNode> {
    if |q| == 0 then [] else if q[0] == n then q[1..] else [q[0]] + Without(q[1..], n)
  }

  class WaitQueue {
    var head: WaitNode?
    var tail: WaitNode?
    ghost var spine: seq<WaitNode>

    ghost predicate Valid()
      reads this, spine
    {
      && NoDups(spine)
      && head == (if |spine| == 0 then null else spine[0])
      && tail == (if |spine| == 0 then null else spine[|spine| - 1])
      && (forall i :: 0 <= i < |spine| - 1 ==> spine[i].next == spine[i + 1])
      && (|spine| > 0 ==> spine[|spine| - 1].next == null)
    }

    constructor ()
      ensures Valid() && spine == []
    {
      head, tail, spine := null, null, [];
    }

    // waitq_push
    method Push(node: WaitNode)
      requires Valid() && node !in spine
      modifies this, spine, node
      ensures Valid() && spine == old(spine) + [node]
    {
      node.next := null;
      if tail != null {
        tail.next := node;
      } else {
        head := node;
      }
      tail := node;
      spine := spine + [node];
    }

    // Unlink the head.
    method Shift() returns (node: WaitNode)
      requires Valid() && head != null
      modifies this, spine
      ensures Valid() && node == old(spine)[0] && spine == old(spine)[1..] && node.next == null
    {
      node := head;
      head := node.next;
      if head == null { tail := null; }
      node.next := null;
      spine := spine[1..];
    }

    // waitq_pop_wakeable: drop nodes whose wait was won elsewhere, win the first other one.
    method PopWakeable() returns (winner: Option<Id>)
      requires Valid()
      modifies this, spine, set n | n in spine && n.claim != null :: n.claim
      ensures Valid()
      ensures winner.None? ==> spine == [] && forall n :: n in old(spine) ==> !old(n.Winnable())
      ensures winner.Some? ==>
                exists k :: 0 <= k < |old(spine)| && old(spine[k].coro) == winner.value
                  && old(spine[k].Winnable()) && spine == old(spine)[k + 1..]
                  && (old(spine)[k].claim != null ==> old(spine)[k].claim.taken)
                  && forall i :: 0 <= i < k ==> !old(spine[i].Winnable())
    {
      ghost var was, k := spine, 0;
      while head != null
        invariant Valid() && k <= |was| && spine == was[k..]
        invariant forall n :: n in was && n.claim != null ==> n.claim.taken == old(n.claim.taken)
        invariant forall i :: 0 <= i < k ==> !old(was[i].Winnable())
        decreases |spine|
      {
        var node := Shift();
        assert node == was[k];
        if node.claim == null {
          return Some(node.coro);
        }
        if !node.claim.taken {
          node.claim.taken := true;
          return Some(node.coro);
        }
        k := k + 1;
      }
      return None;
    }

    method Unlink(prev: WaitNode?, cur: WaitNode, ghost k: nat)
      requires Valid() && k < |spine| && cur == spine[k] && prev == if k > 0 then spine[k - 1] else null
      modifies this, spine
      ensures Valid() && spine == old(spine)[..k] + old(spine)[k + 1..]
    {
      if prev != null { prev.next := cur.next; } else { head := cur.next; }
      if tail == cur { tail := prev; }
      cur.next := null;
      spine := spine[..k] + spine[k + 1..];
    }

    // waitq_remove_node: unlink one node wherever it is.
    method RemoveNode(node: WaitNode)
      requires Valid()
      modifies this, spine
      ensures Valid() && spine == Without(old(spine), node) && node !in spine
    {
      var prev: WaitNode?, cur := null, head;
      ghost var k := 0;
      while cur != null
        invariant k <= |spine| && Valid() && spine == old(spine)
        invariant cur == if k < |spine| then spine[k] else null
        invariant prev == if k > 0 then spine[k - 1] else null
        invariant node !in spine[..k]
        decreases |spine| - k
      {
        if cur == node {
          WithoutAt(spine, k);
          Unlink(prev, cur, k);
          return;
        }
        prev := cur;
        cur := cur.next;
        k := k + 1;
      }
      assert spine[..k] == spine;
      WithoutAbsent(spine, node);
    }
  }

  lemma {:induction false} WithoutAt(q: seq<WaitNode>, k: nat)
    requires NoDups(q) && k < |q|
    ensures Without(q, q[k]) == q[..k] + q[k + 1..]
    ensures q[k] !in q[..k] + q[k + 1..] && NoDups(q[..k] + q[k + 1..])
  {
    if k == 0 {
    } else {
      assert q[0] != q[k] && q[1..][k - 1] == q[k];
      WithoutAt(q[1..], k - 1);
      assert q[..k] == [q[0]] + q[1..][..k - 1] && q[k + 1..] == q[1..][k..];
    }
  }

  lemma {:induction false} WithoutAbsent(q: seq<WaitNode>, n: WaitNode)
    requires n !in q
    ensures Without(q, n) == q
  {
    if |q| > 0 { WithoutAbsent(q[1..], n); }
  }
}
