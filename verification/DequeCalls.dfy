// The calls of runtime/deque.c on the deque's own fields, run one at a time: what each one
// does to the queue when no other call overlaps it. Overlapping calls are the step system of
// module Deque.
module DequeCalls {
  import opened Bits
  import opened Options

  const INIT_CAP := 1024

  class WorkDeque<Coro(0)> {
    var top: nat
    var bottom: nat
    var buf: array<Coro>

    ghost predicate Valid()
      reads this
    {
      PowerOfTwo(buf.Length) && top <= bottom <= top + buf.Length
    }

    ghost function Item(i: nat): Coro
      requires Valid()
      reads this, buf
    {
      SlotRange(i, buf.Length);
      buf[Slot(i, buf.Length)]
    }

    // The queue, oldest first.
    ghost function Contents(): (s: seq<Coro>)
      requires Valid()
      reads this, buf
      ensures |s| == bottom - top && forall i :: 0 <= i < |s| ==> s[i] == Item(top + i)
    {
      seq(bottom - top, i requires 0 <= i < bottom - top reads this, buf requires Valid() => Item(top + i))
    }

    // jinn_deque_init
    constructor ()
      ensures Valid() && fresh(buf) && Contents() == []
    {
      top, bottom := 0, 0;
      buf := new Coro[INIT_CAP];
      new;
      assert PowerOfTwo(4) && PowerOfTwo(16) && PowerOfTwo(64) && PowerOfTwo(256);
    }

    // deque_grow: twice the slots, the window copied index by index.
    method Grow()
      requires Valid()
      modifies this`buf
      ensures Valid() && fresh(buf) && buf.Length == 2 * old(buf.Length) && Contents() == old(Contents())
    {
      hide PowerOfTwo, Slot;
      ghost var was := Contents();
      Doubled(buf.Length);
      var wider := new Coro[2 * buf.Length];
      var i := top;
      while i < bottom
        invariant buf == old(buf) && top <= i <= bottom
        invariant forall k :: 0 <= k < i - top ==> Filled(wider[..], top + k, was[k])
      {
        SlotRange(i, wider.Length);
        NotEmptyTable(buf.Length);
        SlotRange(i, buf.Length);
        assert Item(top + (i - top)) == was[i - top];
        ghost var before := wider[..];
        wider[Slot(i, wider.Length)] := buf[Slot(i, buf.Length)];
        assert wider[..] == before[Slot(i, wider.Length) := was[i - top]];
        OthersKept(before, top, i, was[i - top]);
        i := i + 1;
      }
      buf := wider;
      assert Contents() == was by {
        forall k | 0 <= k < |was| ensures Item(top + k) == was[k] {
          assert Filled(wider[..], top + k, was[k]);
        }
      }
    }

    // jinn_deque_push
    method Push(c: Coro)
      requires Valid()
      modifies this, buf
      ensures Valid() && (buf == old(buf) || fresh(buf)) && Contents() == old(Contents()) + [c]
    {
      hide PowerOfTwo, Slot;
      if bottom - top >= buf.Length { NotEmptyTable(buf.Length); Grow(); }
      ghost var was := Contents();
      SlotRange(bottom, buf.Length);
      forall k | top <= k < bottom ensures Slot(k, buf.Length) != Slot(bottom, buf.Length) {
        SlotDistinct(k, bottom, buf.Length);
      }
      buf[Slot(bottom, buf.Length)] := c;
      bottom := bottom + 1;
      assert Contents() == was + [c];
    }

    // jinn_deque_pop: the newest.
    method Pop() returns (c: Option<Coro>)
      requires Valid()
      modifies this`top, this`bottom
      ensures Valid()
      ensures var q := old(Contents());
              if |q| == 0 then c == None && Contents() == q
              else c == Some(q[|q| - 1]) && Contents() == q[..|q| - 1]
    {
      hide PowerOfTwo, Slot;
      ghost var q := Contents();
      if bottom == 0 || top > bottom - 1 {
        assert Contents() == q;
        return None;
      }
      var b := bottom - 1;
      SlotRange(b, buf.Length);
      assert q[|q| - 1] == Item(top + (|q| - 1));
      c := Some(buf[Slot(b, buf.Length)]);
      if top == b {
        top := top + 1;
        assert Contents() == q[..|q| - 1];
      } else {
        bottom := b;
        assert Contents() == q[..|q| - 1];
      }
    }

    // jinn_deque_steal: the oldest.
    method Steal() returns (c: Option<Coro>)
      requires Valid()
      modifies this`top
      ensures Valid()
      ensures var q := old(Contents());
              if |q| == 0 then c == None && Contents() == q else c == Some(q[0]) && Contents() == q[1..]
    {
      hide PowerOfTwo, Slot;
      ghost var q := Contents();
      if top >= bottom { return None; }
      SlotRange(top, buf.Length);
      assert q[0] == Item(top + 0);
      c := Some(buf[Slot(top, buf.Length)]);
      top := top + 1;
      assert Contents() == q[1..];
    }
  }

  lemma Doubled(n: nat)
    requires PowerOfTwo(n)
    ensures PowerOfTwo(2 * n) && n > 0
  {
    assert 2 * n / 2 == n;
  }

  lemma NotEmptyTable(n: nat)
    requires PowerOfTwo(n)
    ensures n > 0
  {
  }

  ghost predicate Filled<Coro>(slots: seq<Coro>, i: nat, c: Coro) {
    PowerOfTwo(|slots|) && Slot(i, |slots|) < |slots| && slots[Slot(i, |slots|)] == c
  }

  // Storing index i leaves the slots of the earlier indices of the window alone.
  lemma OthersKept<Coro>(slots: seq<Coro>, top: nat, i: nat, c: Coro)
    requires PowerOfTwo(|slots|) && top <= i < top + |slots| && Slot(i, |slots|) < |slots|
    ensures Filled(slots[Slot(i, |slots|) := c], i, c)
    ensures forall k :: top <= k < i ==>
              Slot(k, |slots|) < |slots| && slots[Slot(i, |slots|) := c][Slot(k, |slots|)] == slots[Slot(k, |slots|)]
  {
    hide PowerOfTwo, Slot;
    forall k | top <= k < i ensures Slot(k, |slots|) < |slots| && Slot(k, |slots|) != Slot(i, |slots|) {
      SlotRange(k, |slots|);
      SlotDistinct(k, i, |slots|);
    }
  }
}
