// Linear probing with tombstones on a power-of-two table, shared by the key-value table and
// the hash index.
module Probing {
  import opened Bits

  datatype Cell<V> = Empty | Tombstone | Occupied(hash: nat, v: V)

  // The position k probes after home, going round.
  function Step(home: nat, k: nat, cap: nat): nat
    requires home < cap && k <= cap
  {
    if home + k < cap then home + k else home + k - cap
  }

  // How many probes lead from home to position i.
  function Dist(home: nat, i: nat, cap: nat): (k: nat)
    requires home < cap && i < cap
    ensures k < cap && Step(home, k, cap) == i
    ensures forall j :: 0 <= j < cap && Step(home, j, cap) == i ==> j == k
  {
    if i >= home then i - home else i + cap - home
  }

  function Home(hash: nat, cap: nat): (h: nat)
    requires PowerOfTwo(cap)
    ensures h < cap
  {
    SlotRange(hash, cap);
    Slot(hash, cap)
  }

  // Adding one and masking is the next probe.
  lemma NextProbe(home: nat, k: nat, cap: nat)
    requires PowerOfTwo(cap) && home < cap && k < cap
    ensures Slot(Step(home, k, cap) + 1, cap) == Step(home, k + 1, cap)
  {
    hide PowerOfTwo, And;
    var s := Step(home, k, cap);
    MaskIsMod(s + 1, cap);
    if s + 1 == cap { Whole(cap); } else { Small(s + 1, cap); }
  }

  lemma Whole(n: nat)
    requires n > 0
    ensures n % n == 0
  {
  }

  lemma Small(x: nat, n: nat)
    requires x < n
    ensures x % n == x
  {
  }

  // Every entry is reached from its home without passing an empty cell.
  ghost predicate Reachable<V>(cells: seq<Cell<V>>)
    requires PowerOfTwo(|cells|)
  {
    forall i {:trigger ReachableAt(cells, i)} :: 0 <= i < |cells| ==> ReachableAt(cells, i)
  }

  ghost predicate ReachableAt<V>(cells: seq<Cell<V>>, i: nat)
    requires PowerOfTwo(|cells|) && i < |cells|
  {
    cells[i].Occupied? ==> Solid(cells, Home(cells[i].hash, |cells|), Dist(Home(cells[i].hash, |cells|), i, |cells|))
  }

  // No empty cell on the first n probes from home.
  ghost predicate Solid<V>(cells: seq<Cell<V>>, home: nat, n: nat)
    requires home < |cells| && n <= |cells|
  {
    forall k :: 0 <= k < n ==> !cells[Step(home, k, |cells|)].Empty?
  }

  // Filling any cell that is not past an empty one keeps every entry reachable.
  lemma PutKeeps<V>(cells: seq<Cell<V>>, hash: nat, v: V, d: nat)
    requires PowerOfTwo(|cells|) && Reachable(cells) && d < |cells|
    requires Solid(cells, Home(hash, |cells|), d)
    ensures Reachable(cells[Step(Home(hash, |cells|), d, |cells|) := Occupied(hash, v)])
  {
    hide Home, PowerOfTwo;
    var home := Home(hash, |cells|);
    var pos := Step(home, d, |cells|);
    var u := cells[pos := Occupied(hash, v)];
    forall i | 0 <= i < |u| ensures ReachableAt(u, i) {
      assert ReachableAt(cells, i);
      if i == pos { assert Dist(home, pos, |cells|) == d; }
    }
  }

  lemma BuryKeeps<V>(cells: seq<Cell<V>>, i: nat)
    requires PowerOfTwo(|cells|) && Reachable(cells) && i < |cells|
    ensures Reachable(cells[i := Tombstone])
  {
    hide Home, PowerOfTwo, Dist;
    var u := cells[i := Tombstone];
    forall j | 0 <= j < |u| ensures ReachableAt(u, j) {
      assert ReachableAt(cells, j);
    }
  }

  // An entry that the first p probes from its home did not meet does not exist if the p-th
  // cell is empty, or if p probes are all there are.
  lemma NotMet<V>(cells: seq<Cell<V>>, hash: nat, p: nat, i: nat)
    requires PowerOfTwo(|cells|) && Reachable(cells) && i < |cells| && p <= |cells|
    requires p < |cells| ==> cells[Step(Home(hash, |cells|), p, |cells|)].Empty?
    requires cells[i].Occupied? && cells[i].hash == hash
    ensures Dist(Home(hash, |cells|), i, |cells|) < p
  {
    hide Home, PowerOfTwo;
    assert ReachableAt(cells, i);
  }

  // ----- counting and contents -----

  function Count<V>(cells: seq<Cell<V>>): (n: nat)
    ensures n <= |cells|
  {
    if |cells| == 0 then 0 else Count(cells[..|cells| - 1]) + if cells[|cells| - 1].Occupied? then 1 else 0
  }

  ghost function Entries<V>(cells: seq<Cell<V>>): multiset<(nat, V)> {
    if |cells| == 0 then multiset{}
    else
      Entries(cells[..|cells| - 1]) + Entry(cells[|cells| - 1])
  }

  ghost function Entry<V>(cell: Cell<V>): multiset<(nat, V)> {
    if cell.Occupied? then multiset{(cell.hash, cell.v)} else multiset{}
  }

  lemma {:induction false} CountUpdate<V>(cells: seq<Cell<V>>, i: nat, c: Cell<V>)
    requires i < |cells|
    ensures Count(cells[i := c])
              == Count(cells) - (if cells[i].Occupied? then 1 else 0) + (if c.Occupied? then 1 else 0)
  {
    var n := |cells| - 1;
    if i < n {
      assert cells[i := c][..n] == cells[..n][i := c];
      CountUpdate(cells[..n], i, c);
    } else {
      assert cells[i := c][..n] == cells[..n];
    }
  }

  lemma {:induction false} EntriesUpdate<V>(cells: seq<Cell<V>>, i: nat, c: Cell<V>)
    requires i < |cells|
    ensures Entry(cells[i]) <= Entries(cells)
    ensures Entries(cells[i := c]) == Entries(cells) - Entry(cells[i]) + Entry(c)
  {
    hide Entry;
    var n := |cells| - 1;
    if i < n {
      assert cells[i := c][..n] == cells[..n][i := c];
      EntriesUpdate(cells[..n], i, c);
    } else {
      assert cells[i := c][..n] == cells[..n];
    }
  }

  // An entry is stored exactly when some cell holds it.
  lemma {:induction false} Stored<V>(cells: seq<Cell<V>>, hash: nat, v: V)
    ensures (hash, v) in Entries(cells) <==> exists i :: 0 <= i < |cells| && cells[i] == Occupied(hash, v)
  {
    if |cells| > 0 {
      var n := |cells| - 1;
      Stored(cells[..n], hash, v);
      assert forall i :: 0 <= i < n ==> cells[..n][i] == cells[i];
    }
  }

  lemma {:induction false} AllOccupied<V>(cells: seq<Cell<V>>)
    requires forall i :: 0 <= i < |cells| ==> cells[i].Occupied?
    ensures Count(cells) == |cells|
  {
    if |cells| > 0 { AllOccupied(cells[..|cells| - 1]); }
  }

  lemma {:induction false} NoneOccupied<V>(cells: seq<Cell<V>>)
    requires forall i :: 0 <= i < |cells| ==> !cells[i].Occupied?
    ensures Count(cells) == 0 && Entries(cells) == multiset{}
  {
    if |cells| > 0 { NoneOccupied(cells[..|cells| - 1]); }
  }

  // If every probe of a full turn met an entry the table is full.
  lemma FullTurn<V>(cells: seq<Cell<V>>, home: nat)
    requires home < |cells|
    requires forall k :: 0 <= k < |cells| ==> cells[Step(home, k, |cells|)].Occupied?
    ensures Count(cells) == |cells|
  {
    forall i | 0 <= i < |cells| ensures cells[i].Occupied? {
      assert cells[Step(home, Dist(home, i, |cells|), |cells|)].Occupied?;
    }
    AllOccupied(cells);
  }
}
