// The hash index of runtime/index.c: a multimap from hash to record offset.
module HashIndex {
  import opened Bits
  import opened Options
  import opened Probing

  const INITIAL_CAP := 256

  type Cells = seq<Cell<int>>

  // Growth starts at seven tenths, computed as the code does.
  function Limit(cap: nat): nat { cap / 10 * 7 }

  // The cell lookup stops at: the first entry with the hash before an empty cell.
  function Match(cells: Cells, hash: nat, k: nat): (r: Option<nat>)
    requires PowerOfTwo(|cells|) && k <= |cells|
    ensures r.Some? ==> r.value < |cells| && cells[r.value].Occupied? && cells[r.value].hash == hash
    decreases |cells| - k
  {
    if k == |cells| then None
    else
      var i := Step(Home(hash, |cells|), k, |cells|);
      if cells[i].Empty? then None
      else if cells[i].Occupied? && cells[i].hash == hash then Some(i)
      else Match(cells, hash, k + 1)
  }

  lemma {:induction false} MatchMissed(cells: Cells, hash: nat, k: nat, i: nat)
    requires PowerOfTwo(|cells|) && Reachable(cells) && k <= |cells| && i < |cells|
    requires cells[i].Occupied? && cells[i].hash == hash
    requires Dist(Home(hash, |cells|), i, |cells|) >= k
    ensures Match(cells, hash, k).Some?
    decreases |cells| - k
  {
    hide Home, PowerOfTwo, Dist, Reachable;
    if Match(cells, hash, k).None? {
      var p := Stop(cells, hash, k);
      NotMet(cells, hash, p, i);
    }
  }

  // Where a fruitless search stops; nothing with the hash was met on the way.
  lemma {:induction false} Stop(cells: Cells, hash: nat, k: nat) returns (p: nat)
    requires PowerOfTwo(|cells|) && k <= |cells| && Match(cells, hash, k).None?
    ensures k <= p <= |cells|
    ensures p < |cells| ==> cells[Step(Home(hash, |cells|), p, |cells|)].Empty?
    ensures forall j :: k <= j < p ==>
              var c := cells[Step(Home(hash, |cells|), j, |cells|)]; !(c.Occupied? && c.hash == hash)
    decreases |cells| - k
  {
    hide Home, PowerOfTwo;
    if k == |cells| || cells[Step(Home(hash, |cells|), k, |cells|)].Empty? {
      p := k;
    } else {
      p := Stop(cells, hash, k + 1);
    }
  }

  // Lookup finds an entry exactly when one with the hash is stored, and then a stored one.
  lemma MatchIffStored(cells: Cells, hash: nat)
    requires PowerOfTwo(|cells|) && Reachable(cells)
    ensures Match(cells, hash, 0).Some? <==> exists off :: (hash, off) in Entries(cells)
    ensures Match(cells, hash, 0).Some? ==> (hash, cells[Match(cells, hash, 0).value].v) in Entries(cells)
  {
    hide Home, PowerOfTwo, Reachable, Match;
    var m := Match(cells, hash, 0);
    if m.Some? {
      Stored(cells, hash, cells[m.value].v);
      assert cells[m.value] == Occupied(hash, cells[m.value].v);
    }
    if off :| (hash, off) in Entries(cells) {
      Stored(cells, hash, off);
      var i :| 0 <= i < |cells| && cells[i] == Occupied(hash, off);
      MatchMissed(cells, hash, 0, i);
    }
  }

  lemma {:induction false} Doubled(cap: nat)
    requires PowerOfTwo(cap)
    ensures PowerOfTwo(2 * cap)
  {
    assert 2 * cap / 2 == cap;
  }

  lemma LimitGrows(cap: nat)
    requires cap >= INITIAL_CAP
    ensures 0 < Limit(cap) < cap && Limit(cap) < Limit(2 * cap)
  {
  }

  class Index {
    var cells: array<Cell<int>>
    var count: nat

    ghost predicate Valid()
      reads this, cells
    {
      && PowerOfTwo(cells.Length) && cells.Length >= INITIAL_CAP
      && Reachable(cells[..]) && count == Count(cells[..]) && count <= Limit(cells.Length)
    }

    // The stored pairs of hash and offset.
    ghost function Contents(): multiset<(nat, int)>
      reads this, cells
    {
      Entries(cells[..])
    }

    constructor ()
      ensures Valid() && fresh(cells) && Contents() == multiset{}
    {
      cells := new Cell<int>[INITIAL_CAP](_ => Empty);
      count := 0;
      new;
      NoneOccupied(cells[..]);
      InitialIsPower();
    }

    // jinn_idx_lookup
    method Lookup(hash: nat) returns (off: int)
      requires Valid()
      ensures (exists o :: (hash, o) in Contents()) ==> (hash, off) in Contents()
      ensures (!exists o :: (hash, o) in Contents()) ==> off == -1
      ensures off == match Match(cells[..], hash, 0) case None => -1 case Some(i) => cells[i].v
    {
      var i := Search(hash);
      MatchIffStored(cells[..], hash);
      off := if i.Some? then cells[i.value].v else -1;
    }

    // The probe loop shared by lookup and delete.
    method Search(hash: nat) returns (r: Option<nat>)
      requires Valid()
      ensures r == Match(cells[..], hash, 0)
    {
      hide PowerOfTwo, Reachable, And;
      ghost var home := Home(hash, cells.Length);
      var slot := Slot(hash, cells.Length);
      HomeIs(hash, cells.Length);
      var probes := 0;
      while probes < cells.Length
        invariant probes <= cells.Length
        invariant slot == Step(home, if probes < cells.Length then probes else 0, cells.Length)
        invariant Match(cells[..], hash, 0) == Match(cells[..], hash, probes)
        decreases cells.Length - probes
      {
        if cells[slot].Empty? { return None; }
        if cells[slot].Occupied? && cells[slot].hash == hash { return Some(slot); }
        NextProbe(home, probes, cells.Length);
        slot := Slot(slot + 1, cells.Length);
        probes := probes + 1;
      }
      return None;
    }

    // jinn_idx_insert; false would be the insertion-capacity failure.
    method Insert(hash: nat, off: int) returns (ok: bool)
      requires Valid()
      modifies this, cells
      ensures ok && Valid() && Contents() == old(Contents()) + multiset{(hash, off)} && count == old(count) + 1
      ensures cells == old(cells) || fresh(cells)
      ensures cells.Length == old(cells.Length) * if old(count) >= old(cells.Length) / 10 * 7 then 2 else 1
    {
      LimitGrows(cells.Length);
      if count >= Limit(cells.Length) {
        Grow();
      }
      ok := Place(hash, off);
    }

    // Write the entry into the first free cell on its probes.
    method Place(hash: nat, off: int) returns (ok: bool)
      requires Valid() && count < Limit(cells.Length)
      modifies this`count, cells
      ensures ok && Valid() && count == old(count) + 1 && Contents() == old(Contents()) + multiset{(hash, off)}
    {
      hide PowerOfTwo, Reachable, And;
      var free, probes := FirstFree(hash);
      if free.None? { return false; }
      var slot := free.value;
      ghost var was := cells[..];
      PutKeeps(was, hash, off, probes);
      CountUpdate(was, slot, Occupied(hash, off));
      EntriesUpdate(was, slot, Occupied(hash, off));
      cells[slot] := Occupied(hash, off);
      count := count + 1;
      assert cells[..] == was[slot := Occupied(hash, off)];
      return true;
    }

    // The probe loop of the insertion: an empty cell or a tombstone.
    method FirstFree(hash: nat) returns (free: Option<nat>, ghost probes: nat)
      requires Valid() && count < Limit(cells.Length)
      ensures free.Some? && free.value < cells.Length && !cells[free.value].Occupied?
      ensures probes < cells.Length && free.value == Step(Home(hash, cells.Length), probes, cells.Length)
      ensures Solid(cells[..], Home(hash, cells.Length), probes)
    {
      hide PowerOfTwo, Reachable, And;
      LimitGrows(cells.Length);
      ghost var home := Home(hash, cells.Length);
      var slot := Slot(hash, cells.Length);
      HomeIs(hash, cells.Length);
      var p := 0;
      while p < cells.Length
        invariant p <= cells.Length && slot == Step(home, if p < cells.Length then p else 0, cells.Length)
        invariant forall k :: 0 <= k < p ==> cells[..][Step(home, k, cells.Length)].Occupied?
        decreases cells.Length - p
      {
        if cells[slot].Empty? || cells[slot].Tombstone? { return Some(slot), p; }
        assert cells[..][slot] == cells[slot];
        NextProbe(home, p, cells.Length);
        slot := Slot(slot + 1, cells.Length);
        p := p + 1;
      }
      FullTurn(cells[..], home);
      assert false;
    }

    // grow: collect the entries, double the table, insert them again.
    method Grow()
      requires Valid() && count == Limit(cells.Length)
      modifies this
      ensures Valid() && fresh(cells) && cells.Length == 2 * old(cells.Length)
      ensures Contents() == old(Contents()) && count == old(count) < Limit(cells.Length)
    {
      hide PowerOfTwo, Reachable, And, Count, Entries;
      LimitGrows(cells.Length);
      Doubled(cells.Length);
      var before := cells;
      ghost var was := before[..];
      cells := new Cell<int>[2 * before.Length](_ => Empty);
      count := 0;
      FreshTable(cells[..]);
      PrefixStart(was);
      for i := 0 to before.Length
        invariant before[..] == was && fresh(cells) && cells != before && cells.Length == 2 * before.Length
        invariant Valid() && count == Count(was[..i]) && Contents() == Entries(was[..i])
      {
        PrefixStep(was, i);
        CountPrefix(was, i + 1);
        if before[i].Occupied? {
          var _ := Place(before[i].hash, before[i].v);
        }
      }
      assert was[..before.Length] == was;
    }

    // jinn_idx_delete: the entry lookup would return, and no other.
    method Delete(hash: nat)
      requires Valid()
      modifies this`count, cells
      ensures Valid()
      ensures match Match(old(cells[..]), hash, 0)
              case None => Contents() == old(Contents()) && count == old(count)
              case Some(i) =>
                && Contents() == old(Contents()) - multiset{(hash, old(cells[..])[i].v)}
                && count == old(count) - 1
    {
      hide PowerOfTwo, Reachable, And;
      var r := Search(hash);
      if r.Some? {
        ghost var was := cells[..];
        BuryKeeps(was, r.value);
        CountUpdate(was, r.value, Tombstone);
        EntriesUpdate(was, r.value, Tombstone);
        cells[r.value] := Tombstone;
        count := count - 1;
        assert cells[..] == was[r.value := Tombstone];
      }
    }
  }

  lemma HomeIs(hash: nat, cap: nat)
    requires PowerOfTwo(cap)
    ensures cap > 0 && Home(hash, cap) == Slot(hash, cap) < cap && Step(Home(hash, cap), 0, cap) == Slot(hash, cap)
  {
    SlotRange(hash, cap);
  }

  lemma InitialIsPower()
    ensures PowerOfTwo(INITIAL_CAP)
  {
    assert PowerOfTwo(4);
    assert PowerOfTwo(16);
    assert PowerOfTwo(64);
  }

  lemma FreshTable(cells: Cells)
    requires PowerOfTwo(|cells|) && forall i :: 0 <= i < |cells| ==> cells[i].Empty?
    ensures Reachable(cells) && Count(cells) == 0 && Entries(cells) == multiset{}
  {
    NoneOccupied(cells);
  }

  lemma PrefixStart(cells: Cells)
    ensures Count(cells[..0]) == 0 && Entries(cells[..0]) == multiset{}
  {
  }

  lemma PrefixStep(cells: Cells, i: nat)
    requires i < |cells|
    ensures Count(cells[..i + 1]) == Count(cells[..i]) + if cells[i].Occupied? then 1 else 0
    ensures Entries(cells[..i + 1]) == Entries(cells[..i]) + Entry(cells[i])
  {
    assert cells[..i + 1][..i] == cells[..i];
  }

  lemma {:induction false} CountPrefix(cells: Cells, n: nat)
    requires n <= |cells|
    ensures Count(cells[..n]) <= Count(cells)
    decreases |cells|
  {
    if n < |cells| {
      var m := |cells| - 1;
      assert cells[..m][..n] == cells[..n];
      CountPrefix(cells[..m], n);
    } else {
      assert cells[..n] == cells;
    }
  }
}
