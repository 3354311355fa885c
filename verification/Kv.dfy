// The key-value table of runtime/kv.c: an open-addressed table of fixed key buffers that
// agrees with a plain map, and its save and reload.
module KeyValue {
  import opened Bytes
  import opened Bits
  import opened Options
  import opened Probing

  type Key = seq<byte>

  const KEY_SIZE := 256
  const INITIAL_CAP := 64

  // A key buffer, zero-padded, and a value.
  datatype Entry = Entry(buf: seq<byte>, value: int)

  type Table = seq<Cell<Entry>>

  // strnlen
  function StrLen(buf: seq<byte>): (n: nat)
    ensures n <= |buf| && (n < |buf| ==> buf[n] == 0)
    ensures forall k :: 0 <= k < n ==> buf[k] != 0
  {
    if |buf| == 0 || buf[0] == 0 then 0 else 1 + StrLen(buf[1..])
  }

  function KeyOf(e: Entry): Key { e.buf[..StrLen(e.buf)] }

  // Keys are cut to 255 bytes.
  function Cut(key: Key): (k: Key)
    ensures |k| < KEY_SIZE && (|key| > 0 ==> |k| > 0)
    ensures k <= key && |k| == if |key| < 255 then |key| else 255
  {
    if |key| >= KEY_SIZE then key[..KEY_SIZE - 1] else key
  }

  function Buffer(key: Key): (b: seq<byte>)
    requires |key| < KEY_SIZE
    ensures |b| == KEY_SIZE && b[..|key|] == key
  {
    var b := key + seq(KEY_SIZE - |key|, _ => 0);
    assert b[..|key|] == key;
    b
  }

  // The stored key reads back as itself exactly when it has no NUL.
  lemma BufferKey(key: Key, value: int)
    requires |key| < KEY_SIZE
    ensures 0 !in key ==> KeyOf(Entry(Buffer(key), value)) == key
    ensures 0 in key ==> |KeyOf(Entry(Buffer(key), value))| < |key|
  {
    var b := Buffer(key);
    var n := StrLen(b);
    if 0 !in key {
      assert b[|key|] == 0;
      assert forall k :: 0 <= k < |key| ==> b[k] == key[k];
    } else {
      var k :| 0 <= k < |key| && key[k] == 0;
      assert b[k] == key[k];
    }
  }

  // What is left of a key once it is measured with strnlen.
  function Measured(key: Key): Key { key[..StrLen(key)] }

  lemma MeasuredKey(key: Key, value: int)
    requires |key| < KEY_SIZE
    ensures KeyOf(Entry(Buffer(key), value)) == Measured(key)
    ensures |Measured(key)| <= |key| && (0 !in key <==> Measured(key) == key)
  {
    var b := Buffer(key);
    assert forall i :: 0 <= i < |key| ==> b[i] == key[i];
    assert b[StrLen(key)] == 0;
  }

  predicate Matches(c: Cell<Entry>, hash: nat, key: Key) {
    c.Occupied? && c.hash == hash && StrLen(c.v.buf) == |key| && c.v.buf[..|key|] == key
  }

  lemma MatchIsKey(c: Cell<Entry>, hash: nat, key: Key)
    ensures Matches(c, hash, key) <==> c.Occupied? && c.hash == hash && KeyOf(c.v) == key
    ensures Matches(c, hash, key) ==> 0 !in key
  {
  }

  // What every table built by these operations satisfies, whatever the keys.
  ghost predicate Sound(t: Table) {
    PowerOfTwo(|t|) && |t| >= INITIAL_CAP && Reachable(t) && 10 * Count(t) <= 7 * |t|
  }

  ghost predicate GoodEntry(h: Key -> nat, hash: nat, e: Entry) {
    var k := KeyOf(e);
    0 < |k| < KEY_SIZE && hash == h(k)
  }

  ghost predicate Distinct(t: Table) {
    forall i, j :: 0 <= i < j < |t| && t[i].Occupied? && t[j].Occupied? ==> KeyOf(t[i].v) != KeyOf(t[j].v)
  }

  // What it satisfies when every key was free of NUL.
  ghost predicate Clean(h: Key -> nat, t: Table) {
    && Distinct(t)
    && forall i :: 0 <= i < |t| && t[i].Occupied? ==> GoodEntry(h, t[i].hash, t[i].v)
  }

  // ----- the map a table stands for -----

  ghost function MapOf(t: Table): map<Key, int> {
    if |t| == 0 then map[]
    else
      var n := |t| - 1;
      if t[n].Occupied? then MapOf(t[..n])[KeyOf(t[n].v) := t[n].v.value] else MapOf(t[..n])
  }

  ghost predicate HasKey(t: Table, k: Key) {
    exists i :: 0 <= i < |t| && t[i].Occupied? && KeyOf(t[i].v) == k
  }

  lemma {:induction false} MapAt(t: Table, k: Key)
    ensures k in MapOf(t) <==> HasKey(t, k)
    ensures Distinct(t) ==>
              forall i :: 0 <= i < |t| && t[i].Occupied? && KeyOf(t[i].v) == k ==>
                k in MapOf(t) && MapOf(t)[k] == t[i].v.value
  {
    hide KeyOf;
    if |t| > 0 {
      var n := |t| - 1;
      MapAt(t[..n], k);
      assert forall i :: 0 <= i < n ==> t[..n][i] == t[i];
    }
  }

  lemma {:induction false} MapSize(t: Table)
    requires Distinct(t)
    ensures |MapOf(t)| == Count(t)
  {
    hide KeyOf;
    if |t| > 0 {
      var n := |t| - 1;
      MapSize(t[..n]);
      if t[n].Occupied? { MapAt(t[..n], KeyOf(t[n].v)); }
    }
  }

  // Writing an entry for a key that no other cell holds updates the map at that key.
  lemma MapWrite(h: Key -> nat, t: Table, i: nat, hash: nat, e: Entry)
    requires Clean(h, t) && i < |t| && GoodEntry(h, hash, e)
    requires !t[i].Occupied? || KeyOf(t[i].v) == KeyOf(e)
    requires forall j :: 0 <= j < |t| && j != i && t[j].Occupied? ==> KeyOf(t[j].v) != KeyOf(e)
    ensures Clean(h, t[i := Occupied(hash, e)])
    ensures MapOf(t[i := Occupied(hash, e)]) == MapOf(t)[KeyOf(e) := e.value]
  {
    hide KeyOf, GoodEntry;
    var u := t[i := Occupied(hash, e)];
    forall k ensures k in MapOf(u) <==> k in MapOf(t) || k == KeyOf(e) {
      MapAt(t, k);
      MapAt(u, k);
      if HasKey(t, k) {
        var j :| 0 <= j < |t| && t[j].Occupied? && KeyOf(t[j].v) == k;
        assert u[j].Occupied?;
      }
      if k == KeyOf(e) { assert u[i].Occupied?; }
    }
    forall k | k in MapOf(u) ensures MapOf(u)[k] == if k == KeyOf(e) then e.value else MapOf(t)[k] {
      MapAt(t, k);
      MapAt(u, k);
      var j :| 0 <= j < |u| && u[j].Occupied? && KeyOf(u[j].v) == k;
    }
  }

  lemma MapErase(h: Key -> nat, t: Table, i: nat)
    requires Clean(h, t) && i < |t| && t[i].Occupied?
    ensures Clean(h, t[i := Tombstone])
    ensures MapOf(t[i := Tombstone]) == MapOf(t) - {KeyOf(t[i].v)}
  {
    hide KeyOf, GoodEntry;
    var u := t[i := Tombstone];
    forall k ensures k in MapOf(u) <==> k in MapOf(t) && k != KeyOf(t[i].v) {
      MapAt(t, k);
      MapAt(u, k);
      if HasKey(t, k) && k != KeyOf(t[i].v) {
        var j :| 0 <= j < |t| && t[j].Occupied? && KeyOf(t[j].v) == k;
        assert u[j].Occupied?;
      }
    }
    forall k | k in MapOf(u) ensures MapOf(u)[k] == MapOf(t)[k] {
      MapAt(t, k);
      MapAt(u, k);
      var j :| 0 <= j < |u| && u[j].Occupied? && KeyOf(u[j].v) == k;
    }
  }

  // ----- searching -----

  // Where a search may end: at the match, or with nothing stored under the key and a free
  // cell on the way.
  ghost predicate FoundAt(t: Table, hash: nat, key: Key, slot: int) {
    && PowerOfTwo(|t|) && -|t| <= slot < |t|
    && (slot >= 0 ==> Matches(t[slot], hash, key))
    && (slot < 0 ==>
          && !t[-(slot + 1)].Occupied?
          && Solid(t, Home(hash, |t|), Dist(Home(hash, |t|), -(slot + 1), |t|))
          && forall i :: 0 <= i < |t| ==> !Matches(t[i], hash, key))
  }

  // Nothing matches anywhere once the probes up to an empty cell, or all of them, did not.
  lemma NoMatch(t: Table, hash: nat, key: Key, p: nat)
    requires PowerOfTwo(|t|) && Reachable(t) && p <= |t|
    requires p < |t| ==> t[Step(Home(hash, |t|), p, |t|)].Empty?
    requires forall k :: 0 <= k < p ==> !Matches(t[Step(Home(hash, |t|), k, |t|)], hash, key)
    ensures forall i :: 0 <= i < |t| ==> !Matches(t[i], hash, key)
  {
    hide Home, PowerOfTwo, Reachable;
    forall i | 0 <= i < |t| ensures !Matches(t[i], hash, key) {
      if t[i].Occupied? && t[i].hash == hash { NotMet(t, hash, p, i); }
    }
  }

  // After a key's entry was written where its search ended, a search finds it if and only if
  // the key has no NUL byte.
  lemma FoundIffNulFree(t: Table, hash: nat, key: Key, value: int, slot: int, again: int)
    requires Sound(t) && |key| < KEY_SIZE && FoundAt(t, hash, key, slot) && slot < 0
    requires FoundAt(t[-(slot + 1) := Occupied(hash, Entry(Buffer(key), value))], hash, key, again)
    ensures again >= 0 <==> 0 !in key
  {
    var u := t[-(slot + 1) := Occupied(hash, Entry(Buffer(key), value))];
    BufferKey(key, value);
    if again >= 0 {
      MatchIsKey(u[again], hash, key);
    } else {
      assert !Matches(u[-(slot + 1)], hash, key);
    }
  }

  // For instance the key "a", NUL, "b": stored, and never found again.
  lemma NulKeyIsLost(t: Table, hash: nat, value: int, slot: int, again: int)
    requires Sound(t) && FoundAt(t, hash, [97, 0, 98], slot) && slot < 0
    requires FoundAt(t[-(slot + 1) := Occupied(hash, Entry(Buffer([97, 0, 98]), value))], hash, [97, 0, 98], again)
    ensures again < 0
  {
    assert [97, 0, 98][1] == 0;
    FoundIffNulFree(t, hash, [97, 0, 98], value, slot, again);
  }

  // ----- the saved form -----

  // What a new key must satisfy beside the entries of m for the table to stay clean: the
  // part before its first NUL byte is a proper key, hashes like the whole and is not taken.
  ghost predicate Storable(h: Key -> nat, m: map<Key, int>, key: Key) {
    var p := Measured(key);
    0 !in key || (p != [] && h(p) == h(key) && p !in m)
  }

  // A saved table: the entry count and the raw slots written.
  datatype Saved = Saved(count: int, records: Table)

  // kv_fill writes the occupied slots in table order.
  function Records(t: Table): (r: Table)
    ensures |r| == Count(t)
    ensures forall i :: 0 <= i < |r| ==> r[i].Occupied? && r[i] in t
  {
    if |t| == 0 then []
    else if t[|t| - 1].Occupied? then Records(t[..|t| - 1]) + [t[|t| - 1]]
    else Records(t[..|t| - 1])
  }

  // What jinn_kv_open accepts: a count that matches the file's size, and only occupied
  // entries with a proper key, the key's hash and no key twice.
  ghost predicate Loadable(h: Key -> nat, f: Saved) {
    && f.count == |f.records|
    && (forall i :: 0 <= i < |f.records| ==> f.records[i].Occupied? && GoodEntry(h, f.records[i].hash, f.records[i].v))
    && Distinct(f.records)
  }

  lemma {:induction false} SavedMap(t: Table)
    ensures MapOf(Records(t)) == MapOf(t)
  {
    hide KeyOf;
    if |t| > 0 {
      SavedMap(t[..|t| - 1]);
      var r := Records(t[..|t| - 1]);
      assert (r + [t[|t| - 1]])[..|r|] == r;
    }
  }

  // What is saved of a table can be loaded if and only if the table is clean.
  lemma {:induction false} SavedLoads(h: Key -> nat, t: Table)
    ensures Loadable(h, Saved(Count(t), Records(t))) <==> Clean(h, t)
  {
    hide KeyOf, GoodEntry, Distinct, HasKey, MapOf;
    if |t| > 0 {
      var n := |t| - 1;
      var rest := t[..n];
      SavedLoads(h, rest);
      assert t == rest + [t[n]];
      CleanMore(h, rest, t[n]);
      if t[n].Occupied? {
        CleanMore(h, Records(rest), t[n]);
        SavedMap(rest);
        MapAt(rest, KeyOf(t[n].v));
        MapAt(Records(rest), KeyOf(t[n].v));
      }
    }
  }

  lemma CleanMore(h: Key -> nat, t: Table, c: Cell<Entry>)
    ensures Clean(h, t + [c])
       <==> Clean(h, t) && (c.Occupied? ==> GoodEntry(h, c.hash, c.v) && !HasKey(t, KeyOf(c.v)))
  {
    hide KeyOf, GoodEntry;
    var u := t + [c];
    assert u[|t|] == c && forall i :: 0 <= i < |t| ==> u[i] == t[i];
  }

  class Kv {
    const h: Key -> nat
    var slots: array<Cell<Entry>>
    var count: nat

    ghost predicate Valid()
      reads this, slots
    {
      Sound(slots[..]) && Clean(h, slots[..]) && count == Count(slots[..])
    }

    ghost function Map(): map<Key, int>
      reads this, slots
    {
      MapOf(slots[..])
    }

    constructor (hash: Key -> nat)
      ensures Valid() && fresh(slots) && h == hash && Map() == map[] && slots.Length == INITIAL_CAP && count == 0
    {
      h := hash;
      slots := new Cell<Entry>[INITIAL_CAP](_ => Empty);
      count := 0;
      new;
      assert PowerOfTwo(4) && PowerOfTwo(16);
      EmptyTable(h, slots[..]);
    }

    // kv_find_slot: the slot with the key, or -(slot + 1) for the free slot to put it in.
    method FindSlot(hash: nat, key: Key) returns (slot: int)
      requires Sound(slots[..])
      ensures FoundAt(slots[..], hash, key, slot)
    {
      hide PowerOfTwo, Reachable, And, Matches, FoundAt, Dist, Home;
      ghost var home, t := Home(hash, slots.Length), slots[..];
      var at := Slot(hash, slots.Length);
      HomeIs(hash, slots.Length);
      var tombstone: int := -1;
      ghost var d := 0;
      var probes := 0;
      while probes < slots.Length
        invariant probes <= slots.Length && at == Step(home, if probes < slots.Length then probes else 0, slots.Length)
        invariant -1 <= tombstone < slots.Length
        invariant tombstone >= 0 ==> t[tombstone].Tombstone? && d < probes && Step(home, d, slots.Length) == tombstone
        invariant tombstone < 0 ==> forall k :: 0 <= k < probes ==> t[Step(home, k, slots.Length)].Occupied?
        invariant Solid(t, home, probes)
        invariant forall k :: 0 <= k < probes ==> !Matches(t[Step(home, k, slots.Length)], hash, key)
        decreases slots.Length - probes
      {
        var s := slots[at];
        assert s == t[at];
        if s.Tombstone? && tombstone < 0 { tombstone, d := at, probes; }
        if s.Empty? {
          NoMatch(t, hash, key, probes);
          if tombstone < 0 { tombstone, d := at, probes; }
          FreeFound(t, hash, key, tombstone, d, probes);
          return -(tombstone + 1);
        }
        if s.Occupied? && s.hash == hash {
          if Matches(s, hash, key) {
            MatchFound(t, hash, key, at);
            return at;
          }
        } else {
          OtherHash(s, hash, key);
        }
        NextProbe(home, probes, slots.Length);
        at := Slot(at + 1, slots.Length);
        probes := probes + 1;
      }
      NoMatch(t, hash, key, probes);
      if tombstone < 0 {
        FullTurn(t, home);
        assert false;
      }
      FreeFound(t, hash, key, tombstone, d, probes);
      slot := -(tombstone + 1);
    }

    // Put an entry where the search for its key ended without a match.
    method Write(slot: nat, hash: nat, e: Entry)
      requires Sound(slots[..]) && slot < slots.Length && !slots[slot].Occupied? && count == Count(slots[..])
      requires Solid(slots[..], Home(hash, slots.Length), Dist(Home(hash, slots.Length), slot, slots.Length))
      requires 10 * (count + 1) <= 7 * slots.Length
      modifies this`count, slots
      ensures slots[..] == old(slots[..])[slot := Occupied(hash, e)]
      ensures Sound(slots[..]) && count == Count(slots[..]) == old(count) + 1
    {
      hide PowerOfTwo, Reachable, And;
      ghost var t := slots[..];
      PutKeeps(t, hash, e, Dist(Home(hash, slots.Length), slot, slots.Length));
      CountUpdate(t, slot, Occupied(hash, e));
      slots[slot] := Occupied(hash, e);
      count := count + 1;
      assert slots[..] == t[slot := Occupied(hash, e)];
    }

    // Take over an entry of another table or of a file; true if its key is here already.
    method Adopt(c: Cell<Entry>) returns (duplicate: bool)
      requires Valid() && c.Occupied? && GoodEntry(h, c.hash, c.v) && 10 * (count + 1) <= 7 * slots.Length
      modifies this`count, slots
      ensures Valid() && duplicate == (KeyOf(c.v) in old(Map()))
      ensures duplicate ==> Map() == old(Map()) && count == old(count)
      ensures !duplicate ==> Map() == old(Map())[KeyOf(c.v) := c.v.value] && count == old(count) + 1
    {
      hide PowerOfTwo, Reachable, And, KeyOf, Sound;
      var key := KeyOf(c.v);
      var slot := FindSlot(c.hash, key);
      ghost var t := slots[..];
      Found(h, t, key, slot);
      if slot >= 0 { return true; }
      var at := -(slot + 1);
      MapWrite(h, t, at, c.hash, c.v);
      Write(at, c.hash, c.v) by { assert Sound(slots[..]); }
      return false;
    }

    // kv_grow: an empty table of twice the size, every entry taken over.
    method Grow()
      requires Valid()
      modifies this
      ensures Valid() && fresh(slots) && slots.Length == 2 * old(slots.Length)
      ensures Map() == old(Map()) && count == old(count)
    {
      hide PowerOfTwo, Reachable, And, KeyOf, GoodEntry, Distinct;
      var before := slots;
      ghost var t := before[..];
      DoubledPower(before.Length);
      slots := new Cell<Entry>[2 * before.Length](_ => Empty);
      count := 0;
      EmptyTable(h, slots[..]);
      for i := 0 to before.Length
        invariant before[..] == t && fresh(slots) && slots != before && slots.Length == 2 * before.Length
        invariant Valid() && count == Count(t[..i]) && Map() == MapOf(t[..i])
      {
        assert t[..i + 1][..i] == t[..i];
        PrefixCount(t, i + 1);
        if before[i].Occupied? {
          NewKey(t, i);
          var _ := Adopt(before[i]);
        }
      }
      assert t[..before.Length] == t;
    }

    // The common part of jinn_kv_set and jinn_kv_incr for a key not in the table.
    method Add(hash: nat, key: Key, value: int, slot: int)
      requires Valid() && 0 < |key| < KEY_SIZE && hash == h(key)
      requires slot < 0 && FoundAt(slots[..], hash, key, slot)
      modifies this, slots
      ensures slots == old(slots) || fresh(slots)
      ensures Sound(slots[..])
      ensures Valid() <==> Storable(h, old(Map()), key)
      ensures Valid() ==> Map() == old(Map())[Measured(key) := value]
      ensures Loadable(h, Saved(count, Records(slots[..]))) <==> Valid()
      ensures count == old(count) + 1
      ensures slots.Length == if 10 * (old(count) + 1) > 7 * old(slots.Length) then 2 * old(slots.Length)
                              else old(slots.Length)
      ensures forall again :: FoundAt(slots[..], hash, key, again) ==> (again >= 0 <==> 0 !in key)
    {
      hide PowerOfTwo, Reachable, And, KeyOf, Distinct, FoundAt, GoodEntry, Loadable, Records, Clean, Storable,
        Measured;
      var at := slot;
      Found(h, slots[..], key, slot);
      if 10 * (count + 1) > 7 * slots.Length {
        Grow();
        at := FindSlot(hash, key);
        Found(h, slots[..], key, at);
      }
      ghost var t := slots[..];
      FreeSlot(t, hash, key, at);
      var e := Entry(Buffer(key), value);
      AddedClean(h, t, at, key, value);
      Write(-(at + 1), hash, e);
      SavedLoads(h, slots[..]);
      forall again | FoundAt(slots[..], hash, key, again) ensures again >= 0 <==> 0 !in key {
        FoundIffNulFree(t, hash, key, value, at, again);
      }
    }

    // jinn_kv_set
    method Set(key: Key, value: int)
      requires Valid()
      modifies this, slots
      ensures slots == old(slots) || fresh(slots)
      ensures key == [] ==> Valid() && Map() == old(Map()) && count == old(count)
      ensures 0 < |key| <= 255 && 0 !in key ==> Valid() && Map() == old(Map())[key := value]
      ensures |key| > 255 && 0 !in key[..255] ==> Valid() && Map() == old(Map())[key[..255] := value]
      ensures key != [] ==> (Valid() <==> Storable(h, old(Map()), Cut(key)))
      ensures Valid() <==> Loadable(h, Saved(count, Records(slots[..])))
      ensures key != [] && Valid() ==> Map() == old(Map())[Measured(Cut(key)) := value]
      ensures key != [] ==>
                forall again :: FoundAt(slots[..], h(Cut(key)), Cut(key), again) ==> (again >= 0 <==> 0 !in Cut(key))
    {
      hide PowerOfTwo, Reachable, And, KeyOf, Distinct, FoundAt, GoodEntry, Sound, Loadable, Records, Clean, Measured;
      SavedLoads(h, slots[..]);
      if |key| == 0 { return; }
      var k := Cut(key);
      MeasuredKey(k, value);
      var slot := FindSlot(h(k), k);
      Found(h, slots[..], k, slot);
      if slot >= 0 {
        Overwrite(slot, k, value);
        SavedLoads(h, slots[..]);
      } else {
        Add(h(k), k, value, slot);
      }
    }

    // A new value in the slot the key was found in.
    method Overwrite(slot: nat, key: Key, value: int)
      requires Valid() && slot < slots.Length && FoundAt(slots[..], h(key), key, slot)
      modifies slots
      ensures Valid() && 0 !in key && key in old(Map()) && Map() == old(Map())[key := value]
      ensures forall again :: FoundAt(slots[..], h(key), key, again) ==> again >= 0
    {
      hide PowerOfTwo, And, Distinct, Solid;
      ghost var t := slots[..];
      Found(h, t, key, slot);
      MatchIsKey(t[slot], h(key), key);
      var c := slots[slot];
      slots[slot] := Occupied(c.hash, Entry(c.v.buf, value));
      ghost var u := t[slot := Occupied(c.hash, Entry(c.v.buf, value))];
      assert slots[..] == u;
      CountUpdate(t, slot, Occupied(c.hash, Entry(c.v.buf, value)));
      Revalued(h, t, slot, value);
      SameShape(t, slot, value);
      assert Matches(u[slot], h(key), key);
    }

    // jinn_kv_get
    method Get(key: Key) returns (value: int)
      requires Valid()
      ensures 0 < |key| <= 255 ==> value == if key in Map() then Map()[key] else 0
      ensures |key| > 255 ==> value == if key[..255] in Map() then Map()[key[..255]] else 0
      ensures key == [] ==> value == 0
    {
      hide PowerOfTwo, Reachable, And, KeyOf, Distinct, FoundAt, GoodEntry, Sound;
      if |key| == 0 { return 0; }
      var k := Cut(key);
      var slot := FindSlot(h(k), k);
      Found(h, slots[..], k, slot);
      return if slot >= 0 then slots[slot].v.value else 0;
    }

    // jinn_kv_has
    method Has(key: Key) returns (found: bool)
      requires Valid()
      ensures found <==> key != [] && (if |key| <= 255 then key else key[..255]) in Map()
    {
      hide PowerOfTwo, Reachable, And, KeyOf, Distinct, FoundAt, GoodEntry, Sound;
      if |key| == 0 { return false; }
      var k := Cut(key);
      var slot := FindSlot(h(k), k);
      Found(h, slots[..], k, slot);
      return slot >= 0;
    }

    // jinn_kv_del
    method Del(key: Key)
      requires Valid()
      modifies this`count, slots
      ensures Valid()
      ensures |key| <= 255 ==> Map() == if key == [] then old(Map()) else old(Map()) - {key}
      ensures |key| > 255 ==> Map() == old(Map()) - {key[..255]}
    {
      hide PowerOfTwo, Reachable, And, KeyOf, Distinct, FoundAt, GoodEntry;
      if |key| == 0 { return; }
      var k := Cut(key);
      var slot := FindSlot(h(k), k);
      ghost var t := slots[..];
      Found(h, t, k, slot);
      if slot >= 0 {
        BuryKeeps(t, slot);
        CountUpdate(t, slot, Tombstone);
        MapErase(h, t, slot);
        slots[slot] := Tombstone;
        count := count - 1;
        assert slots[..] == t[slot := Tombstone];
      } else {
        assert Map() - {k} == Map();
      }
    }

    // jinn_kv_incr
    method Incr(key: Key, delta: int)
      requires Valid()
      modifies this, slots
      ensures slots == old(slots) || fresh(slots)
      ensures key == [] ==> Valid() && Map() == old(Map()) && count == old(count)
      ensures var m, k := old(Map()), if |key| <= 255 then key else key[..255];
              key != [] && 0 !in k ==> Valid() && Map() == m[k := if k in m then m[k] + delta else delta]
      ensures key != [] ==> (Valid() <==> Storable(h, old(Map()), Cut(key)))
      ensures Valid() <==> Loadable(h, Saved(count, Records(slots[..])))
      ensures key != [] && 0 in Cut(key) && Valid() ==> Map() == old(Map())[Measured(Cut(key)) := delta]
      ensures key != [] ==>
                forall again :: FoundAt(slots[..], h(Cut(key)), Cut(key), again) ==> (again >= 0 <==> 0 !in Cut(key))
    {
      hide PowerOfTwo, Reachable, And, KeyOf, Distinct, FoundAt, GoodEntry, Sound, Loadable, Records, Clean, Measured;
      SavedLoads(h, slots[..]);
      if |key| == 0 { return; }
      var k := Cut(key);
      MeasuredKey(k, delta);
      var slot := FindSlot(h(k), k);
      Found(h, slots[..], k, slot);
      if slot >= 0 {
        Overwrite(slot, k, slots[slot].v.value + delta);
        SavedLoads(h, slots[..]);
      } else {
        Add(h(k), k, delta, slot);
      }
    }

    // jinn_kv_count
    method Size() returns (n: nat)
      requires Valid()
      ensures n == |Map()|
    {
      MapSize(slots[..]);
      return count;
    }

    // kv_fill
    method Fill() returns (f: Saved)
      requires Valid()
      ensures f == Saved(count, Records(slots[..])) && Loadable(h, f) && MapOf(f.records) == Map()
    {
      hide PowerOfTwo, Reachable, KeyOf, GoodEntry, Distinct;
      var records: Table := [];
      ghost var t := slots[..];
      for i := 0 to slots.Length
        invariant records == Records(t[..i])
      {
        assert t[..i + 1][..i] == t[..i];
        if slots[i].Occupied? { records := records + [slots[i]]; }
      }
      assert t[..slots.Length] == t;
      SavedLoads(h, t);
      SavedMap(t);
      f := Saved(count, records);
    }
  }

  // jinn_kv_open on a saved table; no result stands for the fail-stop on a file it refuses.
  method Open(h: Key -> nat, f: Saved) returns (r: Option<Kv>)
    ensures r.Some? <==> Loadable(h, f)
    ensures r.Some? ==> fresh(r.value) && r.value.Valid() && r.value.h == h && r.value.Map() == MapOf(f.records)
  {
    hide PowerOfTwo, Reachable, And, KeyOf, GoodEntry;
    if f.count != |f.records| { return None; }
    var kv := new Kv(h);
    while 10 * (f.count + 1) > 7 * kv.slots.Length
      invariant kv.Valid() && fresh(kv) && fresh(kv.slots) && kv.h == h && kv.Map() == map[] && kv.count == 0
      decreases 10 * (f.count + 1) - 7 * kv.slots.Length
    {
      kv.Grow();
    }
    for i := 0 to |f.records|
      invariant kv.Valid() && fresh(kv) && fresh(kv.slots) && kv.h == h && kv.count == i
      invariant 10 * (f.count + 1) <= 7 * kv.slots.Length
      invariant kv.Map() == MapOf(f.records[..i])
      invariant Distinct(f.records[..i])
      invariant forall j :: 0 <= j < i ==>
                  f.records[j].Occupied? && GoodEntry(h, f.records[j].hash, f.records[j].v)
    {
      var c := f.records[i];
      if !c.Occupied? || !EntryOk(h, c) { return None; }
      assert f.records[..i + 1][..i] == f.records[..i];
      var duplicate := kv.Adopt(c);
      if duplicate {
        SeenBefore(f.records, i);
        return None;
      }
      DistinctMore(f.records, i);
    }
    assert f.records[..|f.records|] == f.records;
    return Some(kv);
  }

  predicate EntryOk(h: Key -> nat, c: Cell<Entry>)
    requires c.Occupied?
    ensures EntryOk(h, c) <==> GoodEntry(h, c.hash, c.v)
  {
    0 < StrLen(c.v.buf) < KEY_SIZE && h(KeyOf(c.v)) == c.hash
  }

  lemma SeenBefore(t: Table, i: nat)
    requires i < |t| && t[i].Occupied? && KeyOf(t[i].v) in MapOf(t[..i])
    ensures !Distinct(t)
  {
    MapAt(t[..i], KeyOf(t[i].v));
    var j :| 0 <= j < i && t[..i][j].Occupied? && KeyOf(t[..i][j].v) == KeyOf(t[i].v);
    assert t[j] == t[..i][j];
  }

  lemma DistinctMore(t: Table, i: nat)
    requires i < |t| && t[i].Occupied? && Distinct(t[..i]) && KeyOf(t[i].v) !in MapOf(t[..i])
    ensures Distinct(t[..i + 1])
  {
    hide KeyOf;
    MapAt(t[..i], KeyOf(t[i].v));
    assert forall j :: 0 <= j < i ==> t[..i + 1][j] == t[..i][j];
  }

  // Saving a table and loading what was saved succeeds and gives a table for the same map.
  method SaveAndReload(kv: Kv) returns (r: Option<Kv>)
    requires kv.Valid()
    ensures r.Some? && r.value.Valid() && r.value.Map() == kv.Map()
  {
    var f := kv.Fill();
    r := Open(kv.h, f);
  }

  // ----- lemmas for the methods -----

  lemma EmptyTable(h: Key -> nat, t: Table)
    requires PowerOfTwo(|t|) && |t| >= INITIAL_CAP && forall i :: 0 <= i < |t| ==> t[i].Empty?
    ensures Sound(t) && Clean(h, t) && Count(t) == 0 && MapOf(t) == map[]
  {
    NoneOccupied(t);
    forall k ensures k !in MapOf(t) {
      MapAt(t, k);
    }
  }

  lemma HomeIs(hash: nat, cap: nat)
    requires PowerOfTwo(cap)
    ensures cap > 0 && Home(hash, cap) == Slot(hash, cap) < cap && Step(Home(hash, cap), 0, cap) == Slot(hash, cap)
  {
    SlotRange(hash, cap);
  }

  // The two ways a search ends.
  lemma FreeFound(t: Table, hash: nat, key: Key, at: nat, d: nat, probes: nat)
    requires PowerOfTwo(|t|) && at < |t| && !t[at].Occupied?
    requires d <= probes <= |t| && d < |t| && Step(Home(hash, |t|), d, |t|) == at && Solid(t, Home(hash, |t|), probes)
    requires forall i :: 0 <= i < |t| ==> !Matches(t[i], hash, key)
    ensures FoundAt(t, hash, key, -(at + 1))
  {
    hide PowerOfTwo, Matches, Home;
    assert Dist(Home(hash, |t|), at, |t|) == d;
  }

  lemma MatchFound(t: Table, hash: nat, key: Key, at: nat)
    requires PowerOfTwo(|t|) && at < |t| && Matches(t[at], hash, key)
    ensures FoundAt(t, hash, key, at)
  {
    hide Matches;
  }

  lemma OtherHash(c: Cell<Entry>, hash: nat, key: Key)
    requires !(c.Occupied? && c.hash == hash)
    ensures !Matches(c, hash, key)
  {
  }

  // In a clean table a search for a key finds it exactly when the map has it.
  lemma Found(h: Key -> nat, t: Table, key: Key, slot: int)
    requires Sound(t) && Clean(h, t) && FoundAt(t, h(key), key, slot)
    ensures slot < |t| && (slot >= 0 <==> key in MapOf(t))
    ensures slot >= 0 ==>
              t[slot].Occupied? && t[slot].hash == h(key) && KeyOf(t[slot].v) == key && MapOf(t)[key] == t[slot].v.value
    ensures slot < 0 ==>
              && 0 <= -(slot + 1) < |t| && !t[-(slot + 1)].Occupied?
              && Solid(t, Home(h(key), |t|), Dist(Home(h(key), |t|), -(slot + 1), |t|))
              && forall j :: 0 <= j < |t| && t[j].Occupied? ==> KeyOf(t[j].v) != key
  {
    hide PowerOfTwo, Reachable, Home, Dist, Solid;
    MapAt(t, key);
    if slot >= 0 {
      MatchIsKey(t[slot], h(key), key);
    } else {
      forall j | 0 <= j < |t| && t[j].Occupied? ensures KeyOf(t[j].v) != key {
        MatchIsKey(t[j], h(key), key);
      }
    }
  }

  lemma FreeSlot(t: Table, hash: nat, key: Key, slot: int)
    requires FoundAt(t, hash, key, slot) && slot < 0
    ensures 0 <= -(slot + 1) < |t| && !t[-(slot + 1)].Occupied?
    ensures Solid(t, Home(hash, |t|), Dist(Home(hash, |t|), -(slot + 1), |t|))
  {
  }

  // A table stays clean under a new entry if and only if the key is storable.
  lemma AddedClean(h: Key -> nat, t: Table, slot: int, key: Key, value: int)
    requires Sound(t) && Clean(h, t) && FoundAt(t, h(key), key, slot) && slot < 0 && 0 < |key| < KEY_SIZE
    ensures 0 <= -(slot + 1) < |t|
    ensures var u := t[-(slot + 1) := Occupied(h(key), Entry(Buffer(key), value))];
            && (Clean(h, u) <==> Storable(h, MapOf(t), key))
            && (Clean(h, u) ==> MapOf(u) == MapOf(t)[Measured(key) := value])
  {
    hide PowerOfTwo, Reachable, KeyOf, Measured, Home, Dist, Solid;
    Found(h, t, key, slot);
    MeasuredKey(key, value);
    MapAt(t, Measured(key));
    var at, e := -(slot + 1), Entry(Buffer(key), value);
    var u := t[at := Occupied(h(key), e)];
    assert u[at].Occupied? && forall j :: 0 <= j < |t| && j != at ==> u[j] == t[j];
    if Storable(h, MapOf(t), key) { MapWrite(h, t, at, h(key), e); }
  }

  // A new key that is a NUL byte alone leaves a table whose saved form no open accepts.
  lemma LoneNulRefusesFile(h: Key -> nat, t: Table, slot: int, value: int)
    requires Sound(t) && Clean(h, t) && FoundAt(t, h([0]), [0], slot)
    ensures slot < 0 && 0 <= -(slot + 1) < |t|
    ensures var u := t[-(slot + 1) := Occupied(h([0]), Entry(Buffer([0]), value))];
            !Loadable(h, Saved(Count(u), Records(u)))
  {
    hide Loadable, Records, KeyOf;
    Found(h, t, [0], slot);
    assert [0][0] == 0;
    if slot >= 0 { MatchIsKey(t[slot], h([0]), [0]); }
    AddedClean(h, t, slot, [0], value);
    SavedLoads(h, t[-(slot + 1) := Occupied(h([0]), Entry(Buffer([0]), value))]);
  }

  lemma Revalued(h: Key -> nat, t: Table, i: nat, value: int)
    requires Clean(h, t) && i < |t| && t[i].Occupied?
    ensures var u := t[i := Occupied(t[i].hash, Entry(t[i].v.buf, value))];
            Clean(h, u) && MapOf(u) == MapOf(t)[KeyOf(t[i].v) := value]
  {
    MapWrite(h, t, i, t[i].hash, Entry(t[i].v.buf, value));
  }

  lemma SameShape(t: Table, i: nat, value: int)
    requires Sound(t) && i < |t| && t[i].Occupied?
    ensures Sound(t[i := Occupied(t[i].hash, Entry(t[i].v.buf, value))])
  {
    hide PowerOfTwo;
    var u := t[i := Occupied(t[i].hash, Entry(t[i].v.buf, value))];
    CountUpdate(t, i, u[i]);
    forall j | 0 <= j < |u| ensures ReachableAt(u, j) {
      assert ReachableAt(t, j);
    }
  }

  lemma DoubledPower(cap: nat)
    requires PowerOfTwo(cap)
    ensures PowerOfTwo(2 * cap)
  {
    assert 2 * cap / 2 == cap;
  }

  lemma {:induction false} PrefixCount(t: Table, n: nat)
    requires n <= |t|
    ensures Count(t[..n]) <= Count(t)
    decreases |t|
  {
    if n < |t| {
      var m := |t| - 1;
      assert t[..m][..n] == t[..n];
      PrefixCount(t[..m], n);
    } else {
      assert t[..n] == t;
    }
  }

  lemma NewKey(t: Table, i: nat)
    requires Distinct(t) && i < |t| && t[i].Occupied?
    ensures KeyOf(t[i].v) !in MapOf(t[..i])
  {
    hide KeyOf;
    MapAt(t[..i], KeyOf(t[i].v));
    assert forall j :: 0 <= j < i ==> t[..i][j] == t[j];
  }
}
