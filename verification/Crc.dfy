// The table-driven CRC-32 of runtime/wal.c:121-151 and the bit-serial register it
// computes (RFC 1952, section 8).
module CrcRegister {
  const POLY: bv32 := 0xEDB88320

  // The register operations, named so that proofs can use their laws alone.
  function Xor(a: bv32, b: bv32): bv32 { a ^ b }
  function Half(a: bv32): bv32 { a >> 1 }
  function Odd(a: bv32): bool { a & 1 == 1 }
  function Low(a: bv32): bv32 { a & 0xFF }
  function Drop(a: bv32): bv32 { a >> 8 }
  function High(a: bv32): bv32 { a & 0xFFFFFF00 }

  // One shift of the reflected register.
  function Shift(c: bv32): bv32 {
    if Odd(c) then Xor(POLY, Half(c)) else Half(c)
  }

  function Shifts(c: bv32, n: nat): bv32
    decreases n
  {
    if n == 0 then c else Shifts(Shift(c), n - 1)
  }

  // The register loses nothing: its lowest bit comes out as the highest.
  lemma ShiftInjective(a: bv32, b: bv32)
    requires Shift(a) == Shift(b)
    ensures a == b
  {
  }

  lemma {:induction false} ShiftsInjective(a: bv32, b: bv32, n: nat)
    requires Shifts(a, n) == Shifts(b, n)
    ensures a == b
    decreases n
  {
    hide Shift;
    if n > 0 {
      ShiftsInjective(Shift(a), Shift(b), n - 1);
      ShiftInjective(a, b);
    }
  }

  lemma XorInjective(a: bv32, b: bv32, w: bv32)
    ensures Xor(a, w) == Xor(b, w) ==> a == b
    ensures Xor(w, a) == Xor(w, b) ==> a == b
  {
  }

  lemma XorHalf(a: bv32, h: bv32)
    ensures Half(Xor(a, h)) == Xor(Half(a), Half(h))
  {
  }

  lemma XorAssociates(p: bv32, a: bv32, h: bv32)
    ensures Xor(p, Xor(a, h)) == Xor(Xor(p, a), h)
  {
  }

  lemma XorOdd(a: bv32, h: bv32)
    requires !Odd(h)
    ensures Odd(Xor(a, h)) == Odd(a)
  {
  }

  lemma ShiftSplit(a: bv32, h: bv32)
    requires !Odd(h)
    ensures Shift(Xor(a, h)) == Xor(Shift(a), Half(h))
  {
    hide Xor, Half, Odd;
    XorOdd(a, h);
    XorHalf(a, h);
    XorAssociates(POLY, Half(a), Half(h));
  }

  // n more halvings of h meet no set bit.
  ghost predicate Clear(h: bv32, n: nat)
    decreases n
  {
    n == 0 || (!Odd(h) && Clear(Half(h), n - 1))
  }

  ghost function Halves(h: bv32, n: nat): bv32
    decreases n
  {
    if n == 0 then h else Halves(Half(h), n - 1)
  }

  lemma {:induction false} ShiftsSplit(a: bv32, h: bv32, n: nat)
    requires Clear(h, n)
    ensures Shifts(Xor(a, h), n) == Xor(Shifts(a, n), Halves(h, n))
    decreases n
  {
    hide Xor, Half, Odd, Shift;
    if n > 0 {
      ShiftSplit(a, h);
      ShiftsSplit(Shift(a), Half(h), n - 1);
    }
  }

  lemma HighEven(y: bv32)
    ensures !Odd(High(y))
    ensures !Odd(Half(High(y)))
    ensures !Odd(Half(Half(High(y))))
    ensures !Odd(Half(Half(Half(High(y)))))
    ensures !Odd(Half(Half(Half(Half(High(y))))))
    ensures !Odd(Half(Half(Half(Half(Half(High(y)))))))
    ensures !Odd(Half(Half(Half(Half(Half(Half(High(y))))))))
    ensures !Odd(Half(Half(Half(Half(Half(Half(Half(High(y)))))))))
  {
  }

  lemma HighDrop(y: bv32)
    ensures Half(Half(Half(Half(Half(Half(Half(Half(High(y))))))))) == Drop(y)
  {
  }

  lemma LowHigh(y: bv32)
    ensures Xor(Low(y), High(y)) == y
  {
  }

  lemma HighClear(y: bv32)
    ensures Clear(High(y), 8) && Halves(High(y), 8) == Drop(y) && Xor(Low(y), High(y)) == y
  {
    hide Xor, Low, High, Drop, Half, Odd;
    HighEven(y);
    HighDrop(y);
    LowHigh(y);
    var h4 := Half(Half(Half(Half(High(y)))));
    assert Clear(h4, 4) && Halves(h4, 4) == Drop(y);
  }

  // Bits above the lowest eight pass through eight shifts unchanged, so a table of the
  // 256 low parts is enough.
  lemma TableSplit(y: bv32)
    ensures Shifts(y, 8) == Xor(Shifts(Low(y), 8), Drop(y))
  {
    hide Xor, Low, High, Drop, Shifts, Clear, Halves;
    HighClear(y);
    ShiftsSplit(Low(y), High(y), 8);
  }
}

// Bytes and table indices as register values.
module CrcWords {
  import opened Bytes
  import opened CrcRegister

  function Word(i: byte): bv32 { i as bv32 }

  function Index(y: bv32): byte
  {
    LowIsByte(y);
    Low(y) as int
  }

  lemma LowSmall(y: bv32)
    ensures Low(y) <= 0xFF
  {
  }

  lemma LowIsByte(y: bv32)
    ensures 0 <= Low(y) as int < 256
  {
    hide Low;
    LowSmall(y);
  }

  lemma WordSmall(b: byte)
    ensures Word(b) <= 0xFF
  {
  }

  lemma DropXor(c: bv32, w: bv32)
    requires w <= 0xFF
    ensures Drop(Xor(c, w)) == Drop(c)
  {
  }

  lemma WordOfInt(y: bv32)
    requires 0 <= y as int < 256
    ensures Word(y as int) == y
  {
  }

  lemma WordOfIndex(y: bv32)
    ensures Word(Index(y)) == Low(y)
  {
    hide Low, Word;
    LowIsByte(y);
    WordOfInt(Low(y));
  }
}

module Crc {
  import opened Bytes
  import opened CrcRegister
  import opened CrcWords

  const SEED: bv32 := 0xFFFFFFFF

  // Feed one byte to the register, a bit at a time.
  function FeedByte(c: bv32, b: byte): bv32 {
    Shifts(Xor(c, Word(b)), 8)
  }

  // Feed a whole buffer.
  function Feed(c: bv32, data: seq<byte>): bv32
    decreases |data|
  {
    if |data| == 0 then c else Feed(FeedByte(c, data[0]), data[1..])
  }

  lemma FeedNothing(c: bv32)
    ensures Feed(c, []) == c
  {
  }

  // The inverted register as a number.
  function Number(c: bv32): (n: nat)
    ensures n < 0x1_0000_0000
  {
    (c ^ SEED) as nat
  }

  // The checksum as stored: inverted, little-endian.
  function Stored(c: bv32): (r: seq<byte>)
    ensures |r| == 4
  {
    LE(Number(c), 4)
  }

  lemma {:induction false} FeedSplit(c: bv32, a: seq<byte>, b: seq<byte>)
    ensures Feed(c, a + b) == Feed(Feed(c, a), b)
    decreases |a|
  {
    hide FeedByte;
    if |a| == 0 {
      assert a + b == b;
    } else {
      assert (a + b)[1..] == a[1..] + b;
      FeedSplit(FeedByte(c, a[0]), a[1..], b);
    }
  }

  // Registers that differ stay different over the same bytes.
  lemma {:induction false} FeedInjective(c: bv32, d: bv32, data: seq<byte>)
    requires Feed(c, data) == Feed(d, data)
    ensures c == d
    decreases |data|
  {
    hide Xor, Word, Shifts;
    if |data| > 0 {
      FeedInjective(FeedByte(c, data[0]), FeedByte(d, data[0]), data[1..]);
      ShiftsInjective(Xor(c, Word(data[0])), Xor(d, Word(data[0])), 8);
      XorInjective(c, d, Word(data[0]));
    }
  }

  // A single changed byte always changes the checksum.
  lemma ChangedByteShows(c: bv32, data: seq<byte>, i: nat, x: byte)
    requires i < |data| && x != data[i]
    ensures Feed(c, data[i := x]) != Feed(c, data)
  {
    hide Xor, Word, Shifts;
    var before, after := data[..i], data[i + 1..];
    assert data == before + ([data[i]] + after) && data[i := x] == before + ([x] + after);
    FeedSplit(c, before, [data[i]] + after);
    FeedSplit(c, before, [x] + after);
    var r := Feed(c, before);
    assert ([data[i]] + after)[1..] == after && ([x] + after)[1..] == after;
    if Feed(FeedByte(r, x), after) == Feed(FeedByte(r, data[i]), after) {
      FeedInjective(FeedByte(r, x), FeedByte(r, data[i]), after);
      ShiftsInjective(Xor(r, Word(x)), Xor(r, Word(data[i])), 8);
      XorInjective(Word(x), Word(data[i]), r);
      WordInjectiveAt(x, data[i]);
    }
  }

  lemma WordBack(i: byte)
    ensures Word(i) as int == i
  {
    assert (i as bv8) as bv32 == i as bv32;
  }

  lemma WordInjectiveAt(x: byte, y: byte)
    ensures Word(x) == Word(y) ==> x == y
  {
    hide Word;
    WordBack(x);
    WordBack(y);
  }

  function Register(n: nat): bv32
    requires n < 0x1_0000_0000
  {
    (n as bv32) ^ SEED
  }

  lemma NumberBack(c: bv32)
    ensures Register(Number(c)) == c
  {
    WordAndBack(c ^ SEED);
  }

  lemma WordAndBack(a: bv32)
    ensures (a as nat) as bv32 == a
  {
  }

  lemma StoredInjective(c: bv32, d: bv32)
    ensures Stored(c) == Stored(d) ==> c == d
  {
    hide LE, Range, Number, Register;
    WordRange();
    if Stored(c) == Stored(d) { WordInjective(Number(c), Number(d), 4); }
    NumberBack(c);
    NumberBack(d);
  }

  lemma WordRange()
    ensures Range(4) == 0x1_0000_0000
  {
  }

  // The check value of the CRC-32 of RFC 1952: the digits 1 to 9.
  lemma CheckValue()
    ensures Feed(SEED, [0x31, 0x32, 0x33, 0x34, 0x35, 0x36, 0x37, 0x38, 0x39]) ^ SEED == 0xCBF43926
  {
    assert FeedByte(SEED, 0x31) == 0x7C231048;
    assert FeedByte(0x7C231048, 0x32) == 0xB0ACBB32;
    assert FeedByte(0xB0ACBB32, 0x33) == 0x77B79C2D;
    assert FeedByte(0x77B79C2D, 0x34) == 0x641C1F5C;
    assert FeedByte(0x641C1F5C, 0x35) == 0x340AC5E3;
    assert FeedByte(0x340AC5E3, 0x36) == 0xF68D2C9E;
    assert FeedByte(0xF68D2C9E, 0x37) == 0xAFFC9660;
    assert FeedByte(0xAFFC9660, 0x38) == 0x651F2550;
    assert FeedByte(0x651F2550, 0x39) == 0x340BC6D9;
  }

  // crc32_init: the 256 table entries.
  method InitTable(table: array<bv32>)
    requires table.Length == 256
    modifies table
    ensures Filled(table[..])
  {
    hide Shift, Word;
    for i := 0 to 256
      invariant forall k :: 0 <= k < i ==> table[k] == Shifts(Word(k), 8)
    {
      var c := Word(i);
      for j := 0 to 8
        invariant Shifts(c, 8 - j) == Shifts(Word(i), 8)
      {
        c := Shift(c);
      }
      table[i] := c;
    }
  }

  ghost predicate Filled(table: seq<bv32>) {
    |table| == 256 && forall i: byte :: table[i] == Shifts(Word(i), 8)
  }

  // crc32_update: one table look-up per byte.
  method Update(table: array<bv32>, crc: bv32, data: seq<byte>) returns (r: bv32)
    requires Filled(table[..])
    ensures r == Feed(crc, data)
  {
    hide Shifts, Xor, Low, Drop, Word, Index;
    r := crc;
    for i := 0 to |data|
      invariant r == Feed(crc, data[..i])
    {
      var y := Xor(r, Word(data[i]));
      TableSplit(y);
      WordOfIndex(y);
      WordSmall(data[i]);
      DropXor(r, Word(data[i]));
      r := Xor(table[..][Index(y)], Drop(r));
      FeedSplit(crc, data[..i], [data[i]]);
      assert data[..i + 1] == data[..i] + [data[i]];
    }
    assert data[..|data|] == data;
  }
}
