// `i & (size - 1)` on machine words, for the power-of-two sizes the runtime uses.
module Bits {
  // Bitwise and of two naturals.
  function And(x: nat, y: nat): nat {
    if x == 0 || y == 0 then 0 else (if x % 2 == 1 && y % 2 == 1 then 1 else 0) + 2 * And(x / 2, y / 2)
  }

  predicate PowerOfTwo(n: nat) {
    n == 1 || (n > 1 && n % 2 == 0 && PowerOfTwo(n / 2))
  }

  // Masking with size - 1 is the remainder, for a power of two.
  lemma {:induction false} MaskIsMod(i: nat, n: nat)
    requires PowerOfTwo(n)
    ensures And(i, n - 1) == i % n
  {
    if n == 1 {
      assert And(i, 0) == 0;
    } else if i > 0 {
      MaskIsMod(i / 2, n / 2);
      MaskStep(i, n / 2);
      ModHalves(i, n / 2);
    } else {
      ZeroMod(n);
    }
  }

  lemma ZeroMod(n: nat)
    requires n > 0
    ensures 0 % n == 0
  {
  }

  lemma MaskStep(i: nat, h: nat)
    requires h > 0 && i > 0
    ensures And(i, 2 * h - 1) == i % 2 + 2 * And(i / 2, h - 1)
  {
    assert (2 * h - 1) % 2 == 1 && (2 * h - 1) / 2 == h - 1;
  }

  lemma ModHalves(i: nat, h: nat)
    requires h > 0
    ensures i % (2 * h) == i % 2 + 2 * ((i / 2) % h)
  {
    var q, r := (i / 2) / h, (i / 2) % h;
    assert i / 2 == q * h + r;
    assert 2 * (q * h) == q * (2 * h);
    Remainder(i, 2 * h, q, 2 * r + i % 2);
  }

  lemma Remainder(i: nat, n: nat, q: nat, r: nat)
    requires n > 0 && r < n && i == q * n + r
    ensures i % n == r
  {
    var q1 := i / n;
    assert i == q1 * n + i % n;
    assert q * n - q1 * n == (q - q1) * n;
    SmallMultiple(q - q1, n, i % n - r);
  }

  lemma SmallMultiple(d: int, n: int, x: int)
    requires n > 0 && x == d * n && -n < x < n
    ensures x == 0
  {
    assert d * n == n + (d - 1) * n;
    assert d * n == -n - (-d - 1) * n;
    if d >= 1 {
      Product(d - 1, n);
    } else if d <= -1 {
      Product(-d - 1, n);
    }
  }

  lemma Product(a: nat, b: nat)
    ensures a * b >= 0
  {
  }

  // The slot of position i in a ring of the given size.
  function Slot(i: nat, size: nat): nat
    requires size > 0
  {
    And(i, size - 1)
  }

  lemma SlotRange(i: nat, size: nat)
    requires PowerOfTwo(size)
    ensures Slot(i, size) < size
  {
    MaskIsMod(i, size);
  }

  // Positions less than a full turn apart use different slots.
  lemma SlotDistinct(i: nat, j: nat, size: nat)
    requires PowerOfTwo(size) && i < j < i + size
    ensures Slot(i, size) != Slot(j, size)
  {
    hide And, PowerOfTwo;
    MaskIsMod(i, size);
    MaskIsMod(j, size);
    var qi, qj := i / size, j / size;
    assert i == qi * size + i % size && j == qj * size + j % size;
    assert qj * size - qi * size == (qj - qi) * size;
    if i % size == j % size {
      SmallMultiple(qj - qi, size, j - i);
    }
  }
}
