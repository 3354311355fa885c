// Rounding a capacity up to a power of two (next_pow2), on 64-bit words.
module Capacities {
  import opened Bits

  function Pow(k: nat): (r: nat)
    ensures r >= 1
  {
    if k == 0 then 1 else 2 * Pow(k - 1)
  }

  function Or(x: nat, y: nat): nat
    decreases x + y
  {
    if x == 0 then y else if y == 0 then x
    else (if x % 2 == 1 || y % 2 == 1 then 1 else 0) + 2 * Or(x / 2, y / 2)
  }

  function Shr(v: nat, shift: nat): nat {
    if shift == 0 then v else Shr(v / 2, shift - 1)
  }

  function Smear(v: nat, shift: nat): nat { Or(v, Shr(v, shift)) }

  function NextPow2(v: nat): nat {
    if v == 0 then 1
    else (Smear(Smear(Smear(Smear(Smear(Smear(v - 1, 1), 2), 4), 8), 16), 32) + 1) % Pow(64)
  }

  // The bits k down to k + 1 - s of x are all set, and none above.
  ghost predicate TopSet(x: nat, k: nat, s: nat) {
    x < Pow(k + 1) && x + Pow(if s <= k + 1 then k + 1 - s else 0) >= Pow(k + 1)
  }

  lemma {:induction false} PowSplit(a: nat, b: nat)
    ensures Pow(a + b) == Pow(a) * Pow(b)
    decreases b
  {
    if b > 0 {
      PowSplit(a, b - 1);
      assert Pow(a + b) == 2 * Pow(a + (b - 1));
      assert Pow(a) * (2 * Pow(b - 1)) == 2 * (Pow(a) * Pow(b - 1));
    }
  }

  lemma {:induction false} OrBounds(x: nat, y: nat, k: nat)
    requires x < Pow(k) && y < Pow(k)
    ensures Or(x, y) < Pow(k) && Or(x, y) >= x && Or(x, y) >= y
    decreases k
  {
    if k > 0 && x > 0 && y > 0 { OrBounds(x / 2, y / 2, k - 1); }
  }

  // A high part that the second operand does not reach is untouched.
  lemma {:induction false} OrHigh(h: nat, lo: nat, y: nat, m: nat)
    requires lo < Pow(m) && y < Pow(m)
    ensures Or(h * Pow(m) + lo, y) == h * Pow(m) + Or(lo, y)
    decreases m
  {
    hide Or;
    if m == 0 {
      assert y == 0 && lo == 0;
      OrZero(h * Pow(m) + lo);
      OrZero(lo);
    } else {
      var p := Pow(m - 1);
      var x := h * Pow(m) + lo;
      Halves(h, p, lo);
      OrHigh(h, lo / 2, y / 2, m - 1);
      OrUnfold(lo, y);
      OrUnfold(x, y);
      Halves(h, p, Or(lo, y));
    }
  }

  lemma OrZero(x: nat)
    ensures Or(x, 0) == x
  {
  }

  lemma Halves(h: nat, p: nat, lo: nat)
    ensures h * (2 * p) == 2 * (h * p)
    ensures (h * (2 * p) + lo) / 2 == h * p + lo / 2 && (h * (2 * p) + lo) % 2 == lo % 2
  {
    assert h * (2 * p) == 2 * (h * p);
    TwiceMore(h * p, lo);
  }

  lemma TwiceMore(a: nat, b: nat)
    ensures (2 * a + b) / 2 == a + b / 2 && (2 * a + b) % 2 == b % 2
  {
  }

  lemma OrUnfold(x: nat, y: nat)
    ensures Or(x, y) == (if x % 2 == 1 || y % 2 == 1 then 1 else 0) + 2 * Or(x / 2, y / 2)
  {
    if x == 0 {
      assert Or(0, y / 2) == y / 2;
    } else if y == 0 {
      assert Or(x / 2, 0) == x / 2;
    }
  }

  lemma {:induction false} ShrBounds(x: nat, s: nat, lo: nat, hi: nat)
    requires lo * Pow(s) <= x < hi * Pow(s)
    ensures lo <= Shr(x, s) < hi
    decreases s
  {
    if s > 0 {
      Halved(lo, Pow(s - 1));
      Halved(hi, Pow(s - 1));
      ShrBounds(x / 2, s - 1, lo, hi);
    }
  }

  lemma Halved(a: nat, p: nat)
    ensures a * (2 * p) == 2 * (a * p)
  {
  }

  lemma LessTimes(a: nat, b: nat, d: nat)
    requires a <= b
    ensures a * d <= b * d
  {
  }

  lemma {:induction false} PowGrows(a: nat, b: nat)
    requires a <= b
    ensures Pow(a) <= Pow(b)
    decreases b
  {
    if a < b { PowGrows(a, b - 1); }
  }

  // One smear doubles the run of set bits at the top.
  lemma SmearDoubles(x: nat, k: nat, s: nat)
    requires s >= 1 && TopSet(x, k, s)
    ensures TopSet(Smear(x, s), k, 2 * s)
  {
    hide Or, Pow;
    var y := Shr(x, s);
    if s >= k + 1 {
      assert Pow(0) == 1 by { PowZero(); }
      ShrBounds(x, s, 0, Pow(k + 1)) by { LessTimes(1, Pow(s), Pow(k + 1)); }
      OrBounds(x, y, k + 1);
    } else {
      var m := k + 1 - s;
      HighPart(x, m, s);
      var lo := x - (Pow(k + 1) - Pow(m));
      if 2 * s <= k + 1 { ShiftInside(x, m, s); } else { ShiftAcross(x, m, s); PowZero(); }
      OrHigh(Pow(s) - 1, lo, y, m);
      OrBounds(lo, y, m);
    }
  }

  lemma PowZero()
    ensures Pow(0) == 1
  {
  }

  lemma HighPart(x: nat, m: nat, s: nat)
    requires Pow(m + s) - Pow(m) <= x
    ensures Pow(m + s) - Pow(m) == (Pow(s) - 1) * Pow(m)
    ensures x == (Pow(s) - 1) * Pow(m) + (x - (Pow(m + s) - Pow(m)))
  {
    PowSplit(m, s);
    assert (Pow(s) - 1) * Pow(m) == Pow(m) * Pow(s) - Pow(m);
  }

  lemma ShiftInside(x: nat, m: nat, s: nat)
    requires s <= m && Pow(m + s) - Pow(m) <= x < Pow(m + s)
    ensures Pow(m) - Pow(m - s) <= Shr(x, s) < Pow(m)
  {
    hide Pow;
    PowSplit(m, s);
    PowSplit(m - s, s);
    PowGrows(m - s, m);
    assert (Pow(m) - Pow(m - s)) * Pow(s) == Pow(m) * Pow(s) - Pow(m - s) * Pow(s);
    ShrBounds(x, s, Pow(m) - Pow(m - s), Pow(m));
  }

  lemma ShiftAcross(x: nat, m: nat, s: nat)
    requires m < s && Pow(m + s) - Pow(m) <= x < Pow(m + s)
    ensures Shr(x, s) == Pow(m) - 1
  {
    hide Pow;
    PowSplit(m, s);
    PowGrows(m, s);
    assert (Pow(m) - 1) * Pow(s) == Pow(m) * Pow(s) - Pow(s);
    ShrBounds(x, s, Pow(m) - 1, Pow(m));
  }

  // The bit length of a positive number.
  ghost function Log(x: nat): (k: nat)
    requires x > 0
    ensures Pow(k) <= x < Pow(k + 1)
  {
    if x == 1 then 0 else 1 + Log(x / 2)
  }

  lemma {:induction false} PowIsPower(k: nat)
    ensures PowerOfTwo(Pow(k))
  {
    if k > 0 { PowIsPower(k - 1); }
  }

  lemma SmearAll(x: nat)
    requires x > 0
    ensures var s6 := Smear(Smear(Smear(Smear(Smear(Smear(x, 1), 2), 4), 8), 16), 32);
            TopSet(s6, Log(x), 64)
  {
    hide Smear, Pow;
    var k := Log(x);
    assert TopSet(x, k, 1) by { PowStep(k); }
    var s1 := Smear(x, 1);
    SmearDoubles(x, k, 1);
    var s2 := Smear(s1, 2);
    SmearDoubles(s1, k, 2);
    var s3 := Smear(s2, 4);
    SmearDoubles(s2, k, 4);
    var s4 := Smear(s3, 8);
    SmearDoubles(s3, k, 8);
    var s5 := Smear(s4, 16);
    SmearDoubles(s4, k, 16);
    SmearDoubles(s5, k, 32);
  }

  lemma PowStep(k: nat)
    ensures Pow(k + 1) == 2 * Pow(k)
  {
  }

  lemma {:induction false} LogBelow(x: nat, k: nat)
    requires 0 < x < Pow(k)
    ensures Log(x) < k
  {
    hide Pow, Log;
    if Log(x) >= k { PowGrows(k, Log(x)); }
  }

  lemma {:induction false} LogAtLeast(x: nat, k: nat)
    requires x >= Pow(k)
    ensures Log(x) >= k
  {
    hide Pow, Log;
    if Log(x) < k { PowGrows(Log(x) + 1, k); }
  }

  // All bits below the top one end up set.
  lemma SmearFills(x: nat)
    requires 0 < x < Pow(64)
    ensures Smear(Smear(Smear(Smear(Smear(Smear(x, 1), 2), 4), 8), 16), 32) + 1 == Pow(Log(x) + 1)
  {
    hide Smear, Log, Pow;
    SmearAll(x);
    LogBelow(x, 64);
    PowZero();
  }

  // For every 64-bit request the result is the least power of two not below it, if that
  // fits the word; a request over 2^63 wraps around to zero.
  lemma RoundsUp(v: nat)
    requires v < Pow(64)
    ensures v <= Pow(63) <==> NextPow2(v) >= v && PowerOfTwo(NextPow2(v))
    ensures v > Pow(63) ==> NextPow2(v) == 0
    ensures 1 < v <= Pow(63) ==> NextPow2(v) < 2 * v
  {
    hide Smear, Log, Pow, PowerOfTwo, NextPow2;
    if v <= 1 {
      SmallRequests();
    } else {
      NextPow2Is(v);
      Rounded(v, 63);
    }
  }

  lemma NextPow2Is(v: nat)
    requires 1 < v < Pow(64)
    ensures NextPow2(v) == Pow(Log(v - 1) + 1) % Pow(64)
  {
    hide Smear, Log, Pow;
    SmearFills(v - 1);
  }

  lemma Rounded(v: nat, n: nat)
    requires 1 < v < Pow(n + 1)
    ensures var r := Pow(Log(v - 1) + 1) % Pow(n + 1);
            && (v <= Pow(n) ==> v <= r < 2 * v && PowerOfTwo(r))
            && (v > Pow(n) ==> r == 0)
  {
    hide Log, Pow, PowerOfTwo;
    var k := Log(v - 1);
    PowIsPower(k + 1);
    PowStep(k);
    PowStep(n);
    if v <= Pow(n) {
      LogBelow(v - 1, n);
      PowGrows(k + 1, n);
      SmallMod(Pow(k + 1), Pow(n + 1));
    } else {
      LogAtLeast(v - 1, n);
      LogBelow(v - 1, n + 1);
      assert k == n;
      SelfMod(Pow(n + 1));
    }
  }

  lemma SelfMod(d: nat)
    requires d > 0
    ensures d % d == 0
  {
  }

  lemma SmallMod(x: nat, d: nat)
    requires x < d
    ensures x % d == x
  {
  }

  lemma SmallRequests()
    ensures NextPow2(0) == 1 && NextPow2(1) == 1 && PowerOfTwo(1) && 1 <= Pow(63)
  {
    hide Pow;
    ZeroSmear();
    PowGrows(0, 63);
    PowGrows(1, 64);
    PowStep(0);
    PowZero();
    SmallMod(1, Pow(64));
  }

  lemma {:induction false} ShrZero(s: nat)
    ensures Shr(0, s) == 0
  {
    if s > 0 { ShrZero(s - 1); }
  }

  lemma ZeroSmear()
    ensures forall s: nat :: Smear(0, s) == 0
  {
    forall s: nat ensures Smear(0, s) == 0 {
      ShrZero(s);
    }
  }
}
