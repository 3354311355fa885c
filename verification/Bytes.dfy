// Little-endian machine words as they appear in files and hash inputs.
module Bytes {
  type byte = x: int | 0 <= x < 256

  // The number of values a word of the given width can hold.
  function Range(width: nat): (r: nat)
    ensures r >= 1
  {
    if width == 0 then 1 else 256 * Range(width - 1)
  }

  function LE(n: nat, width: nat): (b: seq<byte>)
    ensures |b| == width
  {
    if width == 0 then [] else [n % 256] + LE(n / 256, width - 1)
  }

  function FromLE(b: seq<byte>): (n: nat)
    ensures n < Range(|b|)
  {
    if |b| == 0 then 0 else b[0] + 256 * FromLE(b[1..])
  }

  // Writing a word and reading it back gives the word.
  lemma {:induction false} WordRoundTrip(n: nat, width: nat)
    requires n < Range(width)
    ensures FromLE(LE(n, width)) == n
  {
    if width == 0 {
    } else {
      WordRoundTrip(n / 256, width - 1);
      assert LE(n, width)[1..] == LE(n / 256, width - 1);
    }
  }

  // Reading bytes as a word and writing the word gives the bytes.
  lemma {:induction false} BytesRoundTrip(b: seq<byte>)
    ensures LE(FromLE(b), |b|) == b
  {
    if |b| == 0 {
    } else {
      BytesRoundTrip(b[1..]);
      assert FromLE(b) / 256 == FromLE(b[1..]);
      assert FromLE(b) % 256 == b[0];
    }
  }

  // Byte i of a word as written is its digit of weight 256 to the i.
  lemma {:induction false} LittleEndian(n: nat, width: nat, i: nat)
    requires i < width
    ensures LE(n, width)[i] == n / Range(i) % 256
  {
    if i > 0 {
      LittleEndian(n / 256, width - 1, i - 1);
      DivideTwice(n, Range(i - 1));
    }
  }

  lemma DivideTwice(n: nat, d: nat)
    requires d > 0
    ensures 256 * d > 0 && n / 256 / d == n / (256 * d)
  {
    var q := n / 256 / d;
    var r := n / 256 - q * d;
    assert n == 256 * (q * d + r) + n % 256 && 256 * r + n % 256 < 256 * d;
    assert n == q * (256 * d) + (256 * r + n % 256);
    QuotientIs(n, 256 * d, q, 256 * r + n % 256);
  }

  lemma QuotientIs(n: nat, d: nat, q: nat, r: nat)
    requires n == q * d + r && r < d
    ensures n / d == q
  {
    var p := n / d;
    LessTimes(p + 1, q, d);
    LessTimes(q + 1, p, d);
  }

  lemma LessTimes(a: nat, b: nat, d: nat)
    ensures a <= b ==> a * d <= b * d
  {
  }

  lemma WordInjective(m: nat, n: nat, width: nat)
    requires m < Range(width) && n < Range(width)
    requires LE(m, width) == LE(n, width)
    ensures m == n
  {
    WordRoundTrip(m, width);
    WordRoundTrip(n, width);
  }

  lemma Widths()
    ensures Range(1) == 0x100
    ensures Range(4) == 0x1_0000_0000
    ensures Range(8) == 0x1_0000_0000_0000_0000
  {
    assert Range(2) == 0x1_0000;
    assert Range(4) == 256 * 256 * Range(2);
    assert Range(6) == 256 * 256 * Range(4);
    assert Range(8) == 256 * 256 * Range(6);
  }

  // Two concatenations whose first parts have the same length split the same way.
  lemma SplitEqual<T>(a: seq<T>, b: seq<T>, x: seq<T>, y: seq<T>)
    requires |a| == |b| && a + x == b + y
    ensures a == b && x == y
  {
    assert a == (a + x)[..|a|] && b == (b + y)[..|b|];
    assert x == (a + x)[|a|..] && y == (b + y)[|b|..];
  }

  lemma Associate<T>(a: seq<T>, b: seq<T>, c: seq<T>)
    ensures (a + b) + c == a + (b + c)
  {
  }
}
