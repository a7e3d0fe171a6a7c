/** What the bits of a word say about the number it denotes. */
module Bits {
  import opened Words

  /** `x >> i`. */
  function Shr(x: nat, i: nat): nat
    decreases i
  {
    if i == 0 then x else Shr(x / 2, i - 1)
  }

  lemma {:induction false} ShrShr(x: nat, i: nat, j: nat)
    ensures Shr(Shr(x, i), j) == Shr(x, i + j)
    decreases i
  {
    if i > 0 {
      ShrShr(x / 2, i - 1, j);
    }
  }

  lemma ShrByte(hi: nat, b: Byte)
    ensures Shr(hi * 256 + b, 8) == hi
  {
    var x := hi * 256 + b;
    assert Shr(x, 8) == Shr(x / 2, 7) == Shr(x / 2 / 2, 6) == Shr(x / 2 / 2 / 2, 5);
    var y := x / 2 / 2 / 2;
    assert y == hi * 32 + b / 8;
    assert Shr(y, 5) == Shr(y / 2, 4) == Shr(y / 2 / 2, 3);
    var z := y / 2 / 2;
    assert z == hi * 8 + b / 32;
    assert Shr(z, 3) == Shr(z / 2, 2) == Shr(z / 2 / 2, 1) == Shr(z / 2 / 2 / 2, 0);
  }

  /** `y << m`. */
  function Shl(y: nat, m: nat): nat {
    if m == 0 then y else 2 * Shl(y, m - 1)
  }

  /** Low bits do not see what sits above them. */
  lemma {:induction false} LowBits(y: nat, b: nat, r: nat, m: nat)
    requires r < m
    ensures Shr(Shl(y, m) + b, r) % 2 == Shr(b, r) % 2
  {
    if r > 0 {
      LowBits(y, b / 2, r - 1, m - 1);
      assert (Shl(y, m) + b) / 2 == Shl(y, m - 1) + b / 2;
    }
  }

  lemma ByteBit(hi: nat, b: Byte, r: nat)
    requires r < 8
    ensures Shr(hi * 256 + b, r) % 2 == Shr(b, r) % 2
  {
    assert Shl(hi, 8) == 2 * Shl(hi, 7) == 4 * Shl(hi, 6) == 8 * Shl(hi, 5) == 16 * Shl(hi, 4);
    assert Shl(hi, 4) == 2 * Shl(hi, 3) == 4 * Shl(hi, 2) == 8 * Shl(hi, 1) == 16 * hi;
    LowBits(hi, b, r, 8);
  }

  /** Dropping the low bytes of a number is taking a prefix of its byte string. */
  lemma {:induction false} ShrBytes(w: seq<Byte>, k: nat)
    requires k <= |w|
    ensures Shr(Value(w), 8 * (|w| - k)) == Value(w[..k])
    decreases |w|
  {
    if k < |w| {
      var front := w[..|w| - 1];
      ShrBytes(front, k);
      assert front[..k] == w[..k];
      ShrByte(Value(front), w[|w| - 1]);
      ShrShr(Value(w), 8, 8 * (|front| - k));
    } else {
      assert w[..k] == w;
    }
  }

  /** Bit `i` of a word, least significant first, read out of the byte that holds it. */
  function Bit(w: seq<Byte>, i: nat): nat
    requires i < 8 * |w|
  {
    Shr(w[|w| - 1 - i / 8], i % 8) % 2
  }

  lemma BitAt(w: seq<Byte>, j: nat, r: nat)
    requires j < |w| && r < 8
    ensures Shr(Value(w), 8 * j + r) % 2 == Shr(w[|w| - 1 - j], r) % 2
  {
    var k := |w| - 1 - j;
    var head := w[..k + 1];
    ShrBytes(w, k + 1);
    ShrShr(Value(w), 8 * j, r);
    assert head[..k] == w[..k];
    ByteBit(Value(w[..k]), w[k], r);
  }

  /** The bit a byte holds is the bit of the whole number. */
  lemma BitOfValue(w: seq<Byte>, i: nat)
    requires i < 8 * |w|
    ensures Bit(w, i) == Shr(Value(w), i) % 2
  {
    BitAt(w, i / 8, i % 8);
  }

  ghost predicate UniformFrom(x: nat, lo: nat, hi: nat, c: nat) {
    forall i: nat :: lo <= i < hi ==> Shr(x, i) % 2 == c
  }

  lemma UniformStep(x: nat, lo: nat, hi: nat, c: nat)
    requires 0 < hi
    ensures lo > 0 ==> (UniformFrom(x, lo, hi, c) <==> UniformFrom(x / 2, lo - 1, hi - 1, c))
    ensures UniformFrom(x, 0, hi, c) <==> x % 2 == c && UniformFrom(x / 2, 0, hi - 1, c)
  {
    assert forall i: nat :: i > 0 ==> Shr(x, i) == Shr(x / 2, i - 1);
    assert Shr(x, 0) == x;
    if UniformFrom(x, 0, hi, c) {
      forall i: nat | i < hi - 1
        ensures Shr(x / 2, i) % 2 == c
      {
        assert Shr(x, i + 1) % 2 == c;
      }
    }
    if lo > 0 && UniformFrom(x, lo, hi, c) {
      forall i: nat | lo - 1 <= i < hi - 1
        ensures Shr(x / 2, i) % 2 == c
      {
        assert Shr(x, i + 1) % 2 == c;
      }
    }
  }

  /** A number below `2^m` whose bits all equal `c` is zero or all ones. */
  lemma {:induction false} UniformBits(q: nat, m: nat, c: nat)
    requires q < Pow2(m) && c <= 1
    ensures UniformFrom(q, 0, m, c) <==> q == if c == 0 then 0 else Pow2(m) - 1
    decreases m
  {
    if m > 0 {
      UniformStep(q, 0, m, c);
      UniformBits(q / 2, m - 1, c);
    }
  }

  /** Valid sign extension: the bits from `k` up all equal `c` exactly for the numbers below `2^k`
      (`c == 0`) and for the `2^k` largest ones (`c == 1`). */
  lemma {:induction false} SignExtension(x: nat, n: nat, k: nat, c: nat)
    requires k < n && x < Pow2(n) && c <= 1
    ensures UniformFrom(x, k, n, c) <==> if c == 0 then x < Pow2(k) else x >= Pow2(n) - Pow2(k)
    decreases k
  {
    if k == 0 {
      UniformBits(x, n, c);
    } else {
      UniformStep(x, k, n, c);
      SignExtension(x / 2, n - 1, k - 1, c);
    }
  }
}
