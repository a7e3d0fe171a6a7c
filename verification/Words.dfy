/** Byte strings read as big-endian numbers, and the two in-place loops over them: multiply by ten
    and add a digit, and negate in two's complement. */
module Words {

  type Byte = b: int | 0 <= b < 256

  function Pow2(n: nat): (p: nat)
    ensures p >= 1
  {
    if n == 0 then 1 else 2 * Pow2(n - 1)
  }

  function Pow256(n: nat): (p: nat)
    ensures p >= 1
  {
    if n == 0 then 1 else 256 * Pow256(n - 1)
  }

  lemma {:induction false} Pow256IsPow2(n: nat)
    ensures Pow256(n) == Pow2(8 * n)
  {
    if n > 0 {
      Pow256IsPow2(n - 1);
      var k := 8 * (n - 1);
      assert Pow2(k + 8) == 2 * Pow2(k + 7) == 4 * Pow2(k + 6) == 8 * Pow2(k + 5);
      assert Pow2(k + 5) == 2 * Pow2(k + 4) == 4 * Pow2(k + 3) == 8 * Pow2(k + 2) == 32 * Pow2(k);
    }
  }

  /** The number a big-endian byte string denotes. */
  function Value(bs: seq<Byte>): nat {
    if bs == [] then 0 else Value(bs[..|bs| - 1]) * 256 + bs[|bs| - 1]
  }

  /** The `len`-byte big-endian form of `n`, dropping what does not fit. */
  function BigEndian(n: nat, len: nat): (bs: seq<Byte>)
    ensures |bs| == len
    decreases len
  {
    if len == 0 then [] else BigEndian(n / 256, len - 1) + [n % 256]
  }

  lemma {:induction false} ValueBound(bs: seq<Byte>)
    ensures Value(bs) < Pow256(|bs|)
  {
    if bs != [] {
      ValueBound(bs[..|bs| - 1]);
    }
  }

  lemma {:induction false} BigEndianValue(n: nat, len: nat)
    requires n < Pow256(len)
    ensures Value(BigEndian(n, len)) == n
    decreases len
  {
    if len > 0 {
      BigEndianValue(n / 256, len - 1);
      var bs := BigEndian(n, len);
      assert bs[..len - 1] == BigEndian(n / 256, len - 1);
    }
  }

  lemma {:induction false} ValueBigEndian(bs: seq<Byte>)
    ensures BigEndian(Value(bs), |bs|) == bs
  {
    if bs != [] {
      ValueBigEndian(bs[..|bs| - 1]);
      var v, last := Value(bs[..|bs| - 1]), bs[|bs| - 1];
      assert (v * 256 + last) / 256 == v && (v * 256 + last) % 256 == last;
      assert bs == bs[..|bs| - 1] + [last];
    }
  }

  lemma ValueIsInjective(a: seq<Byte>, b: seq<Byte>)
    requires |a| == |b| && Value(a) == Value(b)
    ensures a == b
  {
    ValueBigEndian(a);
    ValueBigEndian(b);
  }

  lemma {:induction false} ValueConcat(a: seq<Byte>, b: seq<Byte>)
    ensures Value(a + b) == Value(a) * Pow256(|b|) + Value(b)
  {
    if b == [] {
      assert a + b == a;
    } else {
      var front, last := b[..|b| - 1], b[|b| - 1];
      ValueConcat(a, front);
      assert (a + b)[..|a + b| - 1] == a + front;
      var p := Pow256(|front|);
      assert Value(a) * (256 * p) == (Value(a) * p) * 256;
    }
  }

  lemma ValueOne(b: Byte)
    ensures Value([b]) == b
  {
    assert [b][..0] == [];
  }

  lemma ValueCons(b: Byte, s: seq<Byte>)
    ensures Value([b] + s) == b * Pow256(|s|) + Value(s)
  {
    ValueOne(b);
    ValueConcat([b], s);
  }

  lemma {:induction false} ValueOfZeros(s: seq<Byte>)
    ensures Value(s) == 0 <==> forall i :: 0 <= i < |s| ==> s[i] == 0
  {
    if s != [] {
      var front := s[..|s| - 1];
      ValueOfZeros(front);
      assert forall i :: 0 <= i < |front| ==> front[i] == s[i];
      assert forall i :: 0 <= i < |s| ==> s[i] == if i < |front| then front[i] else s[|s| - 1];
    }
  }

  lemma MulAtLeast(a: nat, p: nat)
    requires a > 0
    ensures a * p >= p
  {
  }

  /** A byte string is below the weight of its last `|rest|` bytes exactly when the bytes before
      them denote zero; those then add nothing. */
  lemma LeadingZeros(front: seq<Byte>, rest: seq<Byte>)
    ensures Value(front) == 0 <==> Value(front + rest) < Pow256(|rest|)
    ensures Value(front) == 0 ==> Value(front + rest) == Value(rest)
  {
    ValueConcat(front, rest);
    ValueBound(rest);
    if Value(front) > 0 {
      MulAtLeast(Value(front), Pow256(|rest|));
    }
  }

  lemma MulAddStep(b: nat, carry: nat, b': nat, carry': nat, p: nat, v: int, v': int, digit: nat)
    requires b' + 256 * carry' == 10 * b + carry
    requires v' + carry * p == v * 10 + digit
    ensures b' * p + v' + carry' * (256 * p) == (b * p + v) * 10 + digit
  {
    assert (b' + 256 * carry') * p == (10 * b + carry) * p;
    assert carry' * (256 * p) == (256 * carry') * p;
    assert (10 * b + carry) * p == (10 * b) * p + carry * p;
    assert (10 * b) * p == 10 * (b * p);
    assert (b' + 256 * carry') * p == b' * p + (256 * carry') * p;
  }

  /** One byte further left, once the byte and the carry out of it are known. */
  lemma CarryStep(b: Byte, rest: seq<Byte>, b': Byte, done: seq<Byte>, carry: nat, carry': nat, digit: nat)
    requires |done| == |rest| && b' + 256 * carry' == 10 * b + carry
    requires Value(done) + carry * Pow256(|rest|) == Value(rest) * 10 + digit
    ensures Value([b'] + done) + carry' * Pow256(|rest| + 1) == Value([b] + rest) * 10 + digit
  {
    var p := Pow256(|rest|);
    MulAddStep(b, carry, b', carry', p, Value(rest), Value(done), digit);
    ValueCons(b', done);
    ValueCons(b, rest);
    assert Pow256(|rest| + 1) == 256 * p;
  }

  /** One turn of the decimal loop: `acc = acc * 10 + digit` byte by byte from the right, answering
      what did not fit. The carry stays below ten, so the 16-bit intermediate never overflows. */
  method MulAddTen(acc: array<Byte>, digit: nat) returns (carry: nat)
    requires digit < 10
    modifies acc
    ensures carry < 10
    ensures Value(acc[..]) + carry * Pow256(acc.Length) == old(Value(acc[..])) * 10 + digit
  {
    carry := digit;
    var i := acc.Length;
    ghost var was := acc[..];
    assert acc[i..] == [] && was[i..] == [];
    while i > 0
      invariant 0 <= i <= acc.Length && carry < 10
      invariant acc[..i] == was[..i]
      invariant Value(acc[i..]) + carry * Pow256(acc.Length - i) == Value(was[i..]) * 10 + digit
    {
      ghost var done, rest := acc[i..], was[i..];
      i := i - 1;
      assert acc[i] == was[i] by { assert acc[..i + 1][i] == was[..i + 1][i]; }
      var v := acc[i] * 10 + carry;
      assert v < 0x1_0000;
      CarryStep(was[i], rest, v % 256, done, carry, v / 256, digit);
      acc[i] := v % 256;
      carry := v / 256;
      assert acc[i..] == [acc[i]] + done && was[i..] == [was[i]] + rest;
      assert acc[..i] == was[..i] by {
        assert was[..i] == was[..i + 1][..i];
      }
    }
    assert acc[0..] == acc[..] && was[0..] == was;
  }

  function Complement(bs: seq<Byte>): (r: seq<Byte>)
    ensures |r| == |bs|
    ensures forall i :: 0 <= i < |bs| ==> r[i] == 255 - bs[i]
  {
    seq(|bs|, i requires 0 <= i < |bs| => 255 - bs[i])
  }

  lemma {:induction false} ComplementValue(bs: seq<Byte>)
    ensures Value(Complement(bs)) == Pow256(|bs|) - 1 - Value(bs)
  {
    if bs != [] {
      var front := bs[..|bs| - 1];
      ComplementValue(front);
      assert Complement(bs)[..|bs| - 1] == Complement(front);
    }
  }

  /** Changing one byte moves the number by the difference, at that byte's weight. */
  lemma {:induction false} ValueUpdate(s: seq<Byte>, i: nat, b: Byte)
    requires i < |s|
    ensures Value(s[i := b]) == Value(s) + (b - s[i]) * Pow256(|s| - 1 - i)
  {
    var front := s[..|s| - 1];
    var t := s[i := b];
    if i == |s| - 1 {
      assert t[..|s| - 1] == front;
    } else {
      ValueUpdate(front, i, b);
      assert t[..|s| - 1] == front[i := b];
      var p := Pow256(|front| - 1 - i);
      assert ((b - s[i]) * p) * 256 == (b - s[i]) * (256 * p);
    }
  }

  lemma AddOneStep(b: nat, b': nat, carry: nat, p: nat)
    requires b' + 256 * carry == b + 1
    ensures (b' - b) * p + carry * (256 * p) == p
  {
    assert (b' - b) * p == (1 - 256 * carry) * p == p - (256 * carry) * p;
  }

  method InvertInPlace(a: array<Byte>)
    modifies a
    ensures a[..] == Complement(old(a[..]))
  {
    var k := 0;
    while k < a.Length
      invariant 0 <= k <= a.Length
      invariant forall j :: 0 <= j < k ==> a[j] == 255 - old(a[j])
      invariant forall j :: k <= j < a.Length ==> a[j] == old(a[j])
    {
      a[k] := 255 - a[k];
      k := k + 1;
    }
  }

  /** Add one from the right, stopping as soon as nothing is carried. */
  method AddOneInPlace(a: array<Byte>) returns (carry: nat)
    modifies a
    ensures carry <= 1
    ensures Value(a[..]) + carry * Pow256(a.Length) == old(Value(a[..])) + 1
  {
    carry := 1;
    var i := a.Length;
    while i > 0 && carry != 0
      invariant 0 <= i <= a.Length && carry <= 1
      invariant Value(a[..]) + carry * Pow256(a.Length - i) == old(Value(a[..])) + 1
    {
      i := i - 1;
      var v := a[i] + carry;
      var b: Byte := v % 256;
      ghost var s := a[..];
      ValueUpdate(s, i, b);
      AddOneStep(s[i], b, v / 256, Pow256(|s| - 1 - i));
      a[i] := b;
      assert a[..] == s[i := b];
      carry := v / 256;
    }
  }

  /** Two's-complement negation: invert every byte, then add one. */
  method NegateInPlace(a: array<Byte>)
    modifies a
    ensures Value(a[..]) == (Pow256(a.Length) - old(Value(a[..]))) % Pow256(a.Length)
  {
    ghost var was := a[..];
    ValueBound(was);
    InvertInPlace(a);
    ComplementValue(was);
    var carry := AddOneInPlace(a);
    ValueBound(a[..]);
    NegatedResidue(Value(was), Value(a[..]), carry, Pow256(a.Length));
  }

  lemma NegatedResidue(v: nat, r: nat, carry: nat, p: nat)
    requires p > 0 && v < p && r < p && carry <= 1
    requires r + carry * p == p - 1 - v + 1
    ensures r == (p - v) % p
  {
  }
}
