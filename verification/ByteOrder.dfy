/** The order in which type names are sorted: comparing code points is comparing UTF-8 bytes. */
module ByteOrder {
  import opened Words
  import opened Utf8
  import opened TypeGraph

  /** Byte strings in the order in which Rust compares them. */
  predicate BytesBelow(x: seq<Byte>, y: seq<Byte>) {
    y != [] && (x == [] || x[0] < y[0] || (x[0] == y[0] && BytesBelow(x[1..], y[1..])))
  }

  lemma {:induction false} NotBoth(x: seq<Byte>, y: seq<Byte>)
    ensures !(BytesBelow(x, y) && BytesBelow(y, x))
  {
    if x != [] && y != [] && x[0] == y[0] {
      NotBoth(x[1..], y[1..]);
    }
  }

  /** The first difference decides. */
  lemma {:induction false} FirstDifference(x: seq<Byte>, y: seq<Byte>, k: nat)
    requires k < |x| && k < |y| && x[..k] == y[..k] && x[k] < y[k]
    ensures BytesBelow(x, y)
  {
    if k > 0 {
      assert x[0] == x[..k][0] && y[0] == y[..k][0];
      assert x[1..][..k - 1] == x[..k][1..] && y[1..][..k - 1] == y[..k][1..];
      FirstDifference(x[1..], y[1..], k - 1);
    }
  }

  lemma {:induction false} SamePrefix(p: seq<Byte>, x: seq<Byte>, y: seq<Byte>)
    ensures BytesBelow(p + x, p + y) <==> BytesBelow(x, y)
  {
    if p == [] {
      assert p + x == x && p + y == y;
    } else {
      assert (p + x)[1..] == p[1..] + x && (p + y)[1..] == p[1..] + y;
      SamePrefix(p[1..], x, y);
    }
  }

  lemma LongerIsHigher(c: char, d: char)
    requires c < d && |EncodeChar(c)| != |EncodeChar(d)|
    ensures EncodeChar(c)[0] < EncodeChar(d)[0]
  {
  }

  lemma Digits(m: nat, n: nat)
    requires m < n && m / 64 == n / 64
    ensures m % 64 < n % 64
  {
  }

  lemma TwoBytes(c: char, d: char)
    requires c < d && |EncodeChar(c)| == 2 && |EncodeChar(d)| == 2
    ensures var k := if c as int / 64 == d as int / 64 then 1 else 0;
            EncodeChar(c)[..k] == EncodeChar(d)[..k] && EncodeChar(c)[k] < EncodeChar(d)[k]
  {
  }

  lemma ThreeBytes(c: char, d: char)
    requires c < d && |EncodeChar(c)| == 3 && |EncodeChar(d)| == 3
    ensures var m, n := c as int, d as int;
            var k := if m / 64 == n / 64 then 2 else if m / 4096 == n / 4096 then 1 else 0;
            EncodeChar(c)[..k] == EncodeChar(d)[..k] && EncodeChar(c)[k] < EncodeChar(d)[k]
  {
    var m, n := c as int, d as int;
    assert m / 64 / 64 == m / 4096 && n / 64 / 64 == n / 4096;
    if m / 64 != n / 64 && m / 4096 == n / 4096 {
      Digits(m / 64, n / 64);
    }
  }

  lemma FourBytes(c: char, d: char)
    requires c < d && |EncodeChar(c)| == 4 && |EncodeChar(d)| == 4
    ensures var m, n := c as int, d as int;
            var k := if m / 64 == n / 64 then 3 else if m / 4096 == n / 4096 then 2
                     else if m / 262144 == n / 262144 then 1 else 0;
            EncodeChar(c)[..k] == EncodeChar(d)[..k] && EncodeChar(c)[k] < EncodeChar(d)[k]
  {
    var m, n := c as int, d as int;
    assert m / 64 / 64 == m / 4096 && n / 64 / 64 == n / 4096;
    assert m / 4096 / 64 == m / 262144 && n / 4096 / 64 == n / 262144;
    if m / 64 != n / 64 && m / 4096 == n / 4096 {
      Digits(m / 64, n / 64);
    }
    if m / 4096 != n / 4096 && m / 262144 == n / 262144 {
      Digits(m / 4096, n / 4096);
    }
  }

  /** A smaller character has smaller bytes, and the difference lies within both. */
  lemma CharOrder(c: char, d: char) returns (k: nat)
    requires c < d
    ensures k < |EncodeChar(c)| && k < |EncodeChar(d)|
    ensures EncodeChar(c)[..k] == EncodeChar(d)[..k] && EncodeChar(c)[k] < EncodeChar(d)[k]
  {
    var m, n := c as int, d as int;
    k := 0;
    if |EncodeChar(c)| != |EncodeChar(d)| {
      LongerIsHigher(c, d);
    } else if |EncodeChar(c)| == 2 {
      TwoBytes(c, d);
      k := if m / 64 == n / 64 then 1 else 0;
    } else if |EncodeChar(c)| == 3 {
      ThreeBytes(c, d);
      k := if m / 64 == n / 64 then 2 else if m / 4096 == n / 4096 then 1 else 0;
    } else if |EncodeChar(c)| == 4 {
      FourBytes(c, d);
      k := if m / 64 == n / 64 then 3
           else if m / 4096 == n / 4096 then 2
           else if m / 262144 == n / 262144 then 1 else 0;
    }
  }

  lemma CharThenRest(c: char, x: seq<Byte>, d: char, y: seq<Byte>)
    requires c < d
    ensures BytesBelow(EncodeChar(c) + x, EncodeChar(d) + y)
  {
    var k := CharOrder(c, d);
    var p, q := EncodeChar(c) + x, EncodeChar(d) + y;
    assert p[..k] == EncodeChar(c)[..k] && q[..k] == EncodeChar(d)[..k];
    FirstDifference(p, q, k);
  }

  /** The order of names by code point is the order of their bytes. */
  lemma {:induction false} BelowIsByteOrder(a: string, b: string)
    ensures Below(a, b) <==> BytesBelow(Encode(a), Encode(b))
  {
    if a != [] && b != [] {
      if a[0] < b[0] {
        CharThenRest(a[0], Encode(a[1..]), b[0], Encode(b[1..]));
      } else if b[0] < a[0] {
        CharThenRest(b[0], Encode(b[1..]), a[0], Encode(a[1..]));
        NotBoth(Encode(a), Encode(b));
      } else {
        BelowIsByteOrder(a[1..], b[1..]);
        SamePrefix(EncodeChar(a[0]), Encode(a[1..]), Encode(b[1..]));
      }
    }
  }
}
