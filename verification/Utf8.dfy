/** UTF-8, the bytes of a Rust string, as section 3 of RFC 3629 defines it. */
module Utf8 {
  import opened Words

  function EncodeChar(c: char): (bs: seq<Byte>)
    ensures 1 <= |bs| <= 4
  {
    var n := c as int;
    if n < 0x80 then [n]
    else if n < 0x800 then [0xC0 + n / 64, 0x80 + n % 64]
    else if n < 0x1_0000 then [0xE0 + n / 4096, 0x80 + n / 64 % 64, 0x80 + n % 64]
    else [0xF0 + n / 262144, 0x80 + n / 4096 % 64, 0x80 + n / 64 % 64, 0x80 + n % 64]
  }

  function Encode(s: string): seq<Byte> {
    if s == [] then [] else EncodeChar(s[0]) + Encode(s[1..])
  }

  /** The first byte gives the length of a character's encoding. */
  function LengthOf(first: Byte): nat {
    if first < 0x80 then 1 else if first < 0xE0 then 2 else if first < 0xF0 then 3 else 4
  }

  lemma FirstByteGivesLength(c: char)
    ensures |EncodeChar(c)| == LengthOf(EncodeChar(c)[0])
  {
  }

  /** What a byte holds besides its mark. */
  function Low(b: Byte, mark: nat): int {
    b as int - mark
  }

  /** The character number that a sequence of 1 to 4 bytes stands for: the low bits of the first byte, then six
      bits of each byte that follows (the table in section 3 of RFC 3629). */
  function CodeOf(bs: seq<Byte>): int
    requires 1 <= |bs| <= 4
  {
    if |bs| == 1 then bs[0]
    else if |bs| == 2 then Low(bs[0], 0xC0) * 64 + Low(bs[1], 0x80)
    else if |bs| == 3 then (Low(bs[0], 0xE0) * 64 + Low(bs[1], 0x80)) * 64 + Low(bs[2], 0x80)
    else ((Low(bs[0], 0xF0) * 64 + Low(bs[1], 0x80)) * 64 + Low(bs[2], 0x80)) * 64 + Low(bs[3], 0x80)
  }

  /** A character's bytes stand for it, the shortest form is taken, and what follows the first byte is marked as
      such. */
  lemma CharDecodes(c: char)
    ensures CodeOf(EncodeChar(c)) == c as int
    ensures |EncodeChar(c)| ==
            if c as int < 0x80 then 1 else if c as int < 0x800 then 2 else if c as int < 0x1_0000 then 3 else 4
    ensures forall i :: 1 <= i < |EncodeChar(c)| ==> 0x80 <= EncodeChar(c)[i] < 0xC0
  {
    var n := c as int;
    assert n / 64 / 64 == n / 4096 && n / 4096 / 64 == n / 262144;
  }

  /** Distinct strings have distinct bytes. */
  lemma {:induction false} EncodeIsInjective(a: string, b: string)
    requires Encode(a) == Encode(b)
    ensures a == b
  {
    if a == [] || b == [] {
      return;
    }
    var x, y := EncodeChar(a[0]), EncodeChar(b[0]);
    FirstByteGivesLength(a[0]);
    FirstByteGivesLength(b[0]);
    assert Encode(a)[0] == x[0] && Encode(b)[0] == y[0];
    assert Encode(a)[..|x|] == x && Encode(b)[..|y|] == y;
    assert Encode(a)[|x|..] == Encode(a[1..]) && Encode(b)[|y|..] == Encode(b[1..]);
    CharDecodes(a[0]);
    CharDecodes(b[0]);
    EncodeIsInjective(a[1..], b[1..]);
    assert a == [a[0]] + a[1..] && b == [b[0]] + b[1..];
  }
}
