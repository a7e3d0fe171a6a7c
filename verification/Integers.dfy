/** The integer fields of typed data: reading `uintN` and `intN` values out of JSON into big-endian
    words, and the width checks on those words. The worker's words are 32 bytes; the readers take
    the length as a parameter and `UintWord` and `IntWord` fix it. */
module Integers {
  import opened Options
  import opened Words
  import opened Bits
  import opened Numerals
  import opened Json

  // ---- the text of an integer ----

  /** Unicode White_Space, which `str::trim` strips. */
  predicate IsWhitespace(c: char) {
    || '\t' <= c <= '\r' || c == ' '
    || c == '\U{0085}' || c == '\U{00A0}' || c == '\U{1680}'
    || '\U{2000}' <= c <= '\U{200A}'
    || c == '\U{2028}' || c == '\U{2029}' || c == '\U{202F}' || c == '\U{205F}' || c == '\U{3000}'
  }

  function Trim(s: string): string {
    if s != [] && IsWhitespace(s[0]) then Trim(s[1..])
    else if s != [] && IsWhitespace(s[|s| - 1]) then Trim(s[..|s| - 1])
    else s
  }

  /** The text an integer field is read from: a string, trimmed, or a JSON number as printed. */
  function IntegerText(v: Json): Option<string> {
    match v
    case Text(s) => Some(Trim(s))
    case Number(text) => Some(text)
    case _ => None
  }

  predicate IsHexText(s: string) {
    |s| >= 2 && s[0] == '0' && (s[1] == 'x' || s[1] == 'X')
  }

  /** The number an unsigned numeral denotes, whatever its size: `0x` and hexadecimal digits, or
      decimal digits. Independent of how the worker computes it. */
  function Numeral(s: string): Option<nat> {
    if IsHexText(s) then
      if |s| > 2 && AllHex(s[2..]) then Some(HexValue(s[2..])) else None
    else
      if s != [] && AllDigits(s) then Some(DecimalValue(s)) else None
  }

  /** The hexadecimal path counts digits, not value: more digits than the word holds are refused
      even when they are leading zeros. */
  predicate WithinDigits(s: string, len: nat) {
    IsHexText(s) ==> |s| - 2 <= 2 * len
  }

  // ---- parse_uint256_be ----

  /** The unsigned numeral `s` fits a word of `len` bytes. */
  predicate Representable(s: string, len: nat) {
    Numeral(s).Some? && Numeral(s).value < Pow256(len) && WithinDigits(s, len)
  }

  function UintWordOf(s: string, len: nat): (r: Option<seq<Byte>>)
    ensures r.Some? ==> |r.value| == len
  {
    if Representable(s, len) then Some(BigEndian(Numeral(s).value, len)) else None
  }

  /** The decimal carry loop returns the big-endian form of the written number and fails exactly
      when some character is not a digit or the number does not fit. */
  method ParseDecimal(s: string, len: nat) returns (r: Option<seq<Byte>>)
    ensures r.Some? <==> AllDigits(s) && DecimalValue(s) < Pow256(len)
    ensures r.Some? ==> |r.value| == len && Value(r.value) == DecimalValue(s)
  {
    var acc := new Byte[len](_ => 0);
    ValueOfZeros(acc[..]);
    for i := 0 to |s|
      invariant AllDigits(s[..i]) && Value(acc[..]) == DecimalValue(s[..i])
    {
      if !IsDigit(s[i]) {
        return None;
      }
      var digit := DigitValue(s[i]);
      ghost var next := s[..i + 1];
      assert next[..i] == s[..i];
      var carry := MulAddTen(acc, digit);
      if carry != 0 {
        MulAtLeast(carry, Pow256(len));
        if AllDigits(s) {
          PrefixIsSmaller(s, i + 1);
        }
        return None;
      }
    }
    assert s[..|s|] == s;
    ValueBound(acc[..]);
    return Some(acc[..]);
  }

  /** Right-align `bytes` into a zeroed buffer. */
  method RightAlign(bytes: seq<Byte>, len: nat) returns (w: seq<Byte>)
    requires |bytes| <= len
    ensures |w| == len && Value(w) == Value(bytes)
  {
    var acc := new Byte[len](_ => 0);
    var at := len - |bytes|;
    for i := 0 to |bytes|
      invariant forall j :: 0 <= j < at ==> acc[j] == 0
      invariant forall j :: 0 <= j < i ==> acc[at + j] == bytes[j]
    {
      acc[at + i] := bytes[i];
    }
    w := acc[..];
    assert w == w[..at] + bytes;
    ValueOfZeros(w[..at]);
    LeadingZeros(w[..at], bytes);
  }

  /** The hexadecimal path: pad an odd digit count, decode, and right-align. */
  method ParseHex(body: string, len: nat) returns (r: Option<seq<Byte>>)
    ensures r.Some? <==> body != [] && AllHex(body) && |body| <= 2 * len
    ensures r.Some? ==> |r.value| == len && Value(r.value) == HexValue(body)
  {
    if body == [] {
      return None;
    }
    var even := if |body| % 2 == 1 then "0" + body else body;
    if AllHex(body) {
      HexPad(body);
    } else if |body| % 2 == 1 {
      assert forall i :: 0 <= i < |body| ==> body[i] == even[i + 1];
    }
    var bytes := HexDecode(even);
    if bytes.None? || |bytes.value| > len {
      return None;
    }
    HexDecodeValue(even);
    var w := RightAlign(bytes.value, len);
    return Some(w);
  }

  method ParseUint(s: string, len: nat) returns (r: Option<seq<Byte>>)
    ensures r == UintWordOf(s, len)
  {
    if IsHexText(s) {
      r := ParseHex(s[2..], len);
    } else if s == [] {
      return None;
    } else {
      r := ParseDecimal(s, len);
    }
    if r.Some? {
      ValueBound(r.value);
      ValueBigEndian(r.value);
    }
  }

  // ---- parse_int256_be ----

  predicate Negative(s: string) {
    s != [] && s[0] == '-'
  }

  /** What follows an optional minus sign; it goes back through the unsigned reader, which trims it
      again. */
  function Magnitude(s: string): string {
    Trim(if Negative(s) then s[1..] else s)
  }

  /** The integer a signed numeral denotes. */
  function SignedNumeral(s: string): Option<int> {
    var n := Numeral(Magnitude(s));
    if n.None? then None else if Negative(s) then Some(0 - n.value) else Some(n.value)
  }

  /** The signed numeral modulo 256^len. */
  function IntWordOf(s: string, len: nat): (r: Option<seq<Byte>>)
    ensures r.Some? ==> |r.value| == len
  {
    if Representable(Magnitude(s), len)
    then Some(BigEndian(SignedNumeral(s).value % Pow256(len), len)) else None
  }

  method Negated(w: seq<Byte>) returns (r: seq<Byte>)
    ensures r == BigEndian((Pow256(|w|) - Value(w)) % Pow256(|w|), |w|)
  {
    var bytes := new Byte[|w|](i requires 0 <= i < |w| => w[i]);
    assert bytes[..] == w;
    NegateInPlace(bytes);
    ValueBound(w);
    r := bytes[..];
    ValueBigEndian(r);
  }

  method ParseInt(s: string, len: nat) returns (r: Option<seq<Byte>>)
    ensures r == IntWordOf(s, len)
  {
    var negative := Negative(s);
    var magnitude := if negative then s[1..] else s;
    r := ParseUint(Trim(magnitude), len);
    if r.None? {
      return None;
    }
    ghost var n := Numeral(Magnitude(s)).value;
    BigEndianValue(n, len);
    if negative {
      var w := Negated(r.value);
      NegatedMod(n, Pow256(len));
      r := Some(w);
    } else {
      SmallMod(n, Pow256(len));
    }
  }

  lemma NegatedMod(n: nat, m: nat)
    requires 0 < m && n < m
    ensures (m - n) % m == (0 - n) % m
  {
    if n > 0 {
      assert 0 - n == m * (0 - 1) + (m - n);
    }
  }

  lemma SmallMod(n: nat, m: nat)
    requires n < m
    ensures n % m == n
  {
  }

  /** The two's-complement reading of a word. */
  function SignedValue(w: seq<Byte>): int {
    if 2 * Value(w) < Pow256(|w|) then Value(w) else Value(w) - Pow256(|w|)
  }

  // ---- the width checks ----

  predicate IsWidth(bits: nat, len: nat) {
    8 <= bits <= 8 * len && bits % 8 == 0
  }

  /** `check_uint_fits`: the bytes above the width are zero. */
  predicate FitsUint(w: seq<Byte>, bits: nat)
    requires IsWidth(bits, |w|)
  {
    forall i :: 0 <= i < |w| - bits / 8 ==> w[i] == 0
  }

  /** The byte test accepts exactly the words below 2^bits. */
  lemma FitsUintIsRange(w: seq<Byte>, bits: nat)
    requires IsWidth(bits, |w|)
    ensures FitsUint(w, bits) <==> Value(w) < Pow2(bits)
  {
    var k := |w| - bits / 8;
    var front, rest := w[..k], w[k..];
    assert w == front + rest;
    ValueOfZeros(front);
    LeadingZeros(front, rest);
    Pow256IsPow2(bits / 8);
    assert forall i :: 0 <= i < k ==> front[i] == w[i];
  }

  /** `check_int_fits`: every bit from the width up equals the sign bit. */
  predicate FitsInt(w: seq<Byte>, bits: nat)
    requires IsWidth(bits, |w|)
  {
    forall i :: bits <= i < 8 * |w| ==> Bit(w, i) == Bit(w, bits - 1)
  }

  lemma FitsIntIsUniform(w: seq<Byte>, bits: nat)
    requires IsWidth(bits, |w|)
    ensures FitsInt(w, bits) <==> UniformFrom(Value(w), bits - 1, 8 * |w|, Bit(w, bits - 1))
  {
    var c := Bit(w, bits - 1);
    forall i: nat | i < 8 * |w|
      ensures Bit(w, i) == Shr(Value(w), i) % 2
    {
      BitOfValue(w, i);
    }
    if UniformFrom(Value(w), bits - 1, 8 * |w|, c) {
      forall i | bits <= i < 8 * |w|
        ensures Bit(w, i) == c
      {
        assert Shr(Value(w), i) % 2 == c;
      }
    }
  }

  /** The bit test accepts exactly the words whose signed reading fits the width. */
  lemma FitsIntIsRange(w: seq<Byte>, bits: nat)
    requires IsWidth(bits, |w|)
    ensures FitsInt(w, bits) <==> 0 - Pow2(bits - 1) <= SignedValue(w) < Pow2(bits - 1)
  {
    var x, n, c := Value(w), 8 * |w|, Bit(w, bits - 1);
    ValueBound(w);
    Pow256IsPow2(|w|);
    FitsIntIsUniform(w, bits);
    SignExtension(x, n, bits - 1, 0);
    SignExtension(x, n, bits - 1, 1);
    BitOfValue(w, bits - 1);
    FirstOfUniform(x, bits - 1, n, 0);
    FirstOfUniform(x, bits - 1, n, 1);
    Pow2Monotone(bits - 1, n - 1);
  }

  lemma FirstOfUniform(x: nat, lo: nat, hi: nat, c: nat)
    requires lo < hi
    ensures UniformFrom(x, lo, hi, c) ==> c == Shr(x, lo) % 2
  {
  }

  lemma {:induction false} Pow2Monotone(a: nat, b: nat)
    requires a <= b
    ensures Pow2(a) <= Pow2(b)
  {
    if a < b {
      Pow2Monotone(a, b - 1);
    }
  }

  // ---- acceptance ----

  /** The word of a `uintN` field, `None` when it is refused. */
  function UintField(s: string, bits: nat, len: nat): (r: Option<seq<Byte>>)
    requires IsWidth(bits, len)
    ensures r.Some? ==> |r.value| == len
  {
    var w := UintWordOf(s, len);
    if w.Some? && FitsUint(w.value, bits) then w else None
  }

  /** The number a `uintN` field stands for: one below 2^N, and in hexadecimal written with no more
      digits than the word holds. */
  function UintNumber(s: string, bits: nat, len: nat): Option<nat> {
    var n := Numeral(s);
    if n.Some? && n.value < Pow2(bits) && WithinDigits(s, len) then n else None
  }

  /** A `uintN` field is accepted exactly when it stands for a number, and its word is that number. */
  lemma UintAccepted(s: string, bits: nat, len: nat)
    requires IsWidth(bits, len)
    ensures UintField(s, bits, len).Some? <==> UintNumber(s, bits, len).Some?
    ensures UintField(s, bits, len).Some? ==> Value(UintField(s, bits, len).value) == UintNumber(s, bits, len).value
  {
    Pow256IsPow2(len);
    Pow2Monotone(bits, 8 * len);
    if Representable(s, len) {
      BigEndianValue(Numeral(s).value, len);
      FitsUintIsRange(UintWordOf(s, len).value, bits);
    }
  }

  /** The representative of an integer modulo 256^len that a word's signed reading gives. */
  function Wrapped(z: int, len: nat): int {
    var m := Pow256(len);
    if 2 * z >= m then z - m else if 2 * z < 0 - m then z + m else z
  }

  /** The word of a signed numeral is its residue; read back as signed it is the numeral, wrapped. */
  lemma IntWordReading(s: string, len: nat)
    requires len > 0 && IntWordOf(s, len).Some?
    ensures 0 - Pow256(len) < SignedNumeral(s).value < Pow256(len)
    ensures Value(IntWordOf(s, len).value) == SignedNumeral(s).value % Pow256(len)
    ensures SignedValue(IntWordOf(s, len).value) == Wrapped(SignedNumeral(s).value, len)
  {
    var z, m := SignedNumeral(s).value, Pow256(len);
    Residue(z, m);
    BigEndianValue(z % m, len);
    WrapsOnce(z, m, Pow256(len - 1));
  }

  /** The residue of a number within one modulus of zero, read back as signed. */
  lemma WrapsOnce(z: int, m: int, k: int)
    requires m == 256 * k && 0 < m && 0 - m < z < m
    ensures var r := if z >= 0 then z else z + m;
            (if 2 * r < m then r else r - m) == if 2 * z >= m then z - m else if 2 * z < 0 - m then z + m else z
  {
  }

  lemma Residue(z: int, m: int)
    requires 0 < m && -m < z < m
    ensures z % m == if z >= 0 then z else z + m
  {
    if z < 0 {
      assert z == m * (0 - 1) + (z + m);
    }
  }

  /** The word of an `intN` field, `None` when it is refused. */
  function IntField(s: string, bits: nat, len: nat): (r: Option<seq<Byte>>)
    requires IsWidth(bits, len)
    ensures r.Some? ==> |r.value| == len
  {
    var w := IntWordOf(s, len);
    if w.Some? && FitsInt(w.value, bits) then w else None
  }

  /** The number an `intN` field stands for: the written one wrapped into the word's signed range,
      when that lies in [-2^(N-1), 2^(N-1)). */
  function IntNumber(s: string, bits: nat, len: nat): Option<int>
    requires 0 < bits
  {
    if && Representable(Magnitude(s), len)
       && 0 - Pow2(bits - 1) <= Wrapped(SignedNumeral(s).value, len) < Pow2(bits - 1)
    then Some(Wrapped(SignedNumeral(s).value, len)) else None
  }

  /** An `intN` field is accepted exactly when it stands for a number, and its word read as signed is
      that number. */
  lemma IntAccepted(s: string, bits: nat, len: nat)
    requires IsWidth(bits, len)
    ensures IntField(s, bits, len).Some? <==> IntNumber(s, bits, len).Some?
    ensures IntField(s, bits, len).Some? ==> SignedValue(IntField(s, bits, len).value) == IntNumber(s, bits, len).value
  {
    if IntWordOf(s, len).Some? {
      IntWordReading(s, len);
      FitsIntIsRange(IntWordOf(s, len).value, bits);
    }
  }

  lemma SignedValueIsInjective(a: seq<Byte>, b: seq<Byte>)
    requires |a| == |b| && SignedValue(a) == SignedValue(b)
    ensures a == b
  {
    ValueBound(a);
    ValueBound(b);
    ValueIsInjective(a, b);
  }

  /** Two accepted `uintN` fields have the same word exactly when they stand for the same number. */
  lemma UintFieldFaithful(s: string, t: string, bits: nat, len: nat)
    requires IsWidth(bits, len) && UintField(s, bits, len).Some? && UintField(t, bits, len).Some?
    ensures UintField(s, bits, len) == UintField(t, bits, len)
       <==> UintNumber(s, bits, len) == UintNumber(t, bits, len)
  {
    UintAccepted(s, bits, len);
    UintAccepted(t, bits, len);
    if UintNumber(s, bits, len) == UintNumber(t, bits, len) {
      ValueIsInjective(UintField(s, bits, len).value, UintField(t, bits, len).value);
    }
  }

  /** Two accepted `intN` fields have the same word exactly when they stand for the same number. */
  lemma IntFieldFaithful(s: string, t: string, bits: nat, len: nat)
    requires IsWidth(bits, len) && IntField(s, bits, len).Some? && IntField(t, bits, len).Some?
    ensures IntField(s, bits, len) == IntField(t, bits, len)
       <==> IntNumber(s, bits, len) == IntNumber(t, bits, len)
  {
    IntAccepted(s, bits, len);
    IntAccepted(t, bits, len);
    if IntNumber(s, bits, len) == IntNumber(t, bits, len) {
      SignedValueIsInjective(IntField(s, bits, len).value, IntField(t, bits, len).value);
    }
  }

  /** A numeral is read as itself exactly when it lies in the signed range of the whole word; past it
      it is taken for the one 256^len away. */
  lemma WrappingIsExact(z: int, len: nat)
    requires 0 - Pow256(len) < z < Pow256(len) && len > 0
    ensures Wrapped(z, len) == z <==> 0 - Pow2(8 * len - 1) <= z < Pow2(8 * len - 1)
  {
    Pow256IsPow2(len);
  }

  predicate FitsAsWritten(z: int, bits: nat)
    requires bits > 0
  {
    0 - Pow2(bits - 1) <= z < Pow2(bits - 1)
  }

  /** "Accepted exactly when the integer itself fits" holds of a numeral if and only if it stays clear of
      the two ends of the word's range: from 256^len - 2^(N-1) up it is taken for a small negative
      number, and on the other side for a small positive one. What no word holds is refused, which is
      wrong only of a number that fits but is written in too many hexadecimal digits. */
  lemma AcceptanceIsFit(s: string, bits: nat, len: nat)
    requires IsWidth(bits, len) && SignedNumeral(s).Some?
    ensures var z, h, m := SignedNumeral(s).value, Pow2(bits - 1), Pow256(len);
            (IntField(s, bits, len).Some? <==> FitsAsWritten(z, bits)) <==>
            if WithinDigits(Magnitude(s), len) then h - m <= z < m - h || z <= 0 - m || m <= z
            else !FitsAsWritten(z, bits)
  {
    Pow256IsPow2(len);
    Pow2Monotone(bits, 8 * len);
    assert Pow2(bits) == 2 * Pow2(bits - 1);
    IntAccepted(s, bits, len);
    if IntWordOf(s, len).Some? {
      IntWordReading(s, len);
    }
  }

  /** So every numeral in the signed range of the word is accepted exactly when it fits `intN`. */
  lemma AcceptedExactlyWhenItFits(s: string, bits: nat, len: nat)
    requires IsWidth(bits, len) && Representable(Magnitude(s), len)
    requires FitsAsWritten(SignedNumeral(s).value, 8 * len)
    ensures IntField(s, bits, len).Some? <==> FitsAsWritten(SignedNumeral(s).value, bits)
    ensures IntField(s, bits, len).Some? ==> SignedValue(IntField(s, bits, len).value) == SignedNumeral(s).value
  {
    assert IntWordOf(s, len).Some?;
    IntAccepted(s, bits, len);
    IntWordReading(s, len);
    WrappingIsExact(SignedNumeral(s).value, len);
  }

  /** The largest unsigned word, written as a signed numeral, is accepted at every width: it wraps
      to minus one. */
  lemma AllOnesIsAcceptedAsMinusOne(s: string, bits: nat, len: nat)
    requires IsWidth(bits, len) && Representable(Magnitude(s), len)
    requires SignedNumeral(s) == Some(Pow256(len) - 1)
    ensures IntField(s, bits, len).Some? && IntNumber(s, bits, len) == Some(-1)
    ensures SignedNumeral(s).value >= Pow2(bits - 1)
  {
    assert Pow256(len) == 256 * Pow256(len - 1);
    IntAccepted(s, bits, len);
    Pow256IsPow2(len);
    Pow2Monotone(bits, 8 * len);
    assert Pow2(bits) == 2 * Pow2(bits - 1);
  }

  // ---- the worker's 32-byte words ----

  /** `parse_uint256_be`. */
  function UintWord(v: Json): (r: Option<seq<Byte>>)
    ensures r.Some? ==> |r.value| == 32
  {
    match IntegerText(v)
    case Some(s) => UintWordOf(s, 32)
    case None => None
  }

  /** `parse_int256_be`. */
  function IntWord(v: Json): (r: Option<seq<Byte>>)
    ensures r.Some? ==> |r.value| == 32
  {
    match IntegerText(v)
    case Some(s) => IntWordOf(s, 32)
    case None => None
  }

  method ParseUint256Be(value: Json) returns (r: Option<seq<Byte>>)
    ensures r == UintWord(value)
  {
    match value
    case Text(s) => r := ParseUint(Trim(s), 32);
    case Number(text) => r := ParseUint(text, 32);
    case _ => r := None;
  }

  method ParseInt256Be(value: Json) returns (r: Option<seq<Byte>>)
    ensures r == IntWord(value)
  {
    match value
    case Text(s) => r := ParseInt(Trim(s), 32);
    case Number(text) => r := ParseInt(text, 32);
    case _ => r := None;
  }
}
