/** Prefixes of text, and decimal and hexadecimal text as Rust's `to_digit`, `hex::decode`, `parse` and
    `to_string` read and write it. */
module Numerals {
  import opened Options
  import opened Words

  predicate StartsWith(s: string, prefix: string) {
    |prefix| <= |s| && s[..|prefix|] == prefix
  }

  predicate IsDigit(c: char) {
    '0' <= c <= '9'
  }

  predicate AllDigits(s: string) {
    forall i :: 0 <= i < |s| ==> IsDigit(s[i])
  }

  function DigitValue(c: char): (d: nat)
    requires IsDigit(c)
    ensures d < 10
  {
    c as int - '0' as int
  }

  /** The number a string of decimal digits denotes. */
  function DecimalValue(s: string): nat
    requires AllDigits(s)
  {
    if s == [] then 0 else DecimalValue(s[..|s| - 1]) * 10 + DigitValue(s[|s| - 1])
  }

  /** A prefix never denotes a larger number, so an overflow seen early is never undone later. */
  lemma {:induction false} PrefixIsSmaller(s: string, n: nat)
    requires AllDigits(s) && n <= |s|
    ensures DecimalValue(s[..n]) <= DecimalValue(s)
  {
    if n < |s| {
      PrefixIsSmaller(s[..|s| - 1], n);
      assert s[..|s| - 1][..n] == s[..n];
    } else {
      assert s[..n] == s;
    }
  }

  /** `n.to_string()`. */
  function Show(n: nat): (s: string)
    ensures s != [] && AllDigits(s)
    ensures DecimalValue(s) == n
  {
    var last := [('0' as int + n % 10) as char];
    if n < 10 then
      assert DecimalValue(last) == DecimalValue([]) * 10 + n;
      last
    else
      var s := Show(n / 10) + last;
      assert s[..|s| - 1] == Show(n / 10);
      s
  }

  const U32_MAX: nat := 0xFFFF_FFFF

  /** `s.parse::<u32>()`: an optional plus sign and at least one digit, within 32 bits. */
  function ParseU32(s: string): (r: Option<nat>)
    ensures r.Some? ==> r.value <= U32_MAX
  {
    var digits := if |s| > 0 && s[0] == '+' then s[1..] else s;
    if digits != [] && AllDigits(digits) && DecimalValue(digits) <= U32_MAX
    then Some(DecimalValue(digits)) else None
  }

  lemma ParseShow(n: nat)
    requires n <= U32_MAX
    ensures ParseU32(Show(n)) == Some(n)
  {
    assert IsDigit(Show(n)[0]);
  }

  predicate IsHex(c: char) {
    IsDigit(c) || 'a' <= c <= 'f' || 'A' <= c <= 'F'
  }

  predicate AllHex(s: string) {
    forall i :: 0 <= i < |s| ==> IsHex(s[i])
  }

  function NibbleValue(c: char): (d: nat)
    requires IsHex(c)
    ensures d < 16
  {
    if IsDigit(c) then DigitValue(c)
    else if 'a' <= c <= 'f' then c as int - 'a' as int + 10
    else c as int - 'A' as int + 10
  }

  /** The number a string of hexadecimal digits denotes. */
  function HexValue(s: string): nat
    requires AllHex(s)
  {
    if s == [] then 0 else HexValue(s[..|s| - 1]) * 16 + NibbleValue(s[|s| - 1])
  }

  /** `hex::decode`: two digits a byte, refusing an odd length and any other character. */
  function HexDecode(s: string): (r: Option<seq<Byte>>)
    ensures r.Some? <==> |s| % 2 == 0 && AllHex(s)
    ensures r.Some? ==> |r.value| == |s| / 2
  {
    if s == [] then Some([])
    else if |s| % 2 == 1 || !IsHex(s[|s| - 1]) || !IsHex(s[|s| - 2]) then None
    else
      var front := HexDecode(s[..|s| - 2]);
      if front.None? then None
      else
        assert forall i :: 0 <= i < |s| ==> s[i] == if i < |s| - 2 then s[..|s| - 2][i] else s[i];
        Some(front.value + [NibbleValue(s[|s| - 2]) * 16 + NibbleValue(s[|s| - 1])])
  }

  /** Decoding to bytes keeps the number the digits denote. */
  lemma {:induction false} HexDecodeValue(s: string)
    requires HexDecode(s).Some?
    ensures Value(HexDecode(s).value) == HexValue(s)
  {
    if s != [] {
      var front := s[..|s| - 2];
      HexDecodeValue(front);
      var bytes := HexDecode(s).value;
      assert bytes[..|bytes| - 1] == HexDecode(front).value;
      assert s[..|s| - 1][..|s| - 2] == front;
    }
  }

  /** Each byte is its own two digits. */
  lemma {:induction false} HexDecodeAt(s: string, i: nat)
    requires HexDecode(s).Some? && 2 * i < |s|
    ensures HexDecode(s).value[i] == NibbleValue(s[2 * i]) * 16 + NibbleValue(s[2 * i + 1])
  {
    var front := s[..|s| - 2];
    if 2 * i < |s| - 2 {
      HexDecodeAt(front, i);
      assert front[2 * i] == s[2 * i] && front[2 * i + 1] == s[2 * i + 1];
    }
  }

  /** A leading zero digit changes nothing: the odd-length padding of the numeric hex path. */
  lemma {:induction false} HexPad(s: string)
    requires AllHex(s)
    ensures AllHex("0" + s) && HexValue("0" + s) == HexValue(s)
  {
    var p := "0" + s;
    assert forall i :: 0 <= i < |p| ==> p[i] == if i == 0 then '0' else s[i - 1];
    if s == [] {
      assert p[..0] == [];
    } else {
      HexPad(s[..|s| - 1]);
      assert p[..|p| - 1] == "0" + s[..|s| - 1];
    }
  }
}
