/** Wallet keys as text: `ed25519:` and 32 bytes of hex, or `secp256k1:` and a compressed point of 33,
    and the one spelling of each that anything is stored under. */
module WalletKeys {
  import opened Options
  import opened Words
  import opened Numerals
  import opened Conditions

  datatype WalletKey = Ed25519(bytes: seq<Byte>) | Secp256k1(bytes: seq<Byte>)

  const ED25519: string := "ed25519:"
  const SECP256K1: string := "secp256k1:"

  /** `parse_wallet_pubkey`. Neither key type holds a colon, so splitting at the first colon and
      comparing the type is testing the prefix. */
  function ParseKey(s: string): (r: Option<WalletKey>)
    ensures r.Some? ==> ':' in s
    ensures r.Some? && r.value.Ed25519? ==> |s| == 72 && |r.value.bytes| == 32
    ensures r.Some? && r.value.Secp256k1? ==> |s| == 76 && |r.value.bytes| == 33
  {
    if StartsWith(s, ED25519) then
      var bytes := HexDecode(s[|ED25519|..]);
      assert s[7] == s[..8][7];
      if bytes.Some? && |bytes.value| == 32 then Some(Ed25519(bytes.value)) else None
    else if StartsWith(s, SECP256K1) then
      var bytes := HexDecode(s[|SECP256K1|..]);
      assert s[9] == s[..10][9];
      if bytes.Some? && |bytes.value| == 33 && 2 <= bytes.value[0] <= 3 then Some(Secp256k1(bytes.value)) else None
    else None
  }

  function HexDigit(d: nat): (c: char)
    requires d < 16
    ensures IsHex(c) && NibbleValue(c) == d && !('A' <= c <= 'F')
  {
    if d < 10 then ('0' as int + d) as char else ('a' as int + d - 10) as char
  }

  predicate IsLowerHex(c: char) {
    IsDigit(c) || 'a' <= c <= 'f'
  }

  /** `hex::encode`. */
  function HexEncode(bytes: seq<Byte>): (s: string)
    ensures |s| == 2 * |bytes|
    ensures forall i :: 0 <= i < |s| ==> IsLowerHex(s[i])
    ensures HexDecode(s) == Some(bytes)
  {
    if bytes == [] then ""
    else
      var n := |bytes| - 1;
      var front := HexEncode(bytes[..n]);
      var s := front + [HexDigit(bytes[n] / 16), HexDigit(bytes[n] % 16)];
      assert s[..|s| - 2] == front;
      assert s[|s| - 2] == HexDigit(bytes[n] / 16) && s[|s| - 1] == HexDigit(bytes[n] % 16);
      assert HexDecode(s) == Some(bytes[..n] + [bytes[n]]) && bytes[..n] + [bytes[n]] == bytes;
      s
  }

  function KeyText(k: WalletKey): string {
    match k
    case Ed25519(bytes) => ED25519 + HexEncode(bytes)
    case Secp256k1(bytes) => SECP256K1 + HexEncode(bytes)
  }

  /** `canonical_wallet_pubkey`. */
  function CanonicalKey(s: string): Option<string> {
    match ParseKey(s)
    case None => None
    case Some(k) => Some(KeyText(k))
  }

  predicate IsWalletKey(s: string) {
    ParseKey(s).Some?
  }

  lemma KeyTextParses(k: WalletKey)
    requires k.Ed25519? ==> |k.bytes| == 32
    requires k.Secp256k1? ==> |k.bytes| == 33 && 2 <= k.bytes[0] <= 3
    ensures ParseKey(KeyText(k)) == Some(k)
  {
    var s := KeyText(k);
    if k.Ed25519? {
      assert s[..8] == ED25519 && s[8..] == HexEncode(k.bytes);
    } else {
      assert s[..10] == SECP256K1 && s[10..] == HexEncode(k.bytes);
      assert s[0] == 's';
    }
  }

  /** Two spellings share a canonical form exactly when they are the same key, and the canonical form
      is a spelling of it: one wallet, one slot. */
  lemma CanonicalKeyNamesTheKey(s: string, t: string)
    requires IsWalletKey(s) && IsWalletKey(t)
    ensures ParseKey(CanonicalKey(s).value) == ParseKey(s)
    ensures CanonicalKey(s) == CanonicalKey(t) <==> ParseKey(s) == ParseKey(t)
  {
    KeyTextParses(ParseKey(s).value);
    KeyTextParses(ParseKey(t).value);
  }

  /** What is accepted: the type, and 64 hex digits, or 02 or 03 and 64 more. */
  lemma KeyShape(s: string)
    ensures IsWalletKey(s) <==>
            || (|s| == 72 && s[..8] == "ed25519:" && AllHex(s[8..]))
            || (|s| == 76 && s[..10] == "secp256k1:" && AllHex(s[10..])
                && s[10] == '0' && (s[11] == '2' || s[11] == '3'))
  {
    if |s| >= 10 && s[..10] == SECP256K1 {
      assert s[..8][0] == s[..10][0] == 's';
      if HexDecode(s[10..]).Some? && |s| > 10 {
        HexDecodeAt(s[10..], 0);
        TwoOrThree(s[10], s[11]);
      }
    }
  }

  lemma TwoOrThree(c: char, d: char)
    requires IsHex(c) && IsHex(d)
    ensures 2 <= NibbleValue(c) * 16 + NibbleValue(d) <= 3 <==> c == '0' && (d == '2' || d == '3')
  {
  }

  /** The stored spelling is as long as the submitted one and holds no capital. */
  lemma CanonicalIsLowerCase(s: string)
    requires IsWalletKey(s)
    ensures |CanonicalKey(s).value| == |s|
    ensures forall i :: 0 <= i < |s| ==> !('A' <= CanonicalKey(s).value[i] <= 'Z')
  {
    var k := ParseKey(s).value;
    var hex := HexEncode(k.bytes);
    assert CanonicalKey(s).value == (if k.Ed25519? then ED25519 else SECP256K1) + hex;
  }

  /** `implicit_account_of`: the lower-case hex of an ed25519 key; other keys have no account. */
  function ImplicitAccount(s: string): (r: Option<string>)
    ensures r.Some? ==> IsLowerHex64(r.value) && IsWalletKey(s)
  {
    match ParseKey(s)
    case Some(Ed25519(bytes)) => Some(HexEncode(bytes))
    case _ => None
  }

  /** The account and the stored spelling agree, and two keys share an account only if they are equal. */
  lemma ImplicitAccountNamesTheKey(s: string, t: string)
    requires ImplicitAccount(s).Some?
    ensures CanonicalKey(s) == Some(ED25519 + ImplicitAccount(s).value)
    ensures ImplicitAccount(t) == ImplicitAccount(s) <==> ParseKey(t) == ParseKey(s)
  {
  }
}
