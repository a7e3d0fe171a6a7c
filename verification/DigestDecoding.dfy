/** Reading a digest back by the standard, without the encoder: which bytes stand where, section by section
    of EIP-712, and the proof that what the encoder wrote reads as what the document means. */
module DigestDecoding {
  import opened Options
  import opened Words
  import opened Integers
  import opened Json
  import opened TypeGraph
  import opened TypedData
  import opened DigestFaithful
  import Utf8

  // ---- words ----

  predicate AllLits(q: seq<Sym>) {
    forall i :: 0 <= i < |q| ==> q[i].Lit?
  }

  function BytesOf(q: seq<Sym>): (bs: seq<Byte>)
    requires AllLits(q)
    ensures |bs| == |q|
  {
    seq(|q|, i requires 0 <= i < |q| => q[i].b)
  }

  lemma BytesOfLits(bs: seq<Byte>)
    ensures AllLits(Lits(bs)) && BytesOf(Lits(bs)) == bs
  {
  }

  predicate IsDigest(w: seq<Sym>) {
    |w| == 1 && w[0].Digest?
  }

  /** How many symbols the word at the front takes: a hash is one, 32 bytes are 32. */
  function FrontLen(q: seq<Sym>): nat
    requires q != []
  {
    if q[0].Digest? then 1 else 32
  }

  lemma WordInFront(w: seq<Sym>, rest: seq<Sym>)
    requires IsWord(w)
    ensures var q := w + rest;
            q != [] && FrontLen(q) == |w| <= |q| && q[..|w|] == w && q[|w|..] == rest
  {
    assert (w + rest)[0] == w[0];
  }

  // ---- encodeData, read back ----

  /** Atomic values: dynamic ones by their hash; a boolean in the last byte, an address in the last twenty, a
      number big-endian, a signed one in two's complement, fixed bytes from the left. */
  ghost function DecodeKind(k: Kind, w: seq<Sym>): Option<Meaning> {
    if k.StringKind? then
      if IsDigest(w) && AllLits(w[0].pre) && exists s :: Utf8.Encode(s) == BytesOf(w[0].pre) then
        var s :| Utf8.Encode(s) == BytesOf(w[0].pre);
        Some(AString(s))
      else None
    else if k.BytesKind? then
      if IsDigest(w) && AllLits(w[0].pre) then Some(SomeBytes(BytesOf(w[0].pre))) else None
    else if |w| != 32 || !AllLits(w) then None
    else
      var bs := BytesOf(w);
      match k
      case BoolKind =>
        if bs[..31] != Zeros(31) then None
        else if bs[31] == 1 then Some(ABool(true)) else if bs[31] == 0 then Some(ABool(false)) else None
      case AddressKind => if bs[..12] == Zeros(12) then Some(AnAddress(bs[12..])) else None
      case UintKind(_) => Some(AUint(Value(bs)))
      case IntKind(_) => Some(AnInt(SignedValue(bs)))
      case FixedBytesKind(_) => Some(FixedBytes(bs))
  }

  ghost function DecodeField(types: Types, ty: string, w: seq<Sym>): Option<Meaning>
    decreases w, 2
  {
    var inner := ArrayInner(ty);
    if inner.Some? then
      if IsDigest(w) then
        var items := DecodeItems(types, inner.value, w[0].pre);
        if items.Some? then Some(AnArray(items.value)) else None
      else None
    else if ty in types then DecodeStruct(types, ty, w)
    else
      var k := AtomicKind(ty);
      if k.Some? then DecodeKind(k.value, w) else None
  }

  /** An array is the hash of its items' words, one after the other. */
  ghost function DecodeItems(types: Types, inner: string, q: seq<Sym>): Option<seq<Meaning>>
    decreases q, 3
  {
    if q == [] then Some([])
    else if FrontLen(q) > |q| then None
    else
      var first := if FrontLen(q) == |q| then DecodeField(types, inner, q)
                   else DecodeField(types, inner, q[..FrontLen(q)]);
      var rest := DecodeItems(types, inner, q[FrontLen(q)..]);
      if first.Some? && rest.Some? then Some([first.value] + rest.value) else None
  }

  /** A struct is the hash of its type's hash and of its fields' words, in the order of declaration. */
  ghost function DecodeStruct(types: Types, name: string, w: seq<Sym>): Option<Meaning>
    decreases w, 1
  {
    var text := EncodeType(types, name);
    if text.None? || !IsDigest(w) || w[0].pre == [] || w[0].pre[0] != Digest(Lits(Utf8.Encode(text.value))) then None
    else
      var fields := DecodeFields(types, types[name], 0, w[0].pre[1..]);
      if fields.Some? then Some(AStruct(fields.value)) else None
  }

  ghost function DecodeFields(types: Types, fields: seq<Field>, i: nat, q: seq<Sym>): Option<seq<Meaning>>
    requires i <= |fields|
    decreases q, 3, |fields| - i
  {
    if i == |fields| then if q == [] then Some([]) else None
    else if q == [] || FrontLen(q) > |q| then None
    else
      var ty := fields[i].ty;
      var first := if FrontLen(q) == |q| then DecodeField(types, ty, q) else DecodeField(types, ty, q[..FrontLen(q)]);
      var rest := DecodeFields(types, fields, i + 1, q[FrontLen(q)..]);
      if first.Some? && rest.Some? then Some([first.value] + rest.value) else None
  }

  /** The digest: the hash of 0x19, 0x01, the domain separator and the struct hash of the message. */
  ghost function DecodeDigest(types: Types, primary: string, p: seq<Sym>): Option<(Meaning, Meaning)> {
    if !IsDigest(p) || |p[0].pre| != 4 || p[0].pre[0] != Lit(0x19) || p[0].pre[1] != Lit(0x01) then None
    else
      var domain := DecodeStruct(types, "EIP712Domain", [p[0].pre[2]]);
      var message := DecodeStruct(types, primary, [p[0].pre[3]]);
      if domain.Some? && message.Some? then Some((domain.value, message.value)) else None
  }

  // ---- what was encoded reads back ----

  lemma StringDecodes(s: string)
    ensures DecodeKind(StringKind, Keccak(Lits(Utf8.Encode(s)))) == Some(AString(s))
  {
    var bs := Utf8.Encode(s);
    BytesOfLits(bs);
    assert Utf8.Encode(s) == BytesOf(Lits(bs));
    forall t | Utf8.Encode(t) == bs
      ensures t == s
    {
      Utf8.EncodeIsInjective(t, s);
    }
  }

  lemma BoolDecodes(b: bool)
    ensures DecodeKind(BoolKind, Lits(Zeros(31) + [if b then 1 else 0])) == Some(ABool(b))
  {
    var bs := Zeros(31) + [if b then 1 else 0];
    BytesOfLits(bs);
    assert bs[..31] == Zeros(31) && bs[31] == if b then 1 else 0;
  }

  lemma AddressDecodes(bs: seq<Byte>)
    requires |bs| == 20
    ensures DecodeKind(AddressKind, Lits(Zeros(12) + bs)) == Some(AnAddress(bs))
  {
    var w := Zeros(12) + bs;
    BytesOfLits(w);
    assert w[..12] == Zeros(12) && w[12..] == bs;
  }

  lemma UintDecodes(bits: nat, s: string)
    requires IsWidth(bits, 32) && UintField(s, bits, 32).Some?
    ensures UintNumber(s, bits, 32).Some?
    ensures DecodeKind(UintKind(bits), Lits(UintField(s, bits, 32).value)) == Some(AUint(UintNumber(s, bits, 32).value))
  {
    UintAccepted(s, bits, 32);
    BytesOfLits(UintField(s, bits, 32).value);
  }

  lemma IntDecodes(bits: nat, s: string)
    requires IsWidth(bits, 32) && IntField(s, bits, 32).Some?
    ensures IntNumber(s, bits, 32).Some?
    ensures DecodeKind(IntKind(bits), Lits(IntField(s, bits, 32).value)) == Some(AnInt(IntNumber(s, bits, 32).value))
  {
    IntAccepted(s, bits, 32);
    BytesOfLits(IntField(s, bits, 32).value);
  }

  lemma FixedBytesDecodes(n: nat, bs: seq<Byte>)
    requires |bs| <= 32
    ensures DecodeKind(FixedBytesKind(n), Lits(bs + Zeros(32 - |bs|))) == Some(FixedBytes(bs + Zeros(32 - |bs|)))
  {
    BytesOfLits(bs + Zeros(32 - |bs|));
  }

  lemma KindDecodes(k: Kind, v: Json)
    requires WellFormed(k) && EncodeKind(k, v).Some?
    ensures DecodeKind(k, EncodeKind(k, v).value) == KindMeaning(k, v)
  {
    match k
    case StringKind => StringDecodes(v.s);
    case BytesKind => BytesOfLits(HexBytes(v).value);
    case BoolKind => BoolDecodes(v.b);
    case AddressKind => AddressDecodes(HexBytes(v).value);
    case UintKind(bits) => UintDecodes(bits, IntegerText(v).value);
    case IntKind(bits) => IntDecodes(bits, IntegerText(v).value);
    case FixedBytesKind(n) => FixedBytesDecodes(n, HexBytes(v).value);
  }

  lemma {:induction false} FieldDecodes(types: Types, ty: string, v: Json)
    requires EncodeField(types, ty, v).Some?
    ensures DecodeField(types, ty, EncodeField(types, ty, v).value) == FieldMeaning(types, ty, v)
    decreases v, 3, 0
  {
    var inner := ArrayInner(ty);
    if inner.Some? {
      ItemsDecode(types, inner.value, v, 0);
    } else if ty in types {
      StructDecodes(types, ty, v);
    } else {
      KindDecodes(AtomicKind(ty).value, v);
    }
  }

  lemma {:induction false} ItemsDecode(types: Types, inner: string, v: Json, i: nat)
    requires v.Array? && i <= |v.items| && EncodeItems(types, inner, v, i).Some?
    ensures DecodeItems(types, inner, EncodeItems(types, inner, v, i).value) == ItemMeanings(types, inner, v, i)
    decreases v, 1, |v.items| - i
  {
    if i < |v.items| {
      var first, rest := EncodeField(types, inner, v.items[i]).value, EncodeItems(types, inner, v, i + 1).value;
      FieldDecodes(types, inner, v.items[i]);
      ItemsDecode(types, inner, v, i + 1);
      WordInFront(first, rest);
      if |first| == |first + rest| {
        assert first + rest == first;
      }
    }
  }

  lemma {:induction false} StructDecodes(types: Types, name: string, v: Json)
    requires HashStruct(types, name, v).Some?
    ensures DecodeStruct(types, name, HashStruct(types, name, v).value) == StructMeaning(types, name, v)
    decreases v, 2, 0
  {
    var enc := EncodeFields(types, types[name], v, 0).value;
    FieldsDecode(types, types[name], v, 0);
    var th := TypeHash(EncodeType(types, name).value);
    assert (th + enc)[0] == th[0] && (th + enc)[1..] == enc;
  }

  lemma {:induction false} FieldsDecode(types: Types, fields: seq<Field>, v: Json, i: nat)
    requires v.Object? && i <= |fields| && EncodeFields(types, fields, v, i).Some?
    ensures DecodeFields(types, fields, i, EncodeFields(types, fields, v, i).value)
         == FieldMeanings(types, fields, v, i)
    decreases v, 1, |fields| - i
  {
    if i < |fields| {
      var f := fields[i];
      var first := EncodeField(types, f.ty, v.fields[f.name]).value;
      var rest := EncodeFields(types, fields, v, i + 1).value;
      FieldDecodes(types, f.ty, v.fields[f.name]);
      FieldsDecode(types, fields, v, i + 1);
      WordInFront(first, rest);
      if |first| == |first + rest| {
        assert first + rest == first;
      }
    }
  }

  /** The digest of a document, read by the standard, says what its domain and its message mean. */
  lemma DigestDecodes(v: Json)
    requires TypedDataDigest(v).Some?
    ensures DomainMeaning(v).Some? && MessageMeaning(v).Some?
    ensures DecodeDigest(TypesOf(v), v.fields["primaryType"].s, TypedDataDigest(v).value)
         == Some((DomainMeaning(v).value, MessageMeaning(v).value))
  {
    DigestExists(v);
    var t, primary := TypesOf(v), v.fields["primaryType"].s;
    var separator := HashStruct(t, "EIP712Domain", v.fields["domain"]).value;
    var hash := HashStruct(t, primary, v.fields["message"]).value;
    StructDecodes(t, "EIP712Domain", v.fields["domain"]);
    StructDecodes(t, primary, v.fields["message"]);
    var q := [Lit(0x19), Lit(0x01)] + separator + hash;
    assert |q| == 4 && q[0] == Lit(0x19) && q[1] == Lit(0x01) && [q[2]] == separator && [q[3]] == hash;
  }
}
