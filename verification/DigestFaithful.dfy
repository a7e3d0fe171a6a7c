/** The digest says exactly what the typed data means: it exists exactly for data with a meaning,
    and two digests under the same types are equal exactly when the meanings are. */
module DigestFaithful {
  import opened Options
  import opened Words
  import opened Integers
  import opened Json
  import opened TypeGraph
  import opened TypedData
  import Utf8

  // ---- atomic values ----

  predicate WellFormed(k: Kind) {
    && (k.UintKind? || k.IntKind? ==> IsWidth(k.bits, 32))
    && (k.FixedBytesKind? ==> k.n <= 32)
  }

  lemma KindAccepted(k: Kind, v: Json)
    requires WellFormed(k)
    ensures EncodeKind(k, v).Some? <==> KindMeaning(k, v).Some?
  {
    if IntegerText(v).Some? {
      if k.UintKind? {
        UintAccepted(IntegerText(v).value, k.bits, 32);
      } else if k.IntKind? {
        IntAccepted(IntegerText(v).value, k.bits, 32);
      }
    }
  }

  lemma LitsEqual(a: seq<Byte>, b: seq<Byte>)
    ensures Lits(a) == Lits(b) <==> a == b
  {
    if Lits(a) == Lits(b) {
      LitsIsInjective(a, b);
    }
  }

  lemma PrefixCancel(p: seq<Byte>, a: seq<Byte>, b: seq<Byte>)
    ensures p + a == p + b <==> a == b
  {
    assert (p + a)[|p|..] == a && (p + b)[|p|..] == b;
  }

  lemma KindFaithful(k: Kind, v: Json, w: Json)
    requires WellFormed(k) && EncodeKind(k, v).Some? && EncodeKind(k, w).Some?
    ensures KindMeaning(k, v).Some? && KindMeaning(k, w).Some?
    ensures EncodeKind(k, v) == EncodeKind(k, w) <==> KindMeaning(k, v) == KindMeaning(k, w)
  {
    KindAccepted(k, v);
    KindAccepted(k, w);
    match k
    case StringKind =>
      LitsEqual(Utf8.Encode(v.s), Utf8.Encode(w.s));
      if Utf8.Encode(v.s) == Utf8.Encode(w.s) {
        Utf8.EncodeIsInjective(v.s, w.s);
      }
    case BytesKind => LitsEqual(HexBytes(v).value, HexBytes(w).value);
    case BoolKind =>
      var a, b := [if v.b then 1 else 0], [if w.b then 1 else 0];
      LitsEqual(Zeros(31) + a, Zeros(31) + b);
      PrefixCancel(Zeros(31), a, b);
    case AddressKind =>
      LitsEqual(Zeros(12) + HexBytes(v).value, Zeros(12) + HexBytes(w).value);
      PrefixCancel(Zeros(12), HexBytes(v).value, HexBytes(w).value);
    case UintKind(bits) =>
      var s, t := IntegerText(v).value, IntegerText(w).value;
      UintFieldFaithful(s, t, bits, 32);
      LitsEqual(UintField(s, bits, 32).value, UintField(t, bits, 32).value);
    case IntKind(bits) =>
      var s, t := IntegerText(v).value, IntegerText(w).value;
      IntFieldFaithful(s, t, bits, 32);
      LitsEqual(IntField(s, bits, 32).value, IntField(t, bits, 32).value);
    case FixedBytesKind(n) =>
      var a, b := HexBytes(v).value, HexBytes(w).value;
      LitsEqual(a + Zeros(32 - |a|), b + Zeros(32 - |b|));
  }

  // ---- acceptance at every depth ----

  lemma {:induction false} FieldAccepted(types: Types, ty: string, v: Json)
    ensures EncodeField(types, ty, v).Some? <==> FieldMeaning(types, ty, v).Some?
    decreases v, 3, 0
  {
    var inner := ArrayInner(ty);
    if inner.Some? {
      if v.Array? && LengthAgrees(ty, |v.items|) {
        ItemsAccepted(types, inner.value, v, 0);
      }
    } else if ty in types {
      StructAccepted(types, ty, v);
    } else if AtomicKind(ty).Some? {
      KindAccepted(AtomicKind(ty).value, v);
    }
  }

  lemma {:induction false} ItemsAccepted(types: Types, inner: string, v: Json, i: nat)
    requires v.Array? && i <= |v.items|
    ensures EncodeItems(types, inner, v, i).Some? <==> ItemMeanings(types, inner, v, i).Some?
    decreases v, 1, |v.items| - i
  {
    if i < |v.items| {
      FieldAccepted(types, inner, v.items[i]);
      ItemsAccepted(types, inner, v, i + 1);
    }
  }

  lemma {:induction false} StructAccepted(types: Types, name: string, v: Json)
    ensures HashStruct(types, name, v).Some? <==> StructMeaning(types, name, v).Some?
    decreases v, 2, 0
  {
    if name in types && v.Object? {
      FieldsAccepted(types, types[name], v, 0);
    }
  }

  lemma {:induction false} FieldsAccepted(types: Types, fields: seq<Field>, v: Json, i: nat)
    requires v.Object? && i <= |fields|
    ensures EncodeFields(types, fields, v, i).Some? <==> FieldMeanings(types, fields, v, i).Some?
    decreases v, 1, |fields| - i
  {
    if i < |fields| && fields[i].name in v.fields {
      FieldAccepted(types, fields[i].ty, v.fields[fields[i].name]);
      FieldsAccepted(types, fields, v, i + 1);
    }
  }

  // ---- equality at every depth ----

  /** Concatenating a word to the front keeps equality both ways, on both sides of the encoding. */
  lemma ConsFaithful(a: seq<Sym>, x: seq<Sym>, b: seq<Sym>, y: seq<Sym>,
                     m: Meaning, s: seq<Meaning>, n: Meaning, t: seq<Meaning>)
    requires IsWord(a) && IsWord(b)
    requires a == b <==> m == n
    requires x == y <==> s == t
    ensures a + x == b + y <==> [m] + s == [n] + t
  {
    if a + x == b + y {
      WordCancel(a, x, b, y);
    }
    if [m] + s == [n] + t {
      assert ([m] + s)[0] == m && ([n] + t)[0] == n;
      assert ([m] + s)[1..] == s && ([n] + t)[1..] == t;
    }
  }

  lemma {:induction false} FieldFaithful(types: Types, ty: string, v: Json, w: Json)
    requires EncodeField(types, ty, v).Some? && EncodeField(types, ty, w).Some?
    ensures FieldMeaning(types, ty, v).Some? && FieldMeaning(types, ty, w).Some?
    ensures EncodeField(types, ty, v) == EncodeField(types, ty, w)
       <==> FieldMeaning(types, ty, v) == FieldMeaning(types, ty, w)
    decreases v, 3, 0
  {
    FieldAccepted(types, ty, v);
    FieldAccepted(types, ty, w);
    var inner := ArrayInner(ty);
    if inner.Some? {
      ItemsFaithful(types, inner.value, v, w, 0);
    } else if ty in types {
      StructFaithful(types, ty, v, w);
    } else {
      KindFaithful(AtomicKind(ty).value, v, w);
    }
  }

  lemma {:induction false} ItemsFaithful(types: Types, inner: string, v: Json, w: Json, i: nat)
    requires v.Array? && w.Array? && i <= |v.items| && i <= |w.items|
    requires EncodeItems(types, inner, v, i).Some? && EncodeItems(types, inner, w, i).Some?
    ensures ItemMeanings(types, inner, v, i).Some? && ItemMeanings(types, inner, w, i).Some?
    ensures EncodeItems(types, inner, v, i) == EncodeItems(types, inner, w, i)
       <==> ItemMeanings(types, inner, v, i) == ItemMeanings(types, inner, w, i)
    decreases v, 1, |v.items| - i
  {
    ItemsAccepted(types, inner, v, i);
    ItemsAccepted(types, inner, w, i);
    if i < |v.items| && i < |w.items| {
      FieldFaithful(types, inner, v.items[i], w.items[i]);
      ItemsFaithful(types, inner, v, w, i + 1);
      ConsFaithful(EncodeField(types, inner, v.items[i]).value, EncodeItems(types, inner, v, i + 1).value,
                   EncodeField(types, inner, w.items[i]).value, EncodeItems(types, inner, w, i + 1).value,
                   FieldMeaning(types, inner, v.items[i]).value, ItemMeanings(types, inner, v, i + 1).value,
                   FieldMeaning(types, inner, w.items[i]).value, ItemMeanings(types, inner, w, i + 1).value);
    }
  }

  lemma {:induction false} StructFaithful(types: Types, name: string, v: Json, w: Json)
    requires HashStruct(types, name, v).Some? && HashStruct(types, name, w).Some?
    ensures StructMeaning(types, name, v).Some? && StructMeaning(types, name, w).Some?
    ensures HashStruct(types, name, v) == HashStruct(types, name, w)
       <==> StructMeaning(types, name, v) == StructMeaning(types, name, w)
    decreases v, 2, 0
  {
    StructAccepted(types, name, v);
    StructAccepted(types, name, w);
    FieldsFaithful(types, types[name], v, w, 0);
    var th := TypeHash(EncodeType(types, name).value);
    var a, b := EncodeFields(types, types[name], v, 0).value, EncodeFields(types, types[name], w, 0).value;
    if th + a == th + b {
      WordCancel(th, a, th, b);
    }
  }

  lemma {:induction false} FieldsFaithful(types: Types, fields: seq<Field>, v: Json, w: Json, i: nat)
    requires v.Object? && w.Object? && i <= |fields|
    requires EncodeFields(types, fields, v, i).Some? && EncodeFields(types, fields, w, i).Some?
    ensures FieldMeanings(types, fields, v, i).Some? && FieldMeanings(types, fields, w, i).Some?
    ensures EncodeFields(types, fields, v, i) == EncodeFields(types, fields, w, i)
       <==> FieldMeanings(types, fields, v, i) == FieldMeanings(types, fields, w, i)
    decreases v, 1, |fields| - i
  {
    FieldsAccepted(types, fields, v, i);
    FieldsAccepted(types, fields, w, i);
    if i < |fields| {
      var f := fields[i];
      var x, y := v.fields[f.name], w.fields[f.name];
      FieldFaithful(types, f.ty, x, y);
      FieldsFaithful(types, fields, v, w, i + 1);
      ConsFaithful(EncodeField(types, f.ty, x).value, EncodeFields(types, fields, v, i + 1).value,
                   EncodeField(types, f.ty, y).value, EncodeFields(types, fields, w, i + 1).value,
                   FieldMeaning(types, f.ty, x).value, FieldMeanings(types, fields, v, i + 1).value,
                   FieldMeaning(types, f.ty, y).value, FieldMeanings(types, fields, w, i + 1).value);
    }
  }

  // ---- eip712_digest ----

  predicate IsField(f: Json) {
    f.Object? && "name" in f.fields && "type" in f.fields && f.fields["name"].Text? && f.fields["type"].Text?
  }

  function ReadFields(items: seq<Json>): seq<Field>
    requires forall i :: 0 <= i < |items| ==> IsField(items[i])
  {
    seq(|items|, i requires 0 <= i < |items| && IsField(items[i]) =>
          Field(items[i].fields["name"].s, items[i].fields["type"].s))
  }

  predicate IsFieldList(v: Json) {
    v.Array? && forall i :: 0 <= i < |v.items| ==> IsField(v.items[i])
  }

  /** `parse_types`. */
  function ParseTypes(v: Json): Option<Types> {
    if v.Object? && forall name :: name in v.fields ==> IsFieldList(v.fields[name])
    then Some(map name | name in v.fields :: ReadFields(v.fields[name].items)) else None
  }

  /** The members `eip712_digest` asks for are there, and the types parse. */
  predicate IsTypedData(v: Json) {
    && v.Object? && "domain" in v.fields && "primaryType" in v.fields && "message" in v.fields
    && "types" in v.fields && v.fields["primaryType"].Text? && ParseTypes(v.fields["types"]).Some?
  }

  function TypesOf(v: Json): Types
    requires IsTypedData(v)
  {
    ParseTypes(v.fields["types"]).value
  }

  /** `eip712_digest`: the hash of 0x1901, the domain separator and the message's struct hash. */
  ghost function TypedDataDigest(v: Json): Option<seq<Sym>> {
    if !IsTypedData(v) then None
    else
      var separator := HashStruct(TypesOf(v), "EIP712Domain", v.fields["domain"]);
      var hash := HashStruct(TypesOf(v), v.fields["primaryType"].s, v.fields["message"]);
      if separator.Some? && hash.Some?
      then Some(Keccak([Lit(0x19), Lit(0x01)] + separator.value + hash.value)) else None
  }

  function DomainMeaning(v: Json): Option<Meaning>
    requires IsTypedData(v)
  {
    StructMeaning(TypesOf(v), "EIP712Domain", v.fields["domain"])
  }

  function MessageMeaning(v: Json): Option<Meaning>
    requires IsTypedData(v)
  {
    StructMeaning(TypesOf(v), v.fields["primaryType"].s, v.fields["message"])
  }

  /** A digest exists exactly when the domain and the message both have a meaning. */
  lemma DigestExists(v: Json)
    ensures TypedDataDigest(v).Some?
       <==> IsTypedData(v) && DomainMeaning(v).Some? && MessageMeaning(v).Some?
  {
    if IsTypedData(v) {
      StructAccepted(TypesOf(v), "EIP712Domain", v.fields["domain"]);
      StructAccepted(TypesOf(v), v.fields["primaryType"].s, v.fields["message"]);
    }
  }

  lemma PreimageSplits(head: seq<Sym>, d: seq<Sym>, h: seq<Sym>, d': seq<Sym>, h': seq<Sym>)
    requires IsWord(d) && IsWord(d') && head + d + h == head + d' + h'
    ensures d == d' && h == h'
  {
    assert (head + d + h)[|head|..] == d + h && (head + d' + h')[|head|..] == d' + h';
    WordCancel(d, h, d', h');
  }

  lemma DigestSplits(v: Json, w: Json)
    requires TypedDataDigest(v).Some? && TypedDataDigest(v) == TypedDataDigest(w)
    ensures HashStruct(TypesOf(v), "EIP712Domain", v.fields["domain"])
         == HashStruct(TypesOf(w), "EIP712Domain", w.fields["domain"])
    ensures HashStruct(TypesOf(v), v.fields["primaryType"].s, v.fields["message"])
         == HashStruct(TypesOf(w), w.fields["primaryType"].s, w.fields["message"])
  {
    var d1 := HashStruct(TypesOf(v), "EIP712Domain", v.fields["domain"]).value;
    var d2 := HashStruct(TypesOf(w), "EIP712Domain", w.fields["domain"]).value;
    var h1 := HashStruct(TypesOf(v), v.fields["primaryType"].s, v.fields["message"]).value;
    var h2 := HashStruct(TypesOf(w), w.fields["primaryType"].s, w.fields["message"]).value;
    PreimageSplits([Lit(0x19), Lit(0x01)], d1, h1, d2, h2);
  }

  /** The theorem: under the same types and primary type, two digests are equal exactly when the
      domains mean the same and the messages mean the same, at every depth. */
  lemma DigestIsFaithful(v: Json, w: Json)
    requires IsTypedData(v) && IsTypedData(w)
    requires v.fields["types"] == w.fields["types"] && v.fields["primaryType"] == w.fields["primaryType"]
    ensures TypedDataDigest(v).Some? && TypedDataDigest(w).Some? ==>
              (TypedDataDigest(v) == TypedDataDigest(w)
               <==> DomainMeaning(v) == DomainMeaning(w) && MessageMeaning(v) == MessageMeaning(w))
  {
    if TypedDataDigest(v).Some? && TypedDataDigest(w).Some? {
      StructFaithful(TypesOf(v), "EIP712Domain", v.fields["domain"], w.fields["domain"]);
      StructFaithful(TypesOf(v), v.fields["primaryType"].s, v.fields["message"], w.fields["message"]);
      if TypedDataDigest(v) == TypedDataDigest(w) {
        DigestSplits(v, w);
      }
    }
  }

  lemma StructHashBindsType(t: Types, name: string, v: Json, u: Types, other: string, w: Json)
    requires HashStruct(t, name, v).Some? && HashStruct(t, name, v) == HashStruct(u, other, w)
    ensures EncodeType(t, name) == EncodeType(u, other)
  {
    var a, b := EncodeType(t, name).value, EncodeType(u, other).value;
    var x, y := EncodeFields(t, t[name], v, 0).value, EncodeFields(u, u[other], w, 0).value;
    WordCancel(TypeHash(a), x, TypeHash(b), y);
    LitsIsInjective(Utf8.Encode(a), Utf8.Encode(b));
    Utf8.EncodeIsInjective(a, b);
  }

  /** Whatever the types, equal digests come from equal descriptions of the domain's type and of the
      message's type. */
  lemma DigestBindsTypes(v: Json, w: Json)
    requires TypedDataDigest(v).Some? && TypedDataDigest(v) == TypedDataDigest(w)
    ensures EncodeType(TypesOf(v), "EIP712Domain") == EncodeType(TypesOf(w), "EIP712Domain")
    ensures EncodeType(TypesOf(v), v.fields["primaryType"].s) == EncodeType(TypesOf(w), w.fields["primaryType"].s)
  {
    DigestSplits(v, w);
    StructHashBindsType(TypesOf(v), "EIP712Domain", v.fields["domain"],
                        TypesOf(w), "EIP712Domain", w.fields["domain"]);
    StructHashBindsType(TypesOf(v), v.fields["primaryType"].s, v.fields["message"],
                        TypesOf(w), w.fields["primaryType"].s, w.fields["message"]);
  }
}
