/** What goes wrong when names are no identifiers: two type sets with one text, and one struct hash for two
    meanings. */
module TypeCollision {
  import opened Options
  import opened Words
  import opened Numerals
  import opened Integers
  import opened Json
  import opened TypeGraph
  import opened TypeText
  import opened TypedData
  import opened DigestAcrossTypes

  /** Three fields written as two: the name of the first runs on into the second, or the name of the second
      into the third. */
  function RunsOnEarly(x: Field, y: Field, z: Field): seq<Field> {
    [Field(x.name + "," + FieldText(y), x.ty), z]
  }

  function RunsOnLate(x: Field, y: Field, z: Field): seq<Field> {
    [x, Field(y.name + "," + FieldText(z), y.ty)]
  }

  /** A struct with atomic fields only is described by itself alone. */
  lemma LonelyText(types: Types, n: string)
    requires n in types && forall i :: 0 <= i < |types[n]| ==> BaseType(types[n][i].ty) !in types
    ensures EncodeType(types, n) == Some(Describe(types, n))
  {
    forall m | m in Deps(types, n)
      ensures m == n
    {
      var p :| IsPath(types, p) && p[0] == n && p[|p| - 1] == m;
      ClosedHoldsPaths(types, {n}, p);
    }
    ReachesItself(types, n);
    assert Deps(types, n) - {n} == {};
    assert [n] + InOrder({}) == [n];
    DescribeAllCons(types, n, []);
    assert Describe(types, n) + [] == Describe(types, n);
  }

  lemma FieldTextRunsOn(x: Field, rest: string)
    ensures FieldText(Field(x.name + "," + rest, x.ty)) == FieldText(x) + "," + rest
  {
    assert x.ty + " " + (x.name + "," + rest) == x.ty + " " + x.name + "," + rest;
  }

  lemma RunningOnSharesAText(x: Field, y: Field, z: Field)
    ensures FieldsText(RunsOnEarly(x, y, z)) == FieldsText(RunsOnLate(x, y, z))
  {
    FieldTextRunsOn(x, FieldText(y));
    FieldTextRunsOn(y, FieldText(z));
    TwoFields(Field(x.name + "," + FieldText(y), x.ty), z);
    TwoFields(x, Field(y.name + "," + FieldText(z), y.ty));
    var a, b, c := FieldText(x), FieldText(y), FieldText(z);
    assert a + "," + b + "," + c == a + "," + (b + "," + c);
  }

  lemma HexTextIsItself(h: string)
    requires h != [] && AllHex(h)
    ensures var s := "0x" + h; IsHexText(s) && s[2..] == h && Trim(s) == s
  {
    var s := "0x" + h;
    assert s[0] == '0' && s[1] == 'x' && s[2..] == h;
    assert IsHex(h[|h| - 1]) && s[|s| - 1] == h[|h| - 1];
  }

  lemma PaddedValue(b: seq<Byte>, len: nat)
    requires |b| <= len
    ensures var w := Zeros(len - |b|) + b; |w| == len && Value(w) == Value(b) && Value(w) < Pow2(8 * len)
  {
    var w := Zeros(len - |b|) + b;
    ValueOfZeros(Zeros(len - |b|));
    LeadingZeros(Zeros(len - |b|), b);
    ValueBound(w);
    Pow256IsPow2(len);
  }

  lemma HexNumber(h: string, bits: nat, len: nat)
    requires h != [] && AllHex(h) && |h| % 2 == 0 && |h| <= 2 * len && bits == 8 * len
    ensures UintNumber("0x" + h, bits, len) == Some(HexValue(h))
  {
    HexTextIsItself(h);
    HexDecodeValue(h);
    PaddedValue(HexDecode(h).value, len);
  }

  /** The word of a hex numeral is its bytes, right-aligned. */
  lemma HexIsRightAligned(h: string, bits: nat, len: nat)
    requires h != [] && AllHex(h) && |h| % 2 == 0 && |h| <= 2 * len && bits == 8 * len && IsWidth(bits, len)
    ensures var b := HexDecode(h).value; UintField("0x" + h, bits, len) == Some(Zeros(len - |b|) + b)
  {
    var b := HexDecode(h).value;
    HexNumber(h, bits, len);
    HexDecodeValue(h);
    PaddedValue(b, len);
    UintAccepted("0x" + h, bits, len);
    ValueIsInjective(UintField("0x" + h, bits, len).value, Zeros(len - |b|) + b);
  }

  lemma AddressWord(h: string)
    requires |h| == 40 && AllHex(h)
    ensures EncodeKind(AddressKind, Text("0x" + h)) == Some(Lits(Zeros(12) + HexDecode(h).value))
  {
    HexTextIsItself(h);
  }

  lemma UintWordOfText(s: string, bits: nat, w: seq<Byte>)
    requires IsWidth(bits, 32) && Trim(s) == s && UintField(s, bits, 32) == Some(w)
    ensures EncodeKind(UintKind(bits), Text(s)) == Some(Lits(w))
  {
  }

  lemma AddressField(h: string, bits: nat, len: nat)
    requires |h| == 40 && AllHex(h) && bits == 8 * len && len == 32
    ensures UintField("0x" + h, bits, len) == Some(Zeros(12) + HexDecode(h).value)
  {
    assert len - |HexDecode(h).value| == 12;
    HexIsRightAligned(h, bits, len);
  }

  /** An address in hex is also a number, of the same word. */
  lemma AddressIsAlsoUint(h: string, bits: nat)
    requires |h| == 40 && AllHex(h) && bits == 256
    ensures EncodeKind(UintKind(bits), Text("0x" + h)) == Some(Lits(Zeros(12) + HexDecode(h).value))
  {
    HexTextIsItself(h);
    AddressField(h, bits, 32);
    UintWordOfText("0x" + h, bits, Zeros(12) + HexDecode(h).value);
  }

  lemma AddressNumber(h: string, bits: nat)
    requires |h| == 40 && AllHex(h) && bits == 256
    ensures KindMeaning(UintKind(bits), Text("0x" + h)) == Some(AUint(HexValue(h)))
  {
    HexTextIsItself(h);
    HexNumber(h, bits, 32);
  }

  const UINT: string := "uint"
  const ADDRESS: string := "address"

  predicate IsUintOrAddress(ty: string) {
    ty == UINT || ty == ADDRESS
  }

  lemma AtomIsPlain(ty: string)
    requires IsUintOrAddress(ty)
    ensures ArrayInner(ty).None? && BaseType(ty) == ty
  {
    BaseOfIdentifier(ty);
  }

  lemma UintKindOf()
    ensures AtomicKind(UINT) == Some(UintKind(256))
  {
    assert UINT[4..] == [] && UINT[..4] == "uint";
  }

  lemma AddressKindOf()
    ensures AtomicKind(ADDRESS) == Some(AddressKind)
  {
  }

  /** Under either type an address in hex has one word; its meaning says which type it was read as. */
  lemma AtomOfAddress(types: Types, ty: string, h: string)
    requires IsUintOrAddress(ty) && ty !in types && |h| == 40 && AllHex(h)
    ensures EncodeField(types, ty, Text("0x" + h)) == Some(Lits(Zeros(12) + HexDecode(h).value))
    ensures FieldMeaning(types, ty, Text("0x" + h)) ==
            Some(if ty == UINT then AUint(HexValue(h)) else AnAddress(HexDecode(h).value))
  {
    AtomIsPlain(ty);
    UintKindOf();
    AddressKindOf();
    AddressWord(h);
    AddressIsAlsoUint(h, 256);
    AddressNumber(h, 256);
    AddressMeaning(h);
  }

  lemma AddressMeaning(h: string)
    requires |h| == 40 && AllHex(h)
    ensures KindMeaning(AddressKind, Text("0x" + h)) == Some(AnAddress(HexDecode(h).value))
  {
    HexTextIsItself(h);
  }

  /** A struct of two such fields, each holding the address. */
  lemma TwoFieldStruct(types: Types, n: string, v: Json, h: string)
    requires n in types && UINT !in types && ADDRESS !in types && |types[n]| == 2 && v.Object?
    requires forall i :: 0 <= i < 2 ==> IsUintOrAddress(types[n][i].ty)
    requires forall i :: 0 <= i < 2 ==> types[n][i].name in v.fields && v.fields[types[n][i].name] == Text("0x" + h)
    requires |h| == 40 && AllHex(h)
    ensures var w := Lits(Zeros(12) + HexDecode(h).value);
            && EncodeFields(types, types[n], v, 0) == Some(w + (w + []))
            && ReadsAs(FieldMeanings(types, types[n], v, 0), types[n][1].ty)
  {
    AtomOfAddress(types, types[n][0].ty, h);
    AtomOfAddress(types, types[n][1].ty, h);
    assert EncodeFields(types, types[n], v, 2) == Some([]) && FieldMeanings(types, types[n], v, 2) == Some([]);
    assert EncodeFields(types, types[n], v, 1).Some? && FieldMeanings(types, types[n], v, 1).Some?;
  }

  /** Type definitions with one struct, and a value that gives both its fields the same address. */
  function One(n: string, fields: seq<Field>): Types {
    map[n := fields]
  }

  function Both(fields: seq<Field>, h: string): Json
    requires |fields| == 2
  {
    Object(map[fields[0].name := Text("0x" + h), fields[1].name := Text("0x" + h)])
  }

  function OneTypeText(n: string, fields: seq<Field>): string {
    n + "(" + FieldsText(fields) + ")"
  }

  lemma OneText(n: string, fields: seq<Field>)
    requires !IsUintOrAddress(n) && forall i :: 0 <= i < |fields| ==> IsUintOrAddress(fields[i].ty)
    ensures EncodeType(One(n, fields), n) == Some(OneTypeText(n, fields))
  {
    var t: Types := One(n, fields);
    forall i | 0 <= i < |t[n]|
      ensures BaseType(t[n][i].ty) !in t
    {
      AtomIsPlain(fields[i].ty);
    }
    LonelyText(t, n);
  }

  lemma OneHash(n: string, fields: seq<Field>, v: Json, text: string, enc: seq<Sym>)
    requires v.Object? && EncodeType(One(n, fields), n) == Some(text)
    requires EncodeFields(One(n, fields), fields, v, 0) == Some(enc)
    ensures HashStruct(One(n, fields), n, v) == Some(Keccak(TypeHash(text) + enc))
  {
  }

  /** Two fields were read, the second one as its type says. */
  predicate ReadsAs(m: Option<seq<Meaning>>, second: string) {
    m.Some? && |m.value| == 2 && m.value[1].AUint? == (second == UINT)
  }

  /** The hash and the reading of such a value. */
  lemma OneStruct(n: string, fields: seq<Field>, h: string)
    requires !IsUintOrAddress(n) && |fields| == 2 && IsUintOrAddress(fields[0].ty) && IsUintOrAddress(fields[1].ty)
    requires |h| == 40 && AllHex(h)
    ensures var w := Lits(Zeros(12) + HexDecode(h).value);
            HashStruct(One(n, fields), n, Both(fields, h))
            == Some(Keccak(TypeHash(OneTypeText(n, fields)) + (w + (w + []))))
    ensures ReadsAs(FieldMeanings(One(n, fields), fields, Both(fields, h), 0), fields[1].ty)
  {
    var w := Lits(Zeros(12) + HexDecode(h).value);
    OneText(n, fields);
    TwoFieldStruct(One(n, fields), n, Both(fields, h), h);
    OneHash(n, fields, Both(fields, h), OneTypeText(n, fields), w + (w + []));
  }

  /** Names that hold a comma let two types share a text, and then one struct hash stands for a number and
      for an address: for all names `a`, `b`, `c` of the fields and `n` of the struct, and every address. */
  lemma CommasCollide(a: string, b: string, c: string, n: string, h: string)
    requires !IsUintOrAddress(n) && |h| == 40 && AllHex(h)
    ensures var x, y, z := Field(a, UINT), Field(b, ADDRESS), Field(c, UINT);
            var f, g := RunsOnEarly(x, y, z), RunsOnLate(x, y, z);
            && HashStruct(One(n, f), n, Both(f, h)).Some?
            && HashStruct(One(n, f), n, Both(f, h)) == HashStruct(One(n, g), n, Both(g, h))
            && StructMeaning(One(n, f), n, Both(f, h)) != StructMeaning(One(n, g), n, Both(g, h))
  {
    var x, y, z := Field(a, UINT), Field(b, ADDRESS), Field(c, UINT);
    var f, g := RunsOnEarly(x, y, z), RunsOnLate(x, y, z);
    RunningOnSharesAText(x, y, z);
    OneStruct(n, f, h);
    OneStruct(n, g, h);
    assert UINT != ADDRESS;
  }
}
