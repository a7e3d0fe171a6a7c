/** The EIP-712 digest with a symbolic hash, sections "Definition of hashStruct" and "Definition of
    encodeData". A byte string that may contain digests is a sequence of symbols; a digest is a
    symbol that carries its preimage, so two digests are equal exactly when their preimages are. */
module TypedData {
  import opened Options
  import opened Words
  import opened Numerals
  import opened Integers
  import opened Json
  import opened TypeGraph
  import Utf8

  // ---- symbolic bytes ----

  datatype Sym = Lit(b: Byte) | Digest(pre: seq<Sym>)

  /** The 32 bytes of a hash, as one symbol. */
  function Keccak(pre: seq<Sym>): seq<Sym> {
    [Digest(pre)]
  }

  function Lits(bs: seq<Byte>): (r: seq<Sym>)
    ensures |r| == |bs| && forall i :: 0 <= i < |bs| ==> r[i] == Lit(bs[i])
  {
    seq(|bs|, i requires 0 <= i < |bs| => Lit(bs[i]))
  }

  lemma LitsIsInjective(a: seq<Byte>, b: seq<Byte>)
    requires Lits(a) == Lits(b)
    ensures a == b
  {
    assert |a| == |Lits(a)| == |b|;
    forall i | 0 <= i < |a|
      ensures a[i] == b[i]
    {
      assert Lits(a)[i] == Lit(a[i]) && Lits(b)[i] == Lit(b[i]);
    }
  }

  /** A 32-byte word: a digest, or 32 literal bytes. */
  predicate IsWord(w: seq<Sym>) {
    (|w| == 1 && w[0].Digest?) || (|w| == 32 && forall i :: 0 <= i < 32 ==> w[i].Lit?)
  }

  /** A sequence of words reads back in only one way. */
  lemma WordCancel(v: seq<Sym>, s: seq<Sym>, w: seq<Sym>, t: seq<Sym>)
    requires IsWord(v) && IsWord(w) && v + s == w + t
    ensures v == w && s == t
  {
    assert (v + s)[0] == v[0] && (w + t)[0] == w[0];
    assert |v| == |w|;
    assert (v + s)[..|v|] == v && (w + t)[..|w|] == w;
    assert (v + s)[|v|..] == s && (w + t)[|w|..] == t;
  }

  // ---- type names ----

  function LastOpen(t: string): Option<nat> {
    if t == [] then None
    else if t[|t| - 1] == '[' then Some(|t| - 1)
    else LastOpen(t[..|t| - 1])
  }

  lemma LastOpenIsIndex(t: string)
    ensures LastOpen(t).Some? ==> LastOpen(t).value < |t| && t[LastOpen(t).value] == '['
  {
  }

  /** Strip exactly the last array dimension; `None` when the type is not an array. */
  function ArrayInner(t: string): Option<string> {
    LastOpenIsIndex(t);
    if t != [] && t[|t| - 1] == ']' && LastOpen(t).Some? then Some(t[..LastOpen(t).value]) else None
  }

  /** Decimal digits without a leading zero. */
  predicate Canonical(s: string) {
    AllDigits(s) && !(|s| > 1 && s[0] == '0')
  }

  const USIZE_MAX: nat := 0xFFFF_FFFF_FFFF_FFFF

  /** The declared length of an array type: `Some(None)` for `T[]`, `None` when malformed. */
  function ArrayFixedLen(t: string): Option<Option<nat>>
    requires ArrayInner(t).Some?
  {
    LastOpenIsIndex(t);
    var inner := t[LastOpen(t).value + 1..|t| - 1];
    if inner == [] then Some(None)
    else if !Canonical(inner) || DecimalValue(inner) > USIZE_MAX || DecimalValue(inner) == 0 then None
    else Some(Some(DecimalValue(inner)))
  }

  /** The array has the length its type declares. */
  predicate LengthAgrees(t: string, n: nat)
    requires ArrayInner(t).Some?
  {
    var fixed := ArrayFixedLen(t);
    fixed.Some? && (fixed.value.Some? ==> fixed.value.value == n)
  }

  datatype Kind =
    | StringKind | BytesKind | BoolKind | AddressKind
    | UintKind(bits: nat) | IntKind(bits: nat) | FixedBytesKind(n: nat)

  function IntBits(suffix: string): (r: Option<nat>)
    ensures r.Some? ==> IsWidth(r.value, 32)
  {
    if suffix == [] then Some(256)
    else if !Canonical(suffix) then None
    else if IsWidth(DecimalValue(suffix), 32) then Some(DecimalValue(suffix)) else None
  }

  /** The atomic types the encoder supports. */
  function AtomicKind(ty: string): (k: Option<Kind>)
    ensures k.Some? && (k.value.UintKind? || k.value.IntKind?) ==> IsWidth(k.value.bits, 32)
    ensures k.Some? && k.value.FixedBytesKind? ==> 1 <= k.value.n <= 32
  {
    if ty == "string" then Some(StringKind)
    else if ty == "bytes" then Some(BytesKind)
    else if ty == "bool" then Some(BoolKind)
    else if ty == "address" then Some(AddressKind)
    else if StartsWith(ty, "uint") then
      var bits := IntBits(ty[4..]);
      if bits.Some? then Some(UintKind(bits.value)) else None
    else if StartsWith(ty, "int") then
      var bits := IntBits(ty[3..]);
      if bits.Some? then Some(IntKind(bits.value)) else None
    else if StartsWith(ty, "bytes") then
      var n := ty[5..];
      if n != [] && Canonical(n) && 1 <= DecimalValue(n) <= 32 then Some(FixedBytesKind(DecimalValue(n))) else None
    else None
  }

  // ---- the encoder ----

  /** A hex string with an optional prefix, decoded; `None` when malformed or not a string. */
  function HexBytes(v: Json): Option<seq<Byte>> {
    match v
    case Text(s) => HexDecode(if IsHexText(s) then s[2..] else s)
    case _ => None
  }

  function Zeros(n: nat): (r: seq<Byte>)
    ensures |r| == n
  {
    seq(n, _ => 0)
  }

  function EncodeKind(k: Kind, v: Json): (r: Option<seq<Sym>>)
    requires k.UintKind? || k.IntKind? ==> IsWidth(k.bits, 32)
    requires k.FixedBytesKind? ==> k.n <= 32
    ensures r.Some? ==> IsWord(r.value)
  {
    match k
    case StringKind =>
      if v.Text? then Some(Keccak(Lits(Utf8.Encode(v.s)))) else None
    case BytesKind =>
      var b := HexBytes(v);
      if b.Some? then Some(Keccak(Lits(b.value))) else None
    case BoolKind =>
      if v.Bool? then Some(Lits(Zeros(31) + [if v.b then 1 else 0])) else None
    case AddressKind =>
      var b := HexBytes(v);
      if b.Some? && |b.value| == 20 then Some(Lits(Zeros(12) + b.value)) else None
    case UintKind(bits) =>
      var s := IntegerText(v);
      var w := if s.Some? then UintField(s.value, bits, 32) else None;
      if w.Some? then Some(Lits(w.value)) else None
    case IntKind(bits) =>
      var s := IntegerText(v);
      var w := if s.Some? then IntField(s.value, bits, 32) else None;
      if w.Some? then Some(Lits(w.value)) else None
    case FixedBytesKind(n) =>
      var b := HexBytes(v);
      if b.Some? && |b.value| <= n then Some(Lits(b.value + Zeros(32 - |b.value|))) else None
  }

  function EncodeAtomic(ty: string, v: Json): (r: Option<seq<Sym>>)
    ensures r.Some? ==> IsWord(r.value)
  {
    var k := AtomicKind(ty);
    if k.Some? then EncodeKind(k.value, v) else None
  }

  /** One field's word. The mutual recursion descends the JSON value, so it ends even on struct types
      that refer to themselves. */
  ghost function EncodeField(types: Types, ty: string, v: Json): (r: Option<seq<Sym>>)
    ensures r.Some? ==> IsWord(r.value)
    decreases v, 3, 0
  {
    var inner := ArrayInner(ty);
    if inner.Some? then
      if v.Array? && LengthAgrees(ty, |v.items|) then
        var buf := EncodeItems(types, inner.value, v, 0);
        if buf.Some? then Some(Keccak(buf.value)) else None
      else None
    else if ty in types then HashStruct(types, ty, v)
    else EncodeAtomic(ty, v)
  }

  ghost function EncodeItems(types: Types, inner: string, v: Json, i: nat): (r: Option<seq<Sym>>)
    requires v.Array? && i <= |v.items|
    decreases v, 1, |v.items| - i
  {
    if i == |v.items| then Some([])
    else
      var first, rest := EncodeField(types, inner, v.items[i]), EncodeItems(types, inner, v, i + 1);
      if first.Some? && rest.Some? then Some(first.value + rest.value) else None
  }

  ghost function HashStruct(types: Types, name: string, v: Json): (r: Option<seq<Sym>>)
    ensures r.Some? ==> IsWord(r.value)
    decreases v, 2, 0
  {
    var text := EncodeType(types, name);
    if text.None? || !v.Object? then None
    else
      var enc := EncodeFields(types, types[name], v, 0);
      if enc.Some? then Some(Keccak(TypeHash(text.value) + enc.value)) else None
  }

  function TypeHash(text: string): seq<Sym> {
    Keccak(Lits(Utf8.Encode(text)))
  }

  ghost function EncodeFields(types: Types, fields: seq<Field>, v: Json, i: nat): (r: Option<seq<Sym>>)
    requires v.Object? && i <= |fields|
    decreases v, 1, |fields| - i
  {
    if i == |fields| then Some([])
    else if fields[i].name !in v.fields then None
    else
      var first := EncodeField(types, fields[i].ty, v.fields[fields[i].name]);
      var rest := EncodeFields(types, fields, v, i + 1);
      if first.Some? && rest.Some? then Some(first.value + rest.value) else None
  }

  // ---- what a value means ----

  /** The decoded value a field stands for, whatever JSON spells it. */
  datatype Meaning =
    | AString(s: string)
    | SomeBytes(bs: seq<Byte>)
    | ABool(b: bool)
    | AnAddress(bs: seq<Byte>)
    | AUint(n: nat)
    | AnInt(z: int)
    | FixedBytes(padded: seq<Byte>)
    | AnArray(items: seq<Meaning>)
    | AStruct(fields: seq<Meaning>)

  function KindMeaning(k: Kind, v: Json): Option<Meaning>
    requires k.UintKind? || k.IntKind? ==> IsWidth(k.bits, 32)
    requires k.FixedBytesKind? ==> k.n <= 32
  {
    match k
    case StringKind => if v.Text? then Some(AString(v.s)) else None
    case BytesKind => if HexBytes(v).Some? then Some(SomeBytes(HexBytes(v).value)) else None
    case BoolKind => if v.Bool? then Some(ABool(v.b)) else None
    case AddressKind =>
      if HexBytes(v).Some? && |HexBytes(v).value| == 20 then Some(AnAddress(HexBytes(v).value)) else None
    case UintKind(bits) =>
      var s := IntegerText(v);
      var n := if s.Some? then UintNumber(s.value, bits, 32) else None;
      if n.Some? then Some(AUint(n.value)) else None
    case IntKind(bits) =>
      var s := IntegerText(v);
      var z := if s.Some? then IntNumber(s.value, bits, 32) else None;
      if z.Some? then Some(AnInt(z.value)) else None
    case FixedBytesKind(n) =>
      if HexBytes(v).Some? && |HexBytes(v).value| <= n
      then Some(FixedBytes(HexBytes(v).value + Zeros(32 - |HexBytes(v).value|))) else None
  }

  function FieldMeaning(types: Types, ty: string, v: Json): Option<Meaning>
    decreases v, 3, 0
  {
    var inner := ArrayInner(ty);
    if inner.Some? then
      if v.Array? && LengthAgrees(ty, |v.items|) then
        var items := ItemMeanings(types, inner.value, v, 0);
        if items.Some? then Some(AnArray(items.value)) else None
      else None
    else if ty in types then StructMeaning(types, ty, v)
    else
      var k := AtomicKind(ty);
      if k.Some? then KindMeaning(k.value, v) else None
  }

  function ItemMeanings(types: Types, inner: string, v: Json, i: nat): Option<seq<Meaning>>
    requires v.Array? && i <= |v.items|
    decreases v, 1, |v.items| - i
  {
    if i == |v.items| then Some([])
    else
      var first, rest := FieldMeaning(types, inner, v.items[i]), ItemMeanings(types, inner, v, i + 1);
      if first.Some? && rest.Some? then Some([first.value] + rest.value) else None
  }

  function StructMeaning(types: Types, name: string, v: Json): Option<Meaning>
    decreases v, 2, 0
  {
    if name !in types || !v.Object? then None
    else
      var fields := FieldMeanings(types, types[name], v, 0);
      if fields.Some? then Some(AStruct(fields.value)) else None
  }

  /** Only declared fields count; a member the type does not declare is not looked at. */
  function FieldMeanings(types: Types, fields: seq<Field>, v: Json, i: nat): Option<seq<Meaning>>
    requires v.Object? && i <= |fields|
    decreases v, 1, |fields| - i
  {
    if i == |fields| then Some([])
    else if fields[i].name !in v.fields then None
    else
      var first := FieldMeaning(types, fields[i].ty, v.fields[fields[i].name]);
      var rest := FieldMeanings(types, fields, v, i + 1);
      if first.Some? && rest.Some? then Some([first.value] + rest.value) else None
  }
}
