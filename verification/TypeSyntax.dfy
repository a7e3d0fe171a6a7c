/** How types are written: array suffixes, the names of the atomic types, the JSON of a definition, and the
    text of `encodeType` on the shape of the standard's own example. */
module TypeSyntax {
  import opened Options
  import opened Numerals
  import opened Json
  import opened TypeGraph
  import opened TypeText
  import opened TypedData
  import opened DigestFaithful

  // ---- arrays ----

  lemma {:induction false} LastOpenAfter(t: string, d: string)
    requires '[' !in d
    ensures LastOpen(t + "[" + d) == Some(|t|)
    decreases |d|
  {
    var s := t + "[" + d;
    if d == [] {
      assert s[|s| - 1] == '[';
    } else {
      assert s[..|s| - 1] == t + "[" + d[..|d| - 1] && s[|s| - 1] == d[|d| - 1];
      LastOpenAfter(t, d[..|d| - 1]);
    }
  }

  /** `T[d]` is an array of `T`, whatever `T` is. */
  lemma ArrayOf(t: string, d: string)
    requires '[' !in d && ']' !in d
    ensures var s := t + "[" + d + "]";
            ArrayInner(s) == Some(t) && LastOpen(s) == Some(|t|) && s[|t| + 1..|s| - 1] == d
  {
    var s := t + "[" + d + "]";
    LastOpenAfter(t, d + "]");
    assert s == t + "[" + (d + "]");
    assert s[..|t|] == t;
  }

  /** `T[]` takes any number of items, `T[n]` exactly `n`, and `T[0]` none at all. */
  lemma ArrayLengths(t: string, n: nat, items: nat)
    requires n <= USIZE_MAX
    ensures ArrayInner(t + "[" + "]").Some? && LengthAgrees(t + "[" + "]", items)
    ensures ArrayInner(t + "[" + Show(n) + "]").Some?
    ensures LengthAgrees(t + "[" + Show(n) + "]", items) <==> n > 0 && items == n
  {
    ArrayOf(t, "");
    assert t + "[" + "" + "]" == t + "[" + "]";
    ArrayOf(t, Show(n));
    ShowIsCanonical(n);
  }

  lemma {:induction false} ShowIsCanonical(n: nat)
    ensures Canonical(Show(n)) && (Show(n)[0] == '0' <==> n == 0)
  {
    if n >= 10 {
      ShowIsCanonical(n / 10);
      assert Show(n)[0] == Show(n / 10)[0];
    }
  }

  // ---- atoms ----

  predicate IsByteWidth(bits: nat) {
    8 <= bits <= 256 && bits % 8 == 0
  }

  lemma AfterPrefix(p: string, rest: string)
    ensures StartsWith(p + rest, p) && (p + rest)[|p|..] == rest
  {
  }

  /** `uintN` and `intN` by their width in bits, without one 256. */
  lemma UintNames(bits: nat)
    ensures AtomicKind("uint" + Show(bits)) == (if IsByteWidth(bits) then Some(UintKind(bits)) else None)
    ensures AtomicKind("uint") == Some(UintKind(256))
  {
    var ty := "uint" + Show(bits);
    AfterPrefix("uint", Show(bits));
    AfterPrefix("uint", "");
    ShowIsCanonical(bits);
    assert ty[0] == 'u' && "uint" + "" == "uint";
  }

  lemma IntNames(bits: nat)
    ensures AtomicKind("int" + Show(bits)) == (if IsByteWidth(bits) then Some(IntKind(bits)) else None)
    ensures AtomicKind("int") == Some(IntKind(256))
  {
    var ty := "int" + Show(bits);
    AfterPrefix("int", Show(bits));
    AfterPrefix("int", "");
    ShowIsCanonical(bits);
    assert ty[0] == 'i' && ty[..4][0] == 'i' && "int" + "" == "int";
  }

  /** `bytesN` by its length, 1 to 32. */
  lemma BytesNames(n: nat)
    ensures AtomicKind("bytes" + Show(n)) == (if 1 <= n <= 32 then Some(FixedBytesKind(n)) else None)
  {
    var ty := "bytes" + Show(n);
    AfterPrefix("bytes", Show(n));
    ShowIsCanonical(n);
    assert ty[0] == 'b' && ty[1] == 'y' && |ty| > 5 && ty[..4][0] == 'b' && ty[..3][0] == 'b';
  }

  lemma OtherNames()
    ensures AtomicKind("string") == Some(StringKind) && AtomicKind("bytes") == Some(BytesKind)
    ensures AtomicKind("bool") == Some(BoolKind) && AtomicKind("address") == Some(AddressKind)
  {
  }

  // ---- definitions ----

  /** A definition is an array of objects; each gives a field its `name` and its `type`, in order. */
  lemma DefinitionsAreRead(v: Json, n: string, i: nat)
    requires ParseTypes(v).Some? && n in ParseTypes(v).value && i < |ParseTypes(v).value[n]|
    ensures v.Object? && n in v.fields && v.fields[n].Array?
    ensures |v.fields[n].items| == |ParseTypes(v).value[n]| && v.fields[n].items[i].Object?
    ensures var f := v.fields[n].items[i].fields;
            && "name" in f && f["name"] == Text(ParseTypes(v).value[n][i].name)
            && "type" in f && f["type"] == Text(ParseTypes(v).value[n][i].ty)
  {
  }

  // ---- the text ----

  /** A struct of three fields, two of them of a second struct of two, as in the standard's mail: the primary
      first, each type as `Name(type field,type field)`. */
  lemma MailText(types: Types, n: string, m: string, x: Field, y: Field, z: Field, a: Field, b: Field)
    requires types == map[n := [x, y, z], m := [a, b]] && n != m && BaseType(x.ty) == m && BaseType(y.ty) == m
    requires BaseType(z.ty) !in types && BaseType(a.ty) !in types && BaseType(b.ty) !in types
    ensures EncodeType(types, n) == Some(
              n + "(" + (x.ty + " " + x.name + "," + (y.ty + " " + y.name + "," + (z.ty + " " + z.name))) + ")"
              + (m + "(" + (a.ty + " " + a.name + "," + (b.ty + " " + b.name)) + ")"))
  {
    MailDeps(types, n, m, x, y, z, a, b);
    assert Deps(types, n) - {n} == {m};
    InOrderOne(m);
    TwoDescriptions(types, n, m);
    ThreeFields(x, y, z);
    TwoFields(a, b);
  }

  lemma TwoDescriptions(types: Types, n: string, m: string)
    requires n in types && m in types
    ensures DescribeAll(types, [n] + [m]) == Describe(types, n) + Describe(types, m)
  {
    DescribeAllCons(types, n, [m]);
    DescribeAllCons(types, m, []);
    assert [m] + [] == [m] && Describe(types, m) + [] == Describe(types, m);
  }

  lemma InOrderOne(m: string)
    ensures InOrder({m}) == [m]
  {
    AscendingIsUnique([m], {m});
  }

  lemma ThreeFields(x: Field, y: Field, z: Field)
    ensures FieldsText([x, y, z]) == FieldText(x) + "," + (FieldText(y) + "," + FieldText(z))
  {
    FieldsTextCons([x, y, z]);
    assert [x, y, z][1..] == [y, z];
    TwoFields(y, z);
  }

  lemma MailDeps(types: Types, n: string, m: string, x: Field, y: Field, z: Field, a: Field, b: Field)
    requires types == map[n := [x, y, z], m := [a, b]] && n != m && BaseType(x.ty) == m && BaseType(y.ty) == m
    requires BaseType(z.ty) !in types && BaseType(a.ty) !in types && BaseType(b.ty) !in types
    ensures Deps(types, n) == {n, m}
  {
    ReachesItself(types, n);
    ReachesItself(types, m);
    assert types[n][0] == x && Refers(types, n, m);
    ReachesThrough(types, n, m, m);
  }
}
