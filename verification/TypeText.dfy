/** Reading an `encodeType` text back: with identifier-shaped names it determines every type it
    describes. */
module TypeText {
  import opened TypeGraph

  predicate IsIdentifierChar(c: char) {
    '0' <= c <= '9' || 'a' <= c <= 'z' || 'A' <= c <= 'Z' || c == '_' || c == '$'
  }

  predicate IsIdentifier(s: string) {
    forall i :: 0 <= i < |s| ==> IsIdentifierChar(s[i])
  }

  /** A type as a field names it: an identifier and array suffixes. */
  predicate IsTypeText(s: string) {
    forall i :: 0 <= i < |s| ==> IsIdentifierChar(s[i]) || s[i] == '[' || s[i] == ']'
  }

  predicate IsField(f: Field) {
    IsIdentifier(f.name) && IsTypeText(f.ty)
  }

  predicate AreFields(fields: seq<Field>) {
    forall i :: 0 <= i < |fields| ==> IsField(fields[i])
  }

  /** Every name in the definitions is an identifier. */
  predicate WellNamed(types: Types) {
    forall n :: n in types ==> IsIdentifier(n) && AreFields(types[n])
  }

  /** Cutting at the first occurrence of a character that neither part before it holds. */
  lemma CutsAlike(a: string, x: string, b: string, y: string, c: char)
    requires a + [c] + x == b + [c] + y && c !in a && c !in b
    ensures a == b && x == y
  {
    var text := a + [c] + x;
    assert text[|a|] == c && text[|b|] == c;
    assert a == text[..|a|] && b == text[..|b|];
    assert x == text[|a| + 1..] && y == text[|b| + 1..];
  }

  // ---- fields ----

  function FieldText(f: Field): string {
    f.ty + " " + f.name
  }

  lemma FieldTextOf(fields: seq<Field>)
    requires fields != []
    ensures FieldTexts(fields)[0] == FieldText(fields[0]) && FieldTexts(fields)[1..] == FieldTexts(fields[1..])
    ensures |FieldTexts(fields)| == |fields|
  {
  }

  lemma FieldTextIsUnique(f: Field, g: Field)
    requires IsField(f) && IsField(g) && FieldText(f) == FieldText(g)
    ensures f == g
  {
    CutsAlike(f.ty, f.name, g.ty, g.name, ' ');
  }

  lemma FieldTextIsPlain(f: Field)
    requires IsField(f)
    ensures ',' !in FieldText(f) && ')' !in FieldText(f) && FieldText(f) != []
  {
    var text := FieldText(f);
    forall i | 0 <= i < |text|
      ensures text[i] != ',' && text[i] != ')'
    {
      assert text[i] == if i < |f.ty| then f.ty[i] else if i == |f.ty| then ' ' else f.name[i - |f.ty| - 1];
    }
  }

  function FieldsText(fields: seq<Field>): string {
    Join(FieldTexts(fields))
  }

  lemma FieldsTextCons(fields: seq<Field>)
    requires fields != []
    ensures FieldsText(fields) ==
            if |fields| == 1 then FieldText(fields[0]) else FieldText(fields[0]) + "," + FieldsText(fields[1..])
  {
    FieldTextOf(fields);
  }

  lemma TwoFields(f: Field, g: Field)
    ensures FieldsText([f, g]) == FieldText(f) + "," + FieldText(g)
  {
    FieldsTextCons([f, g]);
    FieldsTextCons([f, g][1..]);
  }

  lemma {:induction false} FieldsTextIsPlain(fields: seq<Field>)
    requires AreFields(fields)
    ensures ')' !in FieldsText(fields)
  {
    if fields != [] {
      FieldsTextCons(fields);
      FieldTextIsPlain(fields[0]);
      FieldsTextIsPlain(fields[1..]);
    }
  }

  lemma {:induction false} FieldsTextIsUnique(a: seq<Field>, b: seq<Field>)
    requires AreFields(a) && AreFields(b) && FieldsText(a) == FieldsText(b)
    ensures a == b
    decreases |a|
  {
    if a != [] {
      FieldsTextCons(a);
      FieldTextIsPlain(a[0]);
    }
    if b != [] {
      FieldsTextCons(b);
      FieldTextIsPlain(b[0]);
    }
    if a != [] && b != [] {
      FirstFieldIsUnique(a, b);
      if |a| > 1 {
        FieldsTextIsUnique(a[1..], b[1..]);
      }
      assert a == [a[0]] + a[1..] && b == [b[0]] + b[1..];
    }
  }

  /** A comma stands behind the first field exactly when more follow. */
  lemma FirstFieldIsUnique(a: seq<Field>, b: seq<Field>)
    requires a != [] && b != [] && IsField(a[0]) && IsField(b[0]) && FieldsText(a) == FieldsText(b)
    ensures a[0] == b[0] && (|a| > 1 <==> |b| > 1) && (|a| > 1 ==> FieldsText(a[1..]) == FieldsText(b[1..]))
  {
    FieldsTextCons(a);
    FieldsTextCons(b);
    FieldTextIsPlain(a[0]);
    FieldTextIsPlain(b[0]);
    if |a| > 1 && |b| > 1 {
      CutsAlike(FieldText(a[0]), FieldsText(a[1..]), FieldText(b[0]), FieldsText(b[1..]), ',');
    }
    FieldTextIsUnique(a[0], b[0]);
  }

  // ---- types ----

  /** One description: the name up to the parenthesis, the fields up to the closing one. */
  lemma DescribeIsUnique(t: Types, n: string, x: string, u: Types, m: string, y: string)
    requires WellNamed(t) && WellNamed(u) && n in t && m in u
    requires Describe(t, n) + x == Describe(u, m) + y
    ensures n == m && t[n] == u[m] && x == y
  {
    var f, g := FieldsText(t[n]), FieldsText(u[m]);
    assert Describe(t, n) + x == n + "(" + (f + ")" + x);
    assert Describe(u, m) + y == m + "(" + (g + ")" + y);
    CutsAlike(n, f + ")" + x, m, g + ")" + y, '(');
    FieldsTextIsPlain(t[n]);
    FieldsTextIsPlain(u[m]);
    CutsAlike(f, x, g, y, ')');
    FieldsTextIsUnique(t[n], u[m]);
  }

  lemma {:induction false} DescriptionsAreUnique(t: Types, a: seq<string>, u: Types, b: seq<string>)
    requires WellNamed(t) && WellNamed(u)
    requires (forall n :: n in a ==> n in t) && (forall n :: n in b ==> n in u)
    requires DescribeAll(t, a) == DescribeAll(u, b)
    ensures a == b && forall n :: n in a ==> t[n] == u[n]
    decreases |a|
  {
    if a != [] && b != [] {
      DescribeIsUnique(t, a[0], DescribeAll(t, a[1..]), u, b[0], DescribeAll(u, b[1..]));
      DescriptionsAreUnique(t, a[1..], u, b[1..]);
      assert a == [a[0]] + a[1..] && b == [b[0]] + b[1..];
    }
  }

  /** One text, one primary type, one set of reachable types, one definition for each. */
  lemma EncodeTypeIsInjective(t: Types, p: string, u: Types, q: string)
    requires WellNamed(t) && WellNamed(u) && p in t && q in u && EncodeType(t, p) == EncodeType(u, q)
    ensures p == q && Deps(t, p) == Deps(u, p) && AgreeWhereReached(t, u, p)
  {
    var d, e := Deps(t, p), Deps(u, q);
    ReachesItself(t, p);
    ReachesItself(u, q);
    var a, b := [p] + InOrder(d - {p}), [q] + InOrder(e - {q});
    DescriptionsAreUnique(t, a, u, b);
    assert a[0] == p && b[0] == q;
    assert forall n :: n in a <==> n in d;
    assert forall n :: n in b <==> n in e;
    assert d == e;
  }
}
