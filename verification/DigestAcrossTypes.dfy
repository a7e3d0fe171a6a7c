/** Digests of documents that declare their own types. With identifier-shaped names equal digests come
    from the same reachable types and the same meanings; without them they need not. */
module DigestAcrossTypes {
  import opened Json
  import opened TypeGraph
  import opened TypeText
  import opened TypedData
  import opened DigestFaithful

  // ---- what is encoded depends on the reachable types only ----

  lemma {:induction false} BaseOfPrefix(t: string, k: nat)
    requires k < |t| && t[k] == '['
    ensures BaseType(t[..k]) == BaseType(t)
  {
    if t[0] != '[' {
      BaseOfPrefix(t[1..], k - 1);
      assert t[..k][1..] == t[1..][..k - 1];
    }
  }

  lemma BaseOfInner(ty: string)
    requires ArrayInner(ty).Some?
    ensures BaseType(ArrayInner(ty).value) == BaseType(ty)
  {
    LastOpenIsIndex(ty);
    BaseOfPrefix(ty, LastOpen(ty).value);
  }

  lemma {:induction false} BaseOfIdentifier(s: string)
    requires IsIdentifier(s)
    ensures BaseType(s) == s
  {
    if s != [] {
      BaseOfIdentifier(s[1..]);
      assert s == [s[0]] + s[1..];
    }
  }

  /** Both sets of definitions agree on `shared`, and neither leads out of it. */
  ghost predicate Shared(t: Types, u: Types, shared: set<string>) {
    && (forall n :: n in shared ==> n in t && n in u && t[n] == u[n])
    && (forall n, i :: n in shared && n in t && 0 <= i < |t[n]| ==> Inside(t, u, shared, t[n][i].ty))
  }

  /** If the type refers to a struct at all, then to a shared one. */
  predicate Inside(t: Types, u: Types, shared: set<string>, ty: string) {
    BaseType(ty) in t || BaseType(ty) in u ==> BaseType(ty) in shared
  }

  lemma SharedFromReach(t: Types, u: Types, p: string)
    requires AgreeWhereReached(t, u, p) && Deps(t, p) == Deps(u, p)
    ensures Shared(t, u, Deps(t, p))
  {
    var d := Deps(t, p);
    forall n, i | n in d && n in t && 0 <= i < |t[n]|
      ensures Inside(t, u, d, t[n][i].ty)
    {
      StaysInside(t, p, n, i);
      StaysInside(u, p, n, i);
    }
  }

  lemma StaysInside(t: Types, p: string, n: string, i: nat)
    requires n in Deps(t, p) && i < |t[n]|
    ensures BaseType(t[n][i].ty) in t ==> BaseType(t[n][i].ty) in Deps(t, p)
  {
    var base := BaseType(t[n][i].ty);
    if base in t {
      assert Refers(t, n, base);
      ReachesOneMore(t, p, n, base);
    }
  }

  lemma ReachesOneMore(t: Types, a: string, b: string, c: string)
    requires Reachable(t, a, b) && Refers(t, b, c)
    ensures Reachable(t, a, c)
  {
    var p :| IsPath(t, p) && p[0] == a && p[|p| - 1] == b;
    var q := p + [c];
    forall i | 0 < i < |q|
      ensures Refers(t, q[i - 1], q[i])
    {
      if i < |p| {
        assert q[i - 1] == p[i - 1] && q[i] == p[i];
      }
    }
    assert IsPath(t, q) && q[|q| - 1] == c;
  }

  /** A shared type is described alike. */
  lemma SharedText(t: Types, u: Types, shared: set<string>, n: string)
    requires Shared(t, u, shared) && n in shared
    ensures EncodeType(t, n) == EncodeType(u, n)
  {
    forall m | m in Deps(t, n) + Deps(u, n)
      ensures m in shared
    {
      if m in Deps(t, n) {
        ReachIsShared(t, u, shared, n, m);
      } else {
        SharedBothWays(t, u, shared);
        ReachIsShared(u, t, shared, n, m);
      }
    }
    EncodeTypeIgnoresUnreachable(t, u, n);
  }

  lemma SharedBothWays(t: Types, u: Types, shared: set<string>)
    requires Shared(t, u, shared)
    ensures Shared(u, t, shared)
  {
    forall n, i | n in shared && n in u && 0 <= i < |u[n]|
      ensures Inside(u, t, shared, u[n][i].ty)
    {
      assert Inside(t, u, shared, t[n][i].ty);
    }
  }

  lemma ReachIsShared(t: Types, u: Types, shared: set<string>, n: string, m: string)
    requires Shared(t, u, shared) && n in shared && m in Deps(t, n)
    ensures m in shared
  {
    var p :| IsPath(t, p) && p[0] == n && p[|p| - 1] == m;
    forall a, b | a in shared && Refers(t, a, b)
      ensures b in shared
    {
      var i :| 0 <= i < |t[a]| && BaseType(t[a][i].ty) == b;
      assert Inside(t, u, shared, t[a][i].ty);
    }
    ClosedHoldsPaths(t, shared, p);
  }

  /** A field's word and its meaning are the same under either set of definitions. */
  lemma {:induction false} FieldAgrees(t: Types, u: Types, shared: set<string>, ty: string, v: Json)
    requires Shared(t, u, shared) && WellNamed(t) && WellNamed(u) && Inside(t, u, shared, ty)
    ensures EncodeField(t, ty, v) == EncodeField(u, ty, v) && FieldMeaning(t, ty, v) == FieldMeaning(u, ty, v)
    decreases v, 3, 0
  {
    var inner := ArrayInner(ty);
    if inner.Some? {
      BaseOfInner(ty);
      if v.Array? {
        ItemsAgree(t, u, shared, inner.value, v, 0);
      }
    } else if ty in t || ty in u {
      BaseOfIdentifier(ty);
      StructAgrees(t, u, shared, ty, v);
    }
  }

  lemma {:induction false} ItemsAgree(t: Types, u: Types, shared: set<string>, inner: string, v: Json, i: nat)
    requires Shared(t, u, shared) && WellNamed(t) && WellNamed(u) && Inside(t, u, shared, inner)
    requires v.Array? && i <= |v.items|
    ensures EncodeItems(t, inner, v, i) == EncodeItems(u, inner, v, i)
    ensures ItemMeanings(t, inner, v, i) == ItemMeanings(u, inner, v, i)
    decreases v, 1, |v.items| - i
  {
    if i < |v.items| {
      FieldAgrees(t, u, shared, inner, v.items[i]);
      ItemsAgree(t, u, shared, inner, v, i + 1);
    }
  }

  lemma {:induction false} StructAgrees(t: Types, u: Types, shared: set<string>, name: string, v: Json)
    requires Shared(t, u, shared) && WellNamed(t) && WellNamed(u) && name in shared
    ensures HashStruct(t, name, v) == HashStruct(u, name, v) && StructMeaning(t, name, v) == StructMeaning(u, name, v)
    decreases v, 2, 0
  {
    SharedText(t, u, shared, name);
    if v.Object? {
      FieldsAgree(t, u, shared, name, v, 0);
    }
  }

  lemma {:induction false} FieldsAgree(t: Types, u: Types, shared: set<string>, name: string, v: Json, i: nat)
    requires Shared(t, u, shared) && WellNamed(t) && WellNamed(u) && name in shared && v.Object? && i <= |t[name]|
    ensures EncodeFields(t, t[name], v, i) == EncodeFields(u, t[name], v, i)
    ensures FieldMeanings(t, t[name], v, i) == FieldMeanings(u, t[name], v, i)
    decreases v, 1, |t[name]| - i
  {
    if i < |t[name]| {
      var f := t[name][i];
      if f.name in v.fields {
        FieldAgrees(t, u, shared, f.ty, v.fields[f.name]);
      }
      FieldsAgree(t, u, shared, name, v, i + 1);
    }
  }

  // ---- the theorem ----

  /** Struct hashes under two sets of definitions: equal exactly when the types are described alike and
      the values mean the same. */
  lemma StructAcrossTypes(t: Types, n: string, v: Json, u: Types, m: string, w: Json)
    requires WellNamed(t) && WellNamed(u) && HashStruct(t, n, v).Some? && HashStruct(u, m, w).Some?
    ensures HashStruct(t, n, v) == HashStruct(u, m, w) <==>
            EncodeType(t, n) == EncodeType(u, m) && StructMeaning(t, n, v) == StructMeaning(u, m, w)
    ensures EncodeType(t, n) == EncodeType(u, m) ==> n == m && Deps(t, n) == Deps(u, n) && AgreeWhereReached(t, u, n)
  {
    if HashStruct(t, n, v) == HashStruct(u, m, w) {
      StructHashBindsType(t, n, v, u, m, w);
    }
    if EncodeType(t, n) == EncodeType(u, m) {
      EncodeTypeIsInjective(t, n, u, m);
      ReachesItself(t, n);
      SharedFromReach(t, u, n);
      StructAgrees(t, u, Deps(t, n), n, w);
      StructFaithful(t, n, v, w);
    }
  }

  /** Two documents, each with its own well-named types: the digests are equal if and only if domain and
      message are of types described alike and mean the same, at every depth. */
  lemma DigestsAcrossTypes(v: Json, w: Json)
    requires IsTypedData(v) && IsTypedData(w) && WellNamed(TypesOf(v)) && WellNamed(TypesOf(w))
    ensures TypedDataDigest(v).Some? && TypedDataDigest(w).Some? ==>
              (TypedDataDigest(v) == TypedDataDigest(w) <==>
               && EncodeType(TypesOf(v), "EIP712Domain") == EncodeType(TypesOf(w), "EIP712Domain")
               && EncodeType(TypesOf(v), PrimaryOf(v)) == EncodeType(TypesOf(w), PrimaryOf(w))
               && DomainMeaning(v) == DomainMeaning(w) && MessageMeaning(v) == MessageMeaning(w))
  {
    if TypedDataDigest(v).Some? && TypedDataDigest(w).Some? {
      var t, u := TypesOf(v), TypesOf(w);
      StructAcrossTypes(t, "EIP712Domain", v.fields["domain"], u, "EIP712Domain", w.fields["domain"]);
      StructAcrossTypes(t, PrimaryOf(v), v.fields["message"], u, PrimaryOf(w), w.fields["message"]);
      if TypedDataDigest(v) == TypedDataDigest(w) {
        DigestSplits(v, w);
      }
    }
  }

  function PrimaryOf(v: Json): string
    requires IsTypedData(v)
  {
    v.fields["primaryType"].s
  }

  /** And then the primary types and all the definitions they reach are the same. */
  lemma DigestFixesTypes(v: Json, w: Json)
    requires IsTypedData(v) && IsTypedData(w) && WellNamed(TypesOf(v)) && WellNamed(TypesOf(w))
    requires TypedDataDigest(v).Some? && TypedDataDigest(v) == TypedDataDigest(w)
    ensures PrimaryOf(v) == PrimaryOf(w) && AgreeWhereReached(TypesOf(v), TypesOf(w), PrimaryOf(v))
    ensures AgreeWhereReached(TypesOf(v), TypesOf(w), "EIP712Domain")
  {
    DigestBindsTypes(v, w);
    EncodeTypeIsInjective(TypesOf(v), "EIP712Domain", TypesOf(w), "EIP712Domain");
    EncodeTypeIsInjective(TypesOf(v), PrimaryOf(v), TypesOf(w), PrimaryOf(w));
  }
}
