/** `encodeType` of EIP-712, section "Definition of encodeType": the struct types a primary type
    refers to, directly or not, and the string that describes them. */
module TypeGraph {
  import opened Options

  datatype Field = Field(name: string, ty: string)

  /** Struct type definitions: a type name to its fields, in order. */
  type Types = map<string, seq<Field>>

  /** Strip array suffixes: everything before the first `[`. */
  function BaseType(t: string): string {
    if t == [] || t[0] == '[' then [] else [t[0]] + BaseType(t[1..])
  }

  // ---- reachability ----

  /** Struct type `a` has a field whose base type is the struct type `b`. */
  ghost predicate Refers(types: Types, a: string, b: string) {
    a in types && b in types && exists i :: 0 <= i < |types[a]| && BaseType(types[a][i].ty) == b
  }

  ghost predicate IsPath(types: Types, p: seq<string>) {
    && p != [] && p[0] in types
    && forall i :: 0 < i < |p| ==> Refers(types, p[i - 1], p[i])
  }

  ghost predicate Reachable(types: Types, a: string, b: string) {
    exists p :: IsPath(types, p) && p[0] == a && p[|p| - 1] == b
  }

  /** The struct types reachable from `primary`, itself included. */
  ghost function Deps(types: Types, primary: string): set<string> {
    set n | n in types && Reachable(types, primary, n)
  }

  lemma ReachesItself(types: Types, a: string)
    requires a in types
    ensures Reachable(types, a, a)
  {
    assert IsPath(types, [a]);
  }

  lemma ReachesThrough(types: Types, a: string, b: string, c: string)
    requires Refers(types, a, b) && Reachable(types, b, c)
    ensures Reachable(types, a, c)
  {
    var p :| IsPath(types, p) && p[0] == b && p[|p| - 1] == c;
    var q := [a] + p;
    assert forall i :: 0 < i < |q| ==> q[i] == p[i - 1];
    forall i | 0 < i < |q|
      ensures Refers(types, q[i - 1], q[i])
    {
      if i > 1 {
        assert q[i - 1] == p[i - 2] && Refers(types, p[i - 1 - 1], p[i - 1]);
      }
    }
    assert IsPath(types, q);
  }

  /** A set that holds the start of a path and everything its members refer to holds its end. */
  lemma {:induction false} ClosedHoldsPaths(types: Types, closed: set<string>, p: seq<string>)
    requires IsPath(types, p) && p[0] in closed
    requires forall n, m :: n in closed && Refers(types, n, m) ==> m in closed
    ensures p[|p| - 1] in closed
    decreases |p|
  {
    if |p| > 1 {
      var q := p[..|p| - 1];
      assert forall i :: 0 < i < |q| ==> Refers(types, p[i - 1], p[i]) && q[i] == p[i];
      ClosedHoldsPaths(types, closed, q);
      assert Refers(types, p[|p| - 1 - 1], p[|p| - 1]);
    }
  }

  // ---- collect_deps ----

  /** Everything `out` gained over `deps` is reachable from `primary`, and whatever a gained type
      refers to is in `out`. */
  ghost predicate Explored(types: Types, primary: string, deps: set<string>, out: set<string>) {
    && deps <= out <= types.Keys
    && (forall n :: n in out && n !in deps ==> Reachable(types, primary, n))
    && (forall n, m :: n in out && n !in deps && Refers(types, n, m) ==> m in out)
  }

  /** The depth-first walk, which terminates on cyclic type graphs because every call that goes on
      adds a type to the visited set. */
  method CollectDeps(primary: string, types: Types, deps: set<string>) returns (out: set<string>)
    requires deps <= types.Keys
    ensures Explored(types, primary, deps, out)
    ensures primary in types ==> primary in out
    decreases types.Keys - deps
  {
    if primary in deps || primary !in types {
      return deps;
    }
    out := deps + {primary};
    ReachesItself(types, primary);
    var fields := types[primary];
    for i := 0 to |fields|
      invariant deps + {primary} <= out <= types.Keys
      invariant forall n :: n in out && n !in deps ==> Reachable(types, primary, n)
      invariant forall n, m :: n in out && n !in deps && n != primary && Refers(types, n, m) ==> m in out
      invariant forall j :: 0 <= j < i && BaseType(fields[j].ty) in types ==> BaseType(fields[j].ty) in out
    {
      var base := BaseType(fields[i].ty);
      if base in types {
        ghost var before := out;
        out := CollectDeps(base, types, out);
        assert Refers(types, primary, base);
        forall n | n in out && n !in deps
          ensures Reachable(types, primary, n)
        {
          if n !in before {
            ReachesThrough(types, primary, base, n);
          }
        }
      }
    }
  }

  /** From an empty visited set the walk yields exactly the reachable types. */
  lemma ExploredFromNothing(types: Types, primary: string, out: set<string>)
    requires Explored(types, primary, {}, out) && (primary in types ==> primary in out)
    ensures out == Deps(types, primary)
  {
    forall n | n in Deps(types, primary)
      ensures n in out
    {
      var p :| IsPath(types, p) && p[0] == primary && p[|p| - 1] == n;
      ClosedHoldsPaths(types, out, p);
    }
  }

  // ---- the order of a BTreeSet<String> ----

  /** Strings in the order of their UTF-8 bytes, which is the order of their code points. */
  predicate Below(a: string, b: string) {
    b != [] && (a == [] || a[0] < b[0] || (a[0] == b[0] && Below(a[1..], b[1..])))
  }

  lemma {:induction false} BelowIsTransitive(a: string, b: string, c: string)
    requires Below(a, b) && Below(b, c)
    ensures Below(a, c)
  {
    if a != [] && a[0] == b[0] == c[0] {
      BelowIsTransitive(a[1..], b[1..], c[1..]);
    }
  }

  lemma {:induction false} BelowIsTotal(a: string, b: string)
    ensures Below(a, b) || a == b || Below(b, a)
    ensures !(Below(a, b) && Below(b, a))
  {
    if a != [] && b != [] && a[0] == b[0] {
      BelowIsTotal(a[1..], b[1..]);
      assert a == [a[0]] + a[1..] && b == [b[0]] + b[1..];
    }
  }

  predicate IsLeast(m: string, s: set<string>) {
    m in s && forall x :: x in s && x != m ==> Below(m, x)
  }

  lemma {:induction false} LeastExists(s: set<string>)
    requires s != {}
    ensures exists m :: IsLeast(m, s)
    decreases |s|
  {
    var x :| x in s;
    var rest := s - {x};
    if rest == {} {
      assert s == {x};
      assert IsLeast(x, s);
      return;
    }
    LeastExists(rest);
    var m :| IsLeast(m, rest);
    BelowIsTotal(x, m);
    if Below(x, m) {
      forall y | y in s && y != x
        ensures Below(x, y)
      {
        if y != m {
          BelowIsTransitive(x, m, y);
        }
      }
      assert IsLeast(x, s);
    } else {
      assert IsLeast(m, s);
    }
  }

  lemma LeastIsUnique(m: string, n: string, s: set<string>)
    requires IsLeast(m, s) && IsLeast(n, s)
    ensures m == n
  {
    BelowIsTotal(m, n);
  }

  predicate Ascending(names: seq<string>) {
    forall i, j :: 0 <= i < j < |names| ==> Below(names[i], names[j])
  }

  /** The members of a set, in order: the iteration of a `BTreeSet`. */
  ghost function InOrder(s: set<string>): (names: seq<string>)
    ensures Ascending(names)
    ensures forall n :: n in names <==> n in s
    decreases |s|
  {
    if s == {} then []
    else
      var m := LeastOf(s);
      var rest := InOrder(s - {m});
      assert forall i :: 0 <= i < |rest| ==> rest[i] in s - {m} && Below(m, rest[i]);
      [m] + rest
  }

  ghost function LeastOf(s: set<string>): (m: string)
    requires s != {}
    ensures IsLeast(m, s)
  {
    LeastExists(s);
    var m :| IsLeast(m, s);
    m
  }

  /** There is only one way to list a set in order. */
  lemma {:induction false} AscendingIsUnique(names: seq<string>, s: set<string>)
    requires Ascending(names) && forall n :: n in names <==> n in s
    ensures names == InOrder(s)
    decreases |names|
  {
    if names == [] {
      assert s == {};
    } else {
      var m := names[0];
      assert forall n :: n in s && n != m ==> Below(m, n);
      LeastIsUnique(m, LeastOf(s), s);
      BelowIsTotal(m, m);
      assert forall n :: n in names[1..] <==> n in s - {m};
      AscendingIsUnique(names[1..], s - {m});
    }
  }

  // ---- encode_type ----

  function Join(parts: seq<string>): string {
    if parts == [] then [] else if |parts| == 1 then parts[0] else parts[0] + "," + Join(parts[1..])
  }

  function FieldTexts(fields: seq<Field>): seq<string> {
    seq(|fields|, i requires 0 <= i < |fields| => fields[i].ty + " " + fields[i].name)
  }

  /** `Name(type field,...)`. */
  function Describe(types: Types, name: string): string
    requires name in types
  {
    name + "(" + Join(FieldTexts(types[name])) + ")"
  }

  function DescribeAll(types: Types, names: seq<string>): string
    requires forall n :: n in names ==> n in types
  {
    if names == [] then [] else Describe(types, names[0]) + DescribeAll(types, names[1..])
  }

  /** The primary type first, then every other reachable struct type once, in order. */
  ghost function EncodeType(types: Types, primary: string): Option<string> {
    if primary !in types then None
    else Some(DescribeAll(types, [primary] + InOrder(Deps(types, primary) - {primary})))
  }

  lemma DescribeAllCons(types: Types, name: string, names: seq<string>)
    requires name in types && forall n :: n in names ==> n in types
    ensures DescribeAll(types, [name] + names) == Describe(types, name) + DescribeAll(types, names)
  {
    assert ([name] + names)[1..] == names;
  }

  lemma DescribeLeastFirst(types: Types, rest: set<string>, name: string, out: string)
    requires rest <= types.Keys && IsLeast(name, rest)
    ensures out + DescribeAll(types, InOrder(rest))
         == (out + Describe(types, name)) + DescribeAll(types, InOrder(rest - {name}))
  {
    LeastIsUnique(name, LeastOf(rest), rest);
    DescribeAllCons(types, name, InOrder(rest - {name}));
  }

  /** The writing loop over the ordered set. */
  method DescribeInOrder(types: Types, deps: set<string>) returns (out: string)
    requires deps <= types.Keys
    ensures out == DescribeAll(types, InOrder(deps))
  {
    out := [];
    var rest := deps;
    while rest != {}
      invariant rest <= deps
      invariant out + DescribeAll(types, InOrder(rest)) == DescribeAll(types, InOrder(deps))
      decreases |rest|
    {
      LeastExists(rest);
      var name :| name in rest && IsLeast(name, rest);
      DescribeLeastFirst(types, rest, name, out);
      out := out + Describe(types, name);
      rest := rest - {name};
    }
    assert out + [] == out;
  }

  method BuildEncodeType(primary: string, types: Types) returns (r: Option<string>)
    ensures r == EncodeType(types, primary)
  {
    var deps := CollectDeps(primary, types, {});
    ExploredFromNothing(types, primary, deps);
    if primary !in deps {
      return None;
    }
    var rest := DescribeInOrder(types, deps - {primary});
    DescribeAllCons(types, primary, InOrder(deps - {primary}));
    return Some(Describe(types, primary) + rest);
  }

  // ---- what the description depends on ----

  ghost predicate AgreeWhereReached(t: Types, u: Types, primary: string) {
    forall n :: n in Deps(t, primary) + Deps(u, primary) ==> n in t && n in u && t[n] == u[n]
  }

  lemma SameReferences(t: Types, u: Types, primary: string, p: seq<string>)
    requires AgreeWhereReached(t, u, primary)
    requires IsPath(t, p) && p[0] == primary
    ensures IsPath(u, p)
    decreases |p|
  {
    assert p[0] in t;
    ReachesItself(t, primary);
    forall i | 0 < i < |p|
      ensures Refers(u, p[i - 1], p[i])
    {
      Prefixes(t, primary, p, i - 1);
      Prefixes(t, primary, p, i);
      assert Refers(t, p[i - 1], p[i]);
    }
  }

  lemma Prefixes(t: Types, primary: string, p: seq<string>, i: nat)
    requires IsPath(t, p) && p[0] == primary && i < |p|
    ensures p[i] in Deps(t, primary)
  {
    PrefixIsPath(t, p, i + 1);
    var q := p[..i + 1];
    assert q[0] == primary && q[|q| - 1] == p[i];
    if i > 0 {
      assert Refers(t, p[i - 1], p[i]);
    }
  }

  lemma PrefixIsPath(t: Types, p: seq<string>, n: nat)
    requires IsPath(t, p) && 0 < n <= |p|
    ensures IsPath(t, p[..n])
  {
  }

  lemma SameDeps(t: Types, u: Types, primary: string)
    requires AgreeWhereReached(t, u, primary)
    ensures Deps(t, primary) <= Deps(u, primary)
  {
    forall n | n in Deps(t, primary)
      ensures n in Deps(u, primary)
    {
      var p :| IsPath(t, p) && p[0] == primary && p[|p| - 1] == n;
      SameReferences(t, u, primary, p);
    }
  }

  lemma {:induction false} SameDescriptions(t: Types, u: Types, names: seq<string>)
    requires forall n :: n in names ==> n in t && n in u && t[n] == u[n]
    ensures DescribeAll(t, names) == DescribeAll(u, names)
  {
    if names != [] {
      SameDescriptions(t, u, names[1..]);
    }
  }

  /** Two type sets that agree wherever the primary type reaches describe it alike: adding, editing
      or removing types it does not reach changes nothing. */
  lemma EncodeTypeIgnoresUnreachable(t: Types, u: Types, primary: string)
    requires primary in t <==> primary in u
    requires AgreeWhereReached(t, u, primary)
    ensures EncodeType(t, primary) == EncodeType(u, primary)
  {
    SameDeps(t, u, primary);
    SameDeps(u, t, primary);
    if primary in t {
      ReachesItself(t, primary);
      var deps := Deps(t, primary);
      assert deps == Deps(u, primary);
      SameDescriptions(t, u, [primary] + InOrder(deps - {primary}));
    }
  }
}
