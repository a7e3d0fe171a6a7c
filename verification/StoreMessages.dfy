/** A store message names one tuple whatever its ciphertext holds. The contract never requires the
    ciphertext to be colon-free; what settles the boundary is that the access condition, standing last,
    is JSON, and no JSON text of a condition has another one behind `:account:vault:` inside it. */
module StoreMessages {
  import opened Options
  import opened Numerals
  import opened WalletKeys
  import opened Messages
  import opened PrintedJson

  predicate IsUpper(c: char) {
    'A' <= c <= 'Z'
  }

  predicate IsTag(s: string) {
    s != [] && IsUpper(s[0])
  }

  /** An enum value as it is printed: the variant's name, or an object under the variant's name. */
  predicate Tagged(d: Document) {
    (d.Text? && IsTag(d.s)) || (d.Members? && |d.members| > 0 && IsTag(d.members[0].name))
  }

  // ---- reading it character by character ----

  /** Outside a string, just behind one, inside one, behind a backslash inside one, or in text that is
      no JSON. */
  datatype Place = Outside | Closed | Inside | Escaped | Broken

  predicate IsPlain(c: char) {
    c in "{}[],-_." || IsDigit(c) || 'a' <= c <= 'z'
  }

  /** Outside strings a colon only follows a closing quote, and no upper-case letter occurs. */
  function Next(p: Place, c: char): Place {
    match p
    case Outside => if c == '\"' then Inside else if IsPlain(c) then Outside else Broken
    case Closed => if c == ':' || c == ',' || c == '}' || c == ']' then Outside else Broken
    case Inside => if c == '\"' then Closed else if c == '\\' then Escaped else Inside
    case Escaped => Inside
    case Broken => Broken
  }

  function Scan(p: Place, s: string): Place
    decreases |s|
  {
    if s == [] then p else Scan(Next(p, s[0]), s[1..])
  }

  lemma {:induction false} ScanConcat(p: Place, s: string, t: string)
    ensures Scan(p, s + t) == Scan(Scan(p, s), t)
    decreases |s|
  {
    if s == [] {
      assert s + t == t;
    } else {
      assert (s + t)[0] == s[0] && (s + t)[1..] == s[1..] + t;
      ScanConcat(Next(p, s[0]), s[1..], t);
    }
  }

  lemma ScanOne(p: Place, c: char)
    ensures Scan(p, [c]) == Next(p, c)
  {
    assert [c][1..] == [];
  }

  lemma {:induction false} ScanPlain(s: string)
    requires forall i :: 0 <= i < |s| ==> IsPlain(s[i])
    ensures Scan(Outside, s) == Outside
  {
    if s != [] {
      ScanPlain(s[1..]);
    }
  }

  lemma {:induction false} ScanInside(s: string)
    requires forall i :: 0 <= i < |s| ==> IsInner(s[i])
    ensures Scan(Inside, s) == Inside
  {
    if s != [] {
      ScanInside(s[1..]);
    }
  }

  lemma {:induction false} BrokenStays(s: string)
    ensures Scan(Broken, s) == Broken
  {
    if s != [] {
      BrokenStays(s[1..]);
    }
  }

  lemma ScanEscapeChar(c: char)
    ensures Scan(Inside, EscapeChar(c)) == Inside
  {
    var r := EscapeChar(c);
    if r == [c] && IsInner(c) {
      ScanOne(Inside, c);
    } else {
      assert Scan(Inside, r) == Scan(Escaped, r[1..]);
      assert Scan(Escaped, r[1..]) == Scan(Inside, r[1..][1..]);
      ScanInside(r[1..][1..]);
    }
  }

  lemma {:induction false} ScanEscape(s: string)
    ensures Scan(Inside, Escape(s)) == Inside
  {
    if s != [] {
      ScanEscapeChar(s[0]);
      ScanConcat(Inside, EscapeChar(s[0]), Escape(s[1..]));
      ScanEscape(s[1..]);
    }
  }

  lemma ScanQuoted(s: string)
    ensures Scan(Outside, Quoted(s)) == Closed
  {
    ScanConcat(Outside, ['\"'] + Escape(s), ['\"']);
    ScanConcat(Outside, ['\"'], Escape(s));
    ScanOne(Outside, '\"');
    ScanEscape(s);
    ScanOne(Inside, '\"');
  }

  predicate Complete(p: Place) {
    p == Outside || p == Closed
  }

  /** A complete value, then a comma or a closing bracket. */
  lemma ScanThen(p: Place, c: char)
    requires Complete(p) && (c == ',' || c == ']' || c == '}')
    ensures Scan(p, [c]) == Outside
  {
    ScanOne(p, c);
  }

  lemma {:induction false} ScanPrint(d: Document)
    ensures Complete(Scan(Outside, Print(d)))
    decreases d
  {
    match d
    case Null => ScanPlain("null");
    case Flag(b) => ScanPlain("true"); ScanPlain("false");
    case Number(n) => ScanPlain(Show(n));
    case Text(s) => ScanQuoted(s);
    case Items(items) => ScanItems(items); ScanBracketed('[', PrintItems(items), ']');
    case Members(members) => ScanMembers(members); ScanBracketed('{', PrintMembers(members), '}');
  }

  lemma ScanBracketed(left: char, s: string, right: char)
    requires (left == '[' || left == '{') && (right == ']' || right == '}') && Complete(Scan(Outside, s))
    ensures Scan(Outside, [left] + s + [right]) == Outside
  {
    ScanConcat(Outside, [left] + s, [right]);
    ScanConcat(Outside, [left], s);
    ScanOne(Outside, left);
    ScanThen(Scan(Outside, s), right);
  }

  /** A value, a comma, and the rest. */
  lemma ScanListed(s: string, t: string)
    requires Complete(Scan(Outside, s)) && Complete(Scan(Outside, t))
    ensures Complete(Scan(Outside, s + "," + t))
  {
    ScanConcat(Outside, s + ",", t);
    ScanConcat(Outside, s, ",");
    ScanThen(Scan(Outside, s), ',');
  }

  lemma {:induction false} ScanItems(items: seq<Document>)
    ensures Complete(Scan(Outside, PrintItems(items)))
    decreases items
  {
    if items != [] {
      ScanPrint(items[0]);
      if |items| > 1 {
        ScanItems(items[1..]);
        ScanListed(Print(items[0]), PrintItems(items[1..]));
      }
    }
  }

  lemma {:induction false} ScanMember(m: Member)
    ensures Complete(Scan(Outside, PrintMember(m)))
    decreases m
  {
    ScanPrint(m.value);
    ScanConcat(Outside, Quoted(m.name) + ":", Print(m.value));
    ScanConcat(Outside, Quoted(m.name), ":");
    ScanQuoted(m.name);
    ScanOne(Closed, ':');
  }

  lemma {:induction false} ScanMembers(members: seq<Member>)
    ensures Complete(Scan(Outside, PrintMembers(members)))
    decreases members
  {
    if members != [] {
      ScanMember(members[0]);
      if |members| > 1 {
        ScanMembers(members[1..]);
        ScanListed(PrintMember(members[0]), PrintMembers(members[1..]));
      }
    }
  }

  // ---- no condition hides inside another ----

  predicate IsAccountChar(c: char) {
    IsDigit(c) || 'a' <= c <= 'z' || c == '-' || c == '_' || c == '.'
  }

  /** The characters of a NEAR account id. */
  predicate IsAccountId(s: string) {
    s != [] && forall i :: 0 <= i < |s| ==> IsAccountChar(s[i])
  }

  lemma QuotedTag(s: string)
    requires IsTag(s)
    ensures Quoted(s)[0] == '\"' && Quoted(s)[1] == s[0]
  {
    assert Escape(s)[0] == EscapeChar(s[0])[0];
  }

  /** The text of a tagged document opens with a quote and a capital, behind a brace at most. */
  lemma TaggedOpens(d: Document)
    requires Tagged(d)
    ensures var s := Print(d);
            (|s| >= 2 && s[0] == '\"' && IsUpper(s[1])) ||
            (|s| >= 3 && s[0] == '{' && s[1] == '\"' && IsUpper(s[2]))
  {
    if d.Text? {
      QuotedTag(d.s);
    } else {
      var m := d.members[0];
      QuotedTag(m.name);
      assert PrintMember(m)[..2] == Quoted(m.name)[..2];
      assert PrintMembers(d.members)[..2] == PrintMember(m)[..2];
      assert Print(d)[1..3] == PrintMembers(d.members)[..2];
    }
  }

  /** Read from inside a string, a tagged document breaks: its first quote closes the string, and a
      capital follows. */
  lemma TaggedBreaksInside(d: Document)
    requires Tagged(d)
    ensures Scan(Inside, Print(d)) == Broken
  {
    TaggedOpens(d);
    var s := Print(d);
    if s[0] == '{' {
      assert s[1..][0] == '\"' && s[1..][1..][0] == s[2];
      assert Scan(Inside, s) == Scan(Closed, s[1..][1..]) == Scan(Broken, s[1..][1..][1..]);
      BrokenStays(s[1..][1..][1..]);
    } else {
      assert s[1..][0] == s[1];
      assert Scan(Inside, s) == Scan(Closed, s[1..]) == Scan(Broken, s[1..][1..]);
      BrokenStays(s[1..][1..]);
    }
  }

  /** Two colons with an account between them only occur inside a string. */
  lemma AccountIsInside(p: Place, account: string)
    requires IsAccountId(account)
    ensures Scan(p, ":" + account + ":") == Broken || Scan(p, ":" + account + ":") == Inside
  {
    ScanConcat(p, ":" + account, ":");
    ScanConcat(p, ":", account);
    ScanOne(p, ':');
    ScanOne(Inside, ':');
    ScanOne(Outside, ':');
    BrokenStays(account);
    BrokenStays(":");
    if Next(p, ':') == Outside {
      ScanPlain(account);
    } else if Next(p, ':') == Inside {
      ScanInside(account);
    }
  }

  predicate IsVault(v: Option<string>) {
    v.Some? ==> IsAccountId(v.value)
  }

  lemma VaultStaysInside(v: Option<string>)
    requires IsVault(v)
    ensures Scan(Inside, v.GetOr("") + ":") == Inside
  {
    ScanInside(v.GetOr("") + ":");
  }

  lemma NothingHides(outer: Document, before: string, payer: string, vault: Option<string>, inner: Document)
    requires Tagged(inner) && IsAccountId(payer) && IsVault(vault)
    ensures Print(outer) != before + (":" + payer + ":") + (vault.GetOr("") + ":") + Print(inner)
  {
    var account, bound := ":" + payer + ":", vault.GetOr("") + ":";
    ScanConcat(Outside, before + account + bound, Print(inner));
    ScanConcat(Outside, before + account, bound);
    ScanConcat(Outside, before, account);
    AccountIsInside(Scan(Outside, before), payer);
    VaultStaysInside(vault);
    BrokenStays(bound);
    BrokenStays(Print(inner));
    TaggedBreaksInside(inner);
    ScanPrint(outer);
  }

  // ---- the whole message ----

  /** What `store_agent_secret` lets through: any ciphertext, accounts as NEAR writes them, and an
      access condition as it is printed. */
  ghost predicate Submitted(r: StoreRequest) {
    && IsWalletKey(r.key) && ':' !in r.profile && IsAccountId(r.payer) && IsVault(r.vault)
    && exists d :: Tagged(d) && Print(d) == r.access
  }

  /** A colon behind a colon-free field is its delimiter or lies in what follows. */
  lemma ColonPosition(s: string, rest: string, i: nat)
    requires ':' !in s && i < |Field(s, rest)| && Field(s, rest)[i] == ':' && i != |s|
    ensures |s| < i <= |s| + |rest| && rest[i - |s| - 1] == ':' && rest[i - |s|..] == Field(s, rest)[i + 1..]
  {
  }

  /** What stands behind the ciphertext. */
  function Closing(payer: string, vault: Option<string>, access: string): string {
    Field(payer, Field(vault.GetOr(""), access))
  }

  lemma Regrouped(before: string, payer: string, vault: string, rest: string)
    ensures before + ":" + Field(payer, Field(vault, rest)) == before + (":" + payer + ":") + (vault + ":") + rest
  {
  }

  lemma NotInsideCondition(d: Document, j: nat, payer: string, vault: Option<string>, e: Document)
    requires Tagged(e) && IsAccountId(payer) && IsVault(vault)
    requires j < |Print(d)| && Print(d)[j] == ':'
    ensures Print(d)[j + 1..] != Closing(payer, vault, Print(e))
  {
    var s := Print(d);
    if s[j + 1..] == Closing(payer, vault, Print(e)) {
      assert s == s[..j] + ":" + s[j + 1..];
      Regrouped(s[..j], payer, vault.GetOr(""), Print(e));
      NothingHides(d, s[..j], payer, vault, e);
    }
  }

  lemma OpensDifferently(d: Document, payer: string, vault: Option<string>, access: string)
    requires Tagged(d) && IsAccountId(payer) && IsVault(vault)
    ensures Print(d) != Closing(payer, vault, access) && Print(d) != Field(vault.GetOr(""), access)
  {
    TaggedOpens(d);
    assert Closing(payer, vault, access)[0] == payer[0];
    var v := vault.GetOr("");
    assert Field(v, access)[0] == if v == [] then ':' else v[0];
  }

  lemma NotBehindVault(bound: Option<string>, d: Document, k: nat, payer: string, vault: Option<string>, e: Document)
    requires IsVault(bound) && Tagged(d) && Tagged(e) && IsAccountId(payer) && IsVault(vault)
    requires k < |Field(bound.GetOr(""), Print(d))| && Field(bound.GetOr(""), Print(d))[k] == ':'
    ensures Field(bound.GetOr(""), Print(d))[k + 1..] != Closing(payer, vault, Print(e))
  {
    var v := bound.GetOr("");
    if k == |v| {
      assert Field(v, Print(d))[k + 1..] == Print(d);
      OpensDifferently(d, payer, vault, Print(e));
    } else {
      ColonPosition(v, Print(d), k);
      NotInsideCondition(d, k - |v| - 1, payer, vault, e);
    }
  }

  lemma NotBehindPayer(payer': string, bound: Option<string>, d: Document, n: nat,
                       payer: string, vault: Option<string>, e: Document)
    requires IsAccountId(payer') && IsVault(bound) && Tagged(d) && Tagged(e) && IsAccountId(payer) && IsVault(vault)
    requires n < |Closing(payer', bound, Print(d))| && Closing(payer', bound, Print(d))[n] == ':'
    ensures Closing(payer', bound, Print(d))[n + 1..] != Closing(payer, vault, Print(e))
  {
    var rest := Field(bound.GetOr(""), Print(d));
    if n == |payer'| {
      assert Field(payer', rest)[n + 1..] == rest;
      if rest == Closing(payer, vault, Print(e)) {
        FieldIsUnique(payer, Field(vault.GetOr(""), Print(e)), bound.GetOr(""), Print(d));
        OpensDifferently(d, payer, vault, Print(e));
      }
    } else {
      ColonPosition(payer', rest, n);
      NotBehindVault(bound, d, n - |payer'| - 1, payer, vault, e);
    }
  }

  lemma LongerField(s: string, rest: string, s': string, rest': string)
    requires Field(s, rest) == Field(s', rest') && |s| > |s'|
    ensures var n := |s| - |s'| - 1; n < |rest'| && rest'[n] == ':' && rest'[n + 1..] == rest
  {
    var text := Field(s, rest);
    assert text[|s|] == ':' && text[|s| + 1..] == rest;
    assert text[|s'| + 1..] == rest';
  }

  /** A longer ciphertext would have to end inside the other request's payer, vault or condition. */
  lemma LongerCipher(r: StoreRequest, t: StoreRequest)
    requires Submitted(r) && Submitted(t) && |r.cipher| > |t.cipher|
    ensures StoreTail(r) != StoreTail(t)
  {
    var d :| Tagged(d) && Print(d) == t.access;
    var e :| Tagged(e) && Print(e) == r.access;
    if StoreTail(r) == StoreTail(t) {
      LongerField(r.cipher, Closing(r.payer, r.vault, r.access), t.cipher, Closing(t.payer, t.vault, t.access));
      NotBehindPayer(t.payer, t.vault, d, |r.cipher| - |t.cipher| - 1, r.payer, r.vault, e);
    }
  }

  /** One signed store message, one request: no other ciphertext, payer, vault or condition shares it. */
  lemma StoreMessageNamesOneRequest(r: StoreRequest, t: StoreRequest)
    requires Submitted(r) && Submitted(t) && StoreMessage(r) == StoreMessage(t)
    ensures r == t
  {
    StoreHeadParses(r);
    StoreHeadParses(t);
    if |r.cipher| > |t.cipher| {
      LongerCipher(r, t);
    } else if |r.cipher| < |t.cipher| {
      LongerCipher(t, r);
    }
    SameTail(r, t);
  }

  lemma SameTail(r: StoreRequest, t: StoreRequest)
    requires StoreTail(r) == StoreTail(t) && |r.cipher| == |t.cipher|
    requires IsAccountId(r.payer) && IsAccountId(t.payer) && IsVault(r.vault) && IsVault(t.vault)
    ensures r.cipher == t.cipher && r.payer == t.payer && r.vault == t.vault && r.access == t.access
  {
    var v, w := r.vault.GetOr(""), t.vault.GetOr("");
    CutAtField(r.cipher, Field(r.payer, Field(v, r.access)));
    CutAtField(t.cipher, Field(t.payer, Field(w, t.access)));
    FieldIsUnique(r.payer, Field(v, r.access), t.payer, Field(w, t.access));
    FieldIsUnique(v, r.access, w, t.access);
  }
}
