/** The three strings a wallet key signs. Fields are joined with colons and not escaped: a field that
    may hold a colon is pinned by its length, or stands last. */
module Messages {
  import opened Options
  import opened Numerals
  import opened WalletKeys

  // ---- fields ----

  function Field(s: string, rest: string): string {
    s + ":" + rest
  }

  function Sized(s: string, rest: string): string {
    Field(Show(|s|), Field(s, rest))
  }

  datatype Split = Split(head: string, tail: string)

  /** Cut at the first colon. */
  function Cut(s: string): (r: Option<Split>)
    ensures r.None? <==> ':' !in s
    ensures r.Some? ==> ':' !in r.value.head && s == Field(r.value.head, r.value.tail)
  {
    if s == [] then None
    else if s[0] == ':' then Some(Split([], s[1..]))
    else
      match Cut(s[1..])
      case None => None
      case Some(cut) => Some(Split([s[0]] + cut.head, cut.tail))
  }

  /** Where the first colon stands settles the field. */
  lemma FieldIsUnique(s: string, rest: string, s': string, rest': string)
    requires Field(s, rest) == Field(s', rest') && ':' !in s && (':' !in s' || |s| == |s'|)
    ensures s == s' && rest == rest'
  {
    var text := Field(s, rest);
    assert text[|s|] == ':' && text[|s'|] == ':';
    assert s == text[..|s|] && s' == text[..|s'|];
    assert rest == text[|s| + 1..] && rest' == text[|s'| + 1..];
  }

  /** A colon-free field is read back, whatever follows it. */
  lemma CutField(s: string, rest: string)
    requires ':' !in s
    ensures Cut(Field(s, rest)) == Some(Split(s, rest))
  {
    var text := Field(s, rest);
    assert text[|s|] == ':';
    var cut := Cut(text).value;
    FieldIsUnique(s, rest, cut.head, cut.tail);
  }

  /** Cut after `n` characters, where a colon must stand. */
  function CutAt(s: string, n: nat): (r: Option<Split>)
    ensures r.Some? ==> |r.value.head| == n && s == Field(r.value.head, r.value.tail)
  {
    if n < |s| && s[n] == ':' then Some(Split(s[..n], s[n + 1..])) else None
  }

  lemma CutAtField(s: string, rest: string)
    ensures CutAt(Field(s, rest), |s|) == Some(Split(s, rest))
  {
    var text := Field(s, rest);
    assert text[..|s|] == s && text[|s|] == ':' && text[|s| + 1..] == rest;
  }

  /** A field holding a number in its one decimal spelling. */
  datatype Counted = Counted(n: nat, tail: string)

  function CutNumber(s: string): (r: Option<Counted>)
    ensures r.Some? ==> s == Field(Show(r.value.n), r.value.tail)
  {
    var cut := Cut(s);
    if cut.None? || !AllDigits(cut.value.head) then None
    else
      var n := DecimalValue(cut.value.head);
      if Show(n) == cut.value.head then Some(Counted(n, cut.value.tail)) else None
  }

  lemma CutNumberField(n: nat, rest: string)
    ensures CutNumber(Field(Show(n), rest)) == Some(Counted(n, rest))
  {
    CutField(Show(n), rest);
  }

  /** A length, then exactly that much, whatever it holds. */
  function CutSized(s: string): (r: Option<Split>)
    ensures r.Some? ==> s == Sized(r.value.head, r.value.tail)
  {
    match CutNumber(s)
    case None => None
    case Some(c) => CutAt(c.tail, c.n)
  }

  lemma CutSizedField(s: string, rest: string)
    ensures CutSized(Sized(s, rest)) == Some(Split(s, rest))
  {
    CutNumberField(|s|, Field(s, rest));
    CutAtField(s, rest);
  }

  /** A wallet key's own first eight characters say how long it is. */
  function CutKey(s: string): (r: Option<Split>)
    ensures r.Some? ==> IsWalletKey(r.value.head) && s == Field(r.value.head, r.value.tail)
  {
    var cut := CutAt(s, if StartsWith(s, ED25519) then 72 else 76);
    if cut.Some? && IsWalletKey(cut.value.head) then cut else None
  }

  lemma CutKeyField(key: string, rest: string)
    requires IsWalletKey(key)
    ensures CutKey(Field(key, rest)) == Some(Split(key, rest))
  {
    var text := Field(key, rest);
    CutAtField(key, rest);
    assert text[..8] == key[..8];
    if ParseKey(key).value.Secp256k1? {
      assert key[..10][0] == 's';
      assert text[..8][0] == 's';
    }
  }

  function CutTag(s: string, tag: string): (r: Option<string>)
    ensures r.Some? <==> StartsWith(s, tag)
    ensures r.Some? ==> s == tag + r.value
  {
    if StartsWith(s, tag) then Some(s[|tag|..]) else None
  }

  lemma CutTagged(tag: string, rest: string)
    ensures CutTag(tag + rest, tag) == Some(rest)
  {
    assert (tag + rest)[..|tag|] == tag && (tag + rest)[|tag|..] == rest;
  }

  // ---- delete_agent_secret ----

  const DELETE_TAG: string := "delete_agent_secret:v1:"

  datatype DeleteRequest = DeleteRequest(key: string, binding: string, profile: string, payer: string)

  function DeleteMessage(r: DeleteRequest): string {
    DELETE_TAG + Field(r.key, Sized(r.binding, Field(r.profile, r.payer)))
  }

  function ParseDelete(m: string): (r: Option<DeleteRequest>)
    ensures r.Some? ==> IsWalletKey(r.value.key) && ':' !in r.value.profile && DeleteMessage(r.value) == m
  {
    match CutTag(m, DELETE_TAG)
    case None => None
    case Some(body) =>
      match CutKey(body)
      case None => None
      case Some(key) =>
        match CutSized(key.tail)
        case None => None
        case Some(binding) =>
          match Cut(binding.tail)
          case None => None
          case Some(profile) => Some(DeleteRequest(key.head, binding.head, profile.head, profile.tail))
  }

  /** A delete message parses back to the tuple it was built from, for every tuple the checks let
      through: the accessor may hold colons, and so may what stands last. */
  lemma DeleteMessageParses(r: DeleteRequest)
    requires IsWalletKey(r.key) && ':' !in r.profile
    ensures ParseDelete(DeleteMessage(r)) == Some(r)
  {
    CutTagged(DELETE_TAG, Field(r.key, Sized(r.binding, Field(r.profile, r.payer))));
    CutKeyField(r.key, Sized(r.binding, Field(r.profile, r.payer)));
    CutSizedField(r.binding, Field(r.profile, r.payer));
    CutField(r.profile, r.payer);
  }

  // ---- store_wallet_policy ----

  const POLICY_TAG: string := "store_wallet_policy:v2:"

  datatype PolicyRequest = PolicyRequest(
    key: string, version: nat, locked: bool, validUntil: nat, data: string, caller: string)

  /** `u8::from(locked)`, printed. */
  function Flag(b: bool): string {
    if b then "1" else "0"
  }

  function PolicyTerms(version: nat, locked: bool, validUntil: nat, rest: string): string {
    Field(Show(version), Field(Flag(locked), Field(Show(validUntil), rest)))
  }

  function PolicyMessage(r: PolicyRequest): string {
    POLICY_TAG + Field(r.key, PolicyTerms(r.version, r.locked, r.validUntil, Sized(r.data, r.caller)))
  }

  datatype Terms = Terms(version: nat, locked: bool, validUntil: nat, tail: string)

  function CutTerms(s: string): (r: Option<Terms>)
    ensures r.Some? ==> s == PolicyTerms(r.value.version, r.value.locked, r.value.validUntil, r.value.tail)
  {
    match CutNumber(s)
    case None => None
    case Some(version) =>
      match CutAt(version.tail, 1)
      case None => None
      case Some(locked) =>
        if locked.head != Flag(true) && locked.head != Flag(false) then None
        else
          match CutNumber(locked.tail)
          case None => None
          case Some(until) => Some(Terms(version.n, locked.head == Flag(true), until.n, until.tail))
  }

  lemma CutTermsField(version: nat, locked: bool, validUntil: nat, rest: string)
    ensures CutTerms(PolicyTerms(version, locked, validUntil, rest)) == Some(Terms(version, locked, validUntil, rest))
  {
    var until := Field(Show(validUntil), rest);
    CutNumberField(version, Field(Flag(locked), until));
    CutAtField(Flag(locked), until);
    CutNumberField(validUntil, rest);
  }

  function ParsePolicy(m: string): (r: Option<PolicyRequest>)
    ensures r.Some? ==> IsWalletKey(r.value.key) && PolicyMessage(r.value) == m
  {
    match CutTag(m, POLICY_TAG)
    case None => None
    case Some(body) =>
      match CutKey(body)
      case None => None
      case Some(key) =>
        match CutTerms(key.tail)
        case None => None
        case Some(t) =>
          match CutSized(t.tail)
          case None => None
          case Some(data) => Some(PolicyRequest(key.head, t.version, t.locked, t.validUntil, data.head, data.tail))
  }

  lemma PolicyMessageParses(r: PolicyRequest)
    requires IsWalletKey(r.key)
    ensures ParsePolicy(PolicyMessage(r)) == Some(r)
  {
    var data := Sized(r.data, r.caller);
    var terms := PolicyTerms(r.version, r.locked, r.validUntil, data);
    CutTagged(POLICY_TAG, Field(r.key, terms));
    CutKeyField(r.key, terms);
    CutTermsField(r.version, r.locked, r.validUntil, data);
    CutSizedField(r.data, r.caller);
  }

  lemma PolicyMessageNamesOneRequest(r: PolicyRequest, t: PolicyRequest)
    requires IsWalletKey(r.key) && IsWalletKey(t.key) && PolicyMessage(r) == PolicyMessage(t)
    ensures r == t
  {
    PolicyMessageParses(r);
    PolicyMessageParses(t);
  }

  // ---- store_agent_secret ----

  const STORE_TAG: string := "store_secrets_for:v1:"

  datatype StoreRequest = StoreRequest(
    key: string, binding: string, profile: string, cipher: string, payer: string, vault: Option<string>,
    access: string)

  /** An absent vault leaves an empty field. */
  function StoreTail(r: StoreRequest): string {
    Field(r.cipher, Field(r.payer, Field(r.vault.GetOr(""), r.access)))
  }

  function StoreMessage(r: StoreRequest): string {
    STORE_TAG + Field(r.key, Sized(r.binding, Field(r.profile, StoreTail(r))))
  }

  /** What the fields before the ciphertext are, and the text from the ciphertext on. */
  datatype StoreHead = StoreHead(key: string, binding: string, profile: string, tail: string)

  function ParseStoreHead(m: string): (r: Option<StoreHead>)
    ensures r.Some? ==>
              IsWalletKey(r.value.key) && ':' !in r.value.profile
              && m == STORE_TAG + Field(r.value.key, Sized(r.value.binding, Field(r.value.profile, r.value.tail)))
  {
    match CutTag(m, STORE_TAG)
    case None => None
    case Some(body) =>
      match CutKey(body)
      case None => None
      case Some(key) =>
        match CutSized(key.tail)
        case None => None
        case Some(binding) =>
          match Cut(binding.tail)
          case None => None
          case Some(profile) => Some(StoreHead(key.head, binding.head, profile.head, profile.tail))
  }

  lemma StoreHeadParses(r: StoreRequest)
    requires IsWalletKey(r.key) && ':' !in r.profile
    ensures ParseStoreHead(StoreMessage(r)) == Some(StoreHead(r.key, r.binding, r.profile, StoreTail(r)))
  {
    CutTagged(STORE_TAG, Field(r.key, Sized(r.binding, Field(r.profile, StoreTail(r)))));
    CutKeyField(r.key, Sized(r.binding, Field(r.profile, StoreTail(r))));
    CutSizedField(r.binding, Field(r.profile, StoreTail(r)));
    CutField(r.profile, StoreTail(r));
  }

  predicate ColonFreeTail(r: StoreRequest) {
    ':' !in r.cipher && ':' !in r.payer && (r.vault.Some? ==> r.vault.value != [] && ':' !in r.vault.value)
  }

  function ParseStore(m: string): (r: Option<StoreRequest>)
    ensures r.Some? ==>
              && IsWalletKey(r.value.key) && ':' !in r.value.profile && ColonFreeTail(r.value)
              && StoreMessage(r.value) == m
  {
    match ParseStoreHead(m)
    case None => None
    case Some(head) =>
      match Cut(head.tail)
      case None => None
      case Some(cipher) =>
        match Cut(cipher.tail)
        case None => None
        case Some(payer) =>
          match Cut(payer.tail)
          case None => None
          case Some(vault) =>
            Some(StoreRequest(head.key, head.binding, head.profile, cipher.head, payer.head,
                              if vault.head == [] then None else Some(vault.head), vault.tail))
  }

  lemma StoreMessageParses(r: StoreRequest)
    requires IsWalletKey(r.key) && ':' !in r.profile && ColonFreeTail(r)
    ensures ParseStore(StoreMessage(r)) == Some(r)
  {
    StoreHeadParses(r);
    var vault := r.vault.GetOr("");
    CutField(r.cipher, Field(r.payer, Field(vault, r.access)));
    CutField(r.payer, Field(vault, r.access));
    CutField(vault, r.access);
  }

  // ---- three domains ----

  /** A signature made for one verb is no signature for another. */
  lemma DomainsAreDisjoint(d: DeleteRequest, p: PolicyRequest, s: StoreRequest)
    ensures DeleteMessage(d) != PolicyMessage(p)
    ensures DeleteMessage(d) != StoreMessage(s)
    ensures PolicyMessage(p) != StoreMessage(s)
  {
    assert DeleteMessage(d)[0] == 'd';
    assert PolicyMessage(p)[0] == 's' && PolicyMessage(p)[6] == 'w';
    assert StoreMessage(s)[0] == 's' && StoreMessage(s)[6] == 's';
  }

  // ---- the texts, field by field ----

  /** Colons between the fields. */
  function Joined(fields: seq<string>): string
    requires fields != []
  {
    if |fields| == 1 then fields[0] else fields[0] + ":" + Joined(fields[1..])
  }

  lemma JoinedFrom(s: string, rest: seq<string>)
    requires rest != []
    ensures Joined([s] + rest) == Field(s, Joined(rest))
  {
    assert ([s] + rest)[1..] == rest;
  }

  lemma JoinedTwo(s: string, t: string)
    ensures Joined([s, t]) == Field(s, t)
  {
    JoinedFrom(s, [t]);
    assert [s] + [t] == [s, t];
  }

  lemma JoinedFromTwo(s: string, t: string, rest: seq<string>, u: string)
    requires rest != [] && u == Joined(rest)
    ensures Joined([s, t] + rest) == Field(s, Field(t, u))
  {
    JoinedFrom(t, rest);
    JoinedFrom(s, [t] + rest);
    assert [s] + ([t] + rest) == [s, t] + rest;
  }

  /** What is signed to delete. */
  lemma DeleteMessageText(r: DeleteRequest)
    ensures DeleteMessage(r) ==
            "delete_agent_secret:v1:" + Joined([r.key, Show(|r.binding|), r.binding, r.profile, r.payer])
  {
    JoinedTwo(r.profile, r.payer);
    JoinedFromTwo(Show(|r.binding|), r.binding, [r.profile, r.payer], Field(r.profile, r.payer));
    var sized := [Show(|r.binding|), r.binding] + [r.profile, r.payer];
    JoinedFrom(r.key, sized);
    assert [r.key] + sized == [r.key, Show(|r.binding|), r.binding, r.profile, r.payer];
  }

  /** What is signed to write a policy. */
  lemma PolicyMessageText(r: PolicyRequest)
    ensures PolicyMessage(r) ==
            "store_wallet_policy:v2:" + Joined([r.key, Show(r.version), if r.locked then "1" else "0",
                                                Show(r.validUntil), Show(|r.data|), r.data, r.caller])
  {
    var flag := Flag(r.locked);
    JoinedTwo(r.data, r.caller);
    JoinedFromTwo(Show(r.validUntil), Show(|r.data|), [r.data, r.caller], Field(r.data, r.caller));
    var sized := [Show(r.validUntil), Show(|r.data|)] + [r.data, r.caller];
    JoinedFromTwo(Show(r.version), flag, sized, Field(Show(r.validUntil), Sized(r.data, r.caller)));
    var terms := [Show(r.version), flag] + sized;
    JoinedFrom(r.key, terms);
    assert [r.key] + terms ==
           [r.key, Show(r.version), flag, Show(r.validUntil), Show(|r.data|), r.data, r.caller];
  }

  lemma StoreTailText(r: StoreRequest)
    ensures StoreTail(r) == Joined([r.cipher, r.payer, if r.vault.Some? then r.vault.value else "", r.access])
  {
    var vault := if r.vault.Some? then r.vault.value else "";
    JoinedTwo(vault, r.access);
    JoinedFromTwo(r.cipher, r.payer, [vault, r.access], Field(vault, r.access));
    assert [r.cipher, r.payer] + [vault, r.access] == [r.cipher, r.payer, vault, r.access];
  }

  /** What is signed to store. */
  lemma StoreMessageText(r: StoreRequest)
    ensures StoreMessage(r) ==
            "store_secrets_for:v1:"
            + Joined([r.key, Show(|r.binding|), r.binding, r.profile, r.cipher, r.payer,
                      if r.vault.Some? then r.vault.value else "", r.access])
  {
    var vault := if r.vault.Some? then r.vault.value else "";
    var tail := [r.cipher, r.payer, vault, r.access];
    StoreTailText(r);
    JoinedFrom(r.profile, tail);
    JoinedFromTwo(Show(|r.binding|), r.binding, [r.profile] + tail, Field(r.profile, StoreTail(r)));
    var sized := [Show(|r.binding|), r.binding] + ([r.profile] + tail);
    JoinedFrom(r.key, sized);
    assert [r.key] + sized ==
           [r.key, Show(|r.binding|), r.binding, r.profile, r.cipher, r.payer, vault, r.access];
  }
}
