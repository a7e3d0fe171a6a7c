/** What an agent's signature authorises: the accessor as it is written into a signed message, and the
    one row that a signed store or delete message names. */
module AgentSecrets {
  import opened Options
  import opened Numerals
  import opened Charges
  import opened Conditions
  import opened ConditionText
  import opened PrintedJson
  import opened WalletKeys
  import opened Messages
  import opened StoreMessages
  import opened Secrets
  import opened SecretsRegistry

  const WASM: string := "wasm:"

  /** `accessor_binding`. */
  function Binding(a: Accessor): string {
    match a
    case OfProject(id) => id
    case Repo(repo, branch) => "repo:" + repo + ":" + branch.GetOr("")
    case Wasm(hash) => WASM + hash
    case PaymentKey => "system:PaymentKey"
  }

  lemma WasmBindingIsInjective(h: string, k: string)
    requires WASM + h == WASM + k
    ensures h == k
  {
    assert (WASM + h)[|WASM|..] == h && (WASM + k)[|WASM|..] == k;
  }

  /** Two accessors of the kinds an agent may name share a binding exactly when they are equal or one is
      a project whose id reads as the other's hash. */
  lemma AgentBindingIsExact(a: Accessor, b: Accessor)
    requires AgentAccessor(a) && AgentAccessor(b)
    ensures Binding(a) == Binding(b) <==>
            || a == b
            || (a.OfProject? && b.Wasm? && a.id == WASM + b.hash)
            || (a.Wasm? && b.OfProject? && b.id == WASM + a.hash)
  {
    if a.Wasm? && b.Wasm? && Binding(a) == Binding(b) {
      WasmBindingIsInjective(a.hash, b.hash);
    }
  }

  /** The binding alone does not tell the kinds apart. */
  lemma ProjectCanReadAsHash(hash: string)
    ensures OfProject(WASM + hash) != Wasm(hash) && Binding(OfProject(WASM + hash)) == Binding(Wasm(hash))
  {
  }

  /** What is stored does: a project id holds a slash, a hash does not. */
  lemma StoredBindingIsInjective(a: Accessor, b: Accessor, profile: string, profile': string)
    requires AgentAccessor(a) && AgentAccessor(b) && Shaped(a, profile) && Shaped(b, profile')
    requires Binding(a) == Binding(b)
    ensures a == b
  {
    AgentBindingIsExact(a, b);
  }

  function DeleteOf(pubkey: string, key: SecretKey, payer: Account): DeleteRequest {
    DeleteRequest(pubkey, Binding(key.accessor), key.profile, payer)
  }

  predicate SignedBy(pubkey: string, key: SecretKey) {
    ImplicitAccount(pubkey) == Some(key.owner)
  }

  /** One signature over a delete message removes one row: in no reachable state is there a second
      row, or a second payer, that the same bytes would authorise. */
  lemma DeleteMessageNamesOneRow(st: Store, pubkey: string, key: SecretKey, payer: Account,
                                 pubkey': string, key': SecretKey, payer': Account)
    requires KeysSound(st.rows.Keys) && key in st.rows && key' in st.rows
    requires AgentAccessor(key.accessor) && AgentAccessor(key'.accessor)
    requires SignedBy(pubkey, key) && SignedBy(pubkey', key') && ':' !in key.profile && ':' !in key'.profile
    requires DeleteMessage(DeleteOf(pubkey, key, payer)) == DeleteMessage(DeleteOf(pubkey', key', payer'))
    ensures pubkey == pubkey' && key == key' && payer == payer'
  {
    DeleteMessageParses(DeleteOf(pubkey, key, payer));
    DeleteMessageParses(DeleteOf(pubkey', key', payer'));
    assert KeySound(key) && KeySound(key');
    StoredBindingIsInjective(key.accessor, key'.accessor, key.profile, key'.profile);
  }

  function StoreOf(pubkey: string, key: SecretKey, cipher: string, payer: Account, vault: Option<Account>,
                   access: Condition): StoreRequest {
    StoreRequest(pubkey, Binding(key.accessor), key.profile, cipher, payer, vault, PrintCondition(access))
  }

  lemma ConditionIsTagged(c: Condition)
    ensures Tagged(ToJson(c))
  {
  }

  /** What `store_agent_secret` demands of its arguments before it looks at the signature, and what the
      chain guarantees of account ids. */
  predicate Presented(pubkey: string, key: SecretKey, payer: Account, vault: Option<Account>) {
    && AgentAccessor(key.accessor) && Shaped(key.accessor, key.profile) && ':' !in key.profile
    && SignedBy(pubkey, key) && IsAccountId(payer) && IsVault(vault)
  }

  lemma PresentedIsSubmitted(pubkey: string, key: SecretKey, cipher: string, payer: Account, vault: Option<Account>,
                             access: Condition)
    requires Presented(pubkey, key, payer, vault)
    ensures Submitted(StoreOf(pubkey, key, cipher, payer, vault, access))
  {
    ConditionIsTagged(access);
    assert Tagged(ToJson(access)) && Print(ToJson(access)) == PrintCondition(access);
  }

  /** One signature over a store message writes one thing: the same bytes authorise no other row,
      ciphertext, payer, vault or condition. */
  lemma StoreMessageNamesOneWrite(pubkey: string, key: SecretKey, cipher: string, payer: Account,
                                  vault: Option<Account>, access: Condition,
                                  pubkey': string, key': SecretKey, cipher': string, payer': Account,
                                  vault': Option<Account>, access': Condition)
    requires Presented(pubkey, key, payer, vault) && Presented(pubkey', key', payer', vault')
    requires StoreMessage(StoreOf(pubkey, key, cipher, payer, vault, access)) ==
             StoreMessage(StoreOf(pubkey', key', cipher', payer', vault', access'))
    ensures pubkey == pubkey' && key == key' && cipher == cipher'
    ensures payer == payer' && vault == vault' && access == access'
  {
    PresentedIsSubmitted(pubkey, key, cipher, payer, vault, access);
    PresentedIsSubmitted(pubkey', key', cipher', payer', vault', access');
    StoreMessageNamesOneRequest(StoreOf(pubkey, key, cipher, payer, vault, access),
                                StoreOf(pubkey', key', cipher', payer', vault', access'));
    StoredBindingIsInjective(key.accessor, key'.accessor, key.profile, key'.profile);
    PrintConditionIsInjective(access, access');
  }

  /** The text that is signed for a row of a project or of a WASM hash, to the letter. */
  lemma SignedTexts(pubkey: string, key: SecretKey, cipher: string, payer: Account, vault: Option<Account>,
                    access: Condition, named: string)
    requires AgentAccessor(key.accessor)
    requires named == if key.accessor.OfProject? then key.accessor.id else "wasm:" + key.accessor.hash
    ensures DeleteMessage(DeleteOf(pubkey, key, payer)) ==
            "delete_agent_secret:v1:" + Joined([pubkey, Show(|named|), named, key.profile, payer])
    ensures StoreMessage(StoreOf(pubkey, key, cipher, payer, vault, access)) ==
            "store_secrets_for:v1:"
            + Joined([pubkey, Show(|named|), named, key.profile, cipher, payer,
                      if vault.Some? then vault.value else "", PrintCondition(access)])
  {
    DeleteMessageText(DeleteOf(pubkey, key, payer));
    StoreMessageText(StoreOf(pubkey, key, cipher, payer, vault, access));
  }
}
