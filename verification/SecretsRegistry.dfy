/** What every run of the secrets registry keeps: exact indexes, backed bindings, canonical keys,
    bounded conditions, deposits that cover what they are held for, NEAR that is all accounted for, and
    payment-key nonces that are never handed out twice. */
module SecretsRegistry {
  import opened Options
  import opened Sums
  import opened Numerals
  import opened Charges
  import opened Conditions
  import opened Indexes
  import opened Purses
  import opened Secrets

  // ---- canonical keys ----

  predicate Canonical(key: SecretKey) {
    KeyFor(key.accessor, key.profile, key.owner) == key
  }

  /** One spelling: canonicalising twice changes nothing, so every door reaches the slot it names. */
  lemma KeyForIsCanonical(a: Accessor, profile: string, owner: Account)
    ensures Canonical(KeyFor(a, profile, owner))
  {
    if a.Wasm? {
      assert Lower(Lower(a.hash)) == Lower(a.hash);
    } else if a.PaymentKey? && ParseU32(profile).Some? {
      ParseShow(ParseU32(profile).value);
    }
  }

  /** A canonical payment key is the one `delete_payment_key` builds from its nonce. */
  lemma CanonicalPaymentKey(key: SecretKey)
    requires Canonical(key) && key.accessor.PaymentKey? && ParseU32(key.profile).Some?
    ensures key == PaymentKeyAt(key.owner, NonceOf(key))
  {
  }

  // ---- indexes and rows ----

  ghost function OwnersOf(rows: map<SecretKey, Row>): map<SecretKey, Account> {
    map key | key in rows :: key.owner
  }

  ghost predicate IndexExact(st: Store) {
    Exact(st.index, OwnersOf(st.rows))
  }

  /** A stored key has one spelling and the shape its kind demands. */
  predicate KeySound(key: SecretKey) {
    Canonical(key) && Shaped(key.accessor, key.profile) && IsProfile(key.profile)
  }

  ghost predicate KeysSound(keys: set<SecretKey>) {
    forall key :: key in keys ==> KeySound(key)
  }

  ghost predicate Bounded(rows: map<SecretKey, Row>) {
    forall key :: key in rows ==> WithinBounds(rows[key].access)
  }

  ghost predicate RowsSound(st: Store) {
    KeysSound(st.rows.Keys) && Bounded(st.rows) && st.bindings.Keys <= st.rows.Keys
  }

  lemma StoreKeepsIndex(st: Store, key: SecretKey, row: Row, vault: Option<Account>)
    requires IndexExact(st)
    ensures IndexExact(StoreAt(st, key, row, vault))
  {
    AddedIsExact(st.index, OwnersOf(st.rows), key.owner, key);
    assert OwnersOf(st.rows[key := row]) == OwnersOf(st.rows)[key := key.owner];
    if key in st.rows {
      assert OwnersOf(st.rows[key := row]) == OwnersOf(st.rows);
    }
  }

  lemma RemoveKeepsIndex(st: Store, key: SecretKey)
    requires IndexExact(st) && key in st.rows
    ensures IndexExact(RemoveAt(st, key))
  {
    RemovedIsExact(st.index, OwnersOf(st.rows), key);
    assert OwnersOf(st.rows - {key}) == OwnersOf(st.rows) - {key};
  }

  ghost predicate StoreSound(st: Store) {
    IndexExact(st) && RowsSound(st)
  }

  lemma StoreSecretIsSound(s: State, owner: Account, payer: Account, a: Accessor, profile: string, cipher: string,
                           access: Condition, vault: Option<Account>, attached: nat)
    requires StoreSound(s.store) && StoreSecret(s, owner, payer, a, profile, cipher, access, vault, attached).Some?
    ensures StoreSound(StoreSecret(s, owner, payer, a, profile, cipher, access, vault, attached).value.store)
  {
    KeyForIsCanonical(a, profile, owner);
    var key := KeyFor(a, profile, owner);
    var t := StoreSecret(s, owner, payer, a, profile, cipher, access, vault, attached).value.store;
    StoreKeepsIndex(s.store, key, t.rows[key], vault);
  }

  lemma DeleteIsSound(s: State, key: SecretKey, refundTo: Account)
    requires StoreSound(s.store) && DeleteKey(s, key, refundTo).Some?
    ensures StoreSound(DeleteKey(s, key, refundTo).value.store)
  {
    RemoveKeepsIndex(s.store, key);
  }

  lemma FloorsAreApart(st: Store, floors: map<Account, nat>)
    requires StoreSound(st)
    ensures StoreSound(st.(floors := floors))
  {
  }

  lemma OnDeletionIsSound(s: State, p: nat, success: bool)
    requires StoreSound(s.store) && OnDeletion(s, p, success).Some?
    ensures StoreSound(OnDeletion(s, p, success).value.store)
  {
    var y := s.promises[p];
    var spent := s.(promises := s.promises - {p});
    var key := PaymentKeyAt(y.owner, y.nonce);
    var u := DeleteKey(spent, key, y.owner);
    if success && u.Some? {
      DeleteIsSound(spent, key, y.owner);
      FloorsAreApart(u.value.store, RaiseFloor(u.value.store.floors, y.owner, y.nonce));
    }
  }

  /** Rewriting a row in place leaves the set of keys alone. */
  lemma RewriteIsSound(st: Store, key: SecretKey, row: Row)
    requires StoreSound(st) && key in st.rows && WithinBounds(row.access)
    ensures StoreSound(st.(rows := st.rows[key := row]))
  {
    var t := st.(rows := st.rows[key := row]);
    assert t.rows.Keys == st.rows.Keys && OwnersOf(t.rows) == OwnersOf(st.rows);
  }

  lemma UpdateAccessIsSound(s: State, caller: Account, a: Accessor, profile: string, access: Condition, attached: nat)
    requires StoreSound(s.store) && UpdateAccess(s, caller, a, profile, access, attached).Some?
    ensures StoreSound(UpdateAccess(s, caller, a, profile, access, attached).value.store)
  {
    var key := KeyFor(a, profile, caller);
    RewriteIsSound(s.store, key, UpdateAccess(s, caller, a, profile, access, attached).value.store.rows[key]);
  }

  lemma UnbindIsSound(s: State, caller: Account, a: Accessor, profile: string)
    requires StoreSound(s.store) && Unbind(s, caller, a, profile).Some?
    ensures StoreSound(Unbind(s, caller, a, profile).value.store)
  {
  }

  lemma OnTopUpIsSound(s: State, p: nat, cipher: Option<string>)
    requires StoreSound(s.store) && OnTopUp(s, p, cipher).Some?
    ensures StoreSound(OnTopUp(s, p, cipher).value.store)
  {
    var key := PaymentKeyAt(s.promises[p].owner, s.promises[p].nonce);
    if cipher.Some? && key in s.store.rows {
      RewriteIsSound(s.store, key, s.store.rows[key].(cipher := cipher.value));
    }
  }

  lemma StoreStep(s: State, c: Call)
    requires StoreSound(s.store)
    ensures StoreSound(After(s, c).store)
  {
    if Step(s, c).None? {
      return;
    }
    match c
    case CallStore(caller, a, profile, cipher, access, vault, attached) =>
      StoreSecretIsSound(s, caller, caller, a, profile, cipher, access, vault, attached);
    case CallStoreAgent(agent, payer, a, profile, cipher, access, vault, attached) =>
      StoreSecretIsSound(s, agent, payer, a, profile, cipher, access, vault, attached);
    case CallDelete(caller, a, profile) => DeleteIsSound(s, KeyFor(a, profile, caller), caller);
    case CallDeleteAgent(agent, payer, a, profile) => DeleteIsSound(s, KeyFor(a, profile, agent), payer);
    case DeletionCallback(p, success) => OnDeletionIsSound(s, p, success);
    case CallUnbind(caller, a, profile) => UnbindIsSound(s, caller, a, profile);
    case CallUpdateAccess(caller, a, profile, access, attached) =>
      UpdateAccessIsSound(s, caller, a, profile, access, attached);
    case TopUpCallback(p, cipher) => OnTopUpIsSound(s, p, cipher);
    case _ =>
  }

  // ---- deposits ----

  /** A row's deposit covers the price of what it was last priced for, and is exactly that unless its
      binding was dropped since. Only a payment key's ciphertext is ever replaced without pricing it. */
  predicate Funded(st: Store, unbound: set<SecretKey>, key: SecretKey)
    requires key in st.rows
  {
    var row := st.rows[key];
    var price := Price(key, row.pricedLen, row.access, key in st.bindings);
    && row.deposit >= price && (key !in unbound ==> row.deposit == price)
    && (!key.accessor.PaymentKey? ==> row.pricedLen == |row.cipher|)
  }

  ghost predicate AllFunded(st: Store, unbound: set<SecretKey>) {
    forall key :: key in st.rows ==> Funded(st, unbound, key)
  }

  lemma StaysFunded(st: Store, unbound: set<SecretKey>, t: Store, unbound': set<SecretKey>, key: SecretKey)
    requires key in st.rows && Funded(st, unbound, key) && key in t.rows
    requires t.rows[key] == st.rows[key].(cipher := t.rows[key].cipher)
    requires t.rows[key].cipher == st.rows[key].cipher || key.accessor.PaymentKey?
    requires (key in t.bindings <==> key in st.bindings) && (key in unbound' <==> key in unbound)
    ensures Funded(t, unbound', key)
  {
  }

  /** Dropping a binding makes the row cheaper, never dearer. */
  lemma UnboundIsCheaper(key: SecretKey, cipherLen: nat, access: Condition)
    ensures Price(key, cipherLen, access, false) <= Price(key, cipherLen, access, true)
  {
    MulMonotone(StorageSize(key, cipherLen, access, false), StorageSize(key, cipherLen, access, true),
                STORAGE_PRICE_PER_BYTE, STORAGE_PRICE_PER_BYTE);
  }

  /** In every reachable state a row's deposit covers the row as it stands exactly when its ciphertext is
      no longer than the one that was priced; for a secret that is no payment key, always. A row whose
      binding was dropped may hold more. */
  lemma DepositCoversRow(s: State, key: SecretKey)
    requires Inv(s) && key in s.store.rows
    ensures var row := s.store.rows[key];
            var price := Price(key, |row.cipher|, row.access, key in s.store.bindings);
            && (key !in s.history.unbound ==> (row.deposit >= price <==> |row.cipher| <= row.pricedLen))
            && (!key.accessor.PaymentKey? ==> row.deposit >= price)
            && (|row.cipher| <= row.pricedLen ==> row.deposit >= price)
  {
    assert Funded(s.store, s.history.unbound, key);
  }

  lemma StoreIsFunded(s: State, owner: Account, payer: Account, a: Accessor, profile: string, cipher: string,
                      access: Condition, vault: Option<Account>, attached: nat)
    requires AllFunded(s.store, s.history.unbound)
    requires StoreSecret(s, owner, payer, a, profile, cipher, access, vault, attached).Some?
    ensures var t := StoreSecret(s, owner, payer, a, profile, cipher, access, vault, attached).value;
            AllFunded(t.store, t.history.unbound)
  {
    var t := StoreSecret(s, owner, payer, a, profile, cipher, access, vault, attached).value;
    var written := KeyFor(a, profile, owner);
    forall key | key in t.store.rows
      ensures Funded(t.store, t.history.unbound, key)
    {
      if key != written {
        StaysFunded(s.store, s.history.unbound, t.store, t.history.unbound, key);
      }
    }
  }

  lemma DeleteIsFunded(s: State, gone: SecretKey, refundTo: Account)
    requires AllFunded(s.store, s.history.unbound) && DeleteKey(s, gone, refundTo).Some?
    ensures var t := DeleteKey(s, gone, refundTo).value; AllFunded(t.store, t.history.unbound)
  {
    var t := DeleteKey(s, gone, refundTo).value;
    forall key | key in t.store.rows
      ensures Funded(t.store, t.history.unbound, key)
    {
      StaysFunded(s.store, s.history.unbound, t.store, t.history.unbound, key);
    }
  }

  lemma UnbindIsFunded(s: State, caller: Account, a: Accessor, profile: string)
    requires AllFunded(s.store, s.history.unbound) && Unbind(s, caller, a, profile).Some?
    ensures var t := Unbind(s, caller, a, profile).value; AllFunded(t.store, t.history.unbound)
  {
    var t := Unbind(s, caller, a, profile).value;
    var key := KeyFor(a, profile, caller);
    forall k | k in t.store.rows
      ensures Funded(t.store, t.history.unbound, k)
    {
      if k == key {
        UnboundIsCheaper(key, s.store.rows[key].pricedLen, s.store.rows[key].access);
        assert Funded(s.store, s.history.unbound, key);
      } else {
        StaysFunded(s.store, s.history.unbound, t.store, t.history.unbound, k);
      }
    }
  }

  lemma UpdateIsFunded(s: State, caller: Account, a: Accessor, profile: string, access: Condition, attached: nat)
    requires AllFunded(s.store, s.history.unbound) && UpdateAccess(s, caller, a, profile, access, attached).Some?
    ensures var t := UpdateAccess(s, caller, a, profile, access, attached).value;
            AllFunded(t.store, t.history.unbound)
  {
    var t := UpdateAccess(s, caller, a, profile, access, attached).value;
    var written := KeyFor(a, profile, caller);
    forall key | key in t.store.rows
      ensures Funded(t.store, t.history.unbound, key)
    {
      if key != written {
        StaysFunded(s.store, s.history.unbound, t.store, t.history.unbound, key);
      }
    }
  }

  lemma TopUpIsFunded(s: State, p: nat, cipher: Option<string>)
    requires AllFunded(s.store, s.history.unbound) && OnTopUp(s, p, cipher).Some?
    ensures var t := OnTopUp(s, p, cipher).value; AllFunded(t.store, t.history.unbound)
  {
    var t := OnTopUp(s, p, cipher).value;
    forall key | key in t.store.rows
      ensures Funded(t.store, t.history.unbound, key)
    {
      StaysFunded(s.store, s.history.unbound, t.store, t.history.unbound, key);
    }
  }

  lemma DeletionIsFunded(s: State, p: nat, success: bool)
    requires AllFunded(s.store, s.history.unbound) && OnDeletion(s, p, success).Some?
    ensures var t := OnDeletion(s, p, success).value; AllFunded(t.store, t.history.unbound)
  {
    var t := OnDeletion(s, p, success).value;
    forall key | key in t.store.rows
      ensures Funded(t.store, t.history.unbound, key)
    {
      StaysFunded(s.store, s.history.unbound, t.store, t.history.unbound, key);
    }
  }

  lemma FundedStep(s: State, c: Call)
    requires AllFunded(s.store, s.history.unbound)
    ensures AllFunded(After(s, c).store, After(s, c).history.unbound)
  {
    if Step(s, c).None? {
      return;
    }
    match c
    case CallStore(caller, a, profile, cipher, access, vault, attached) =>
      StoreIsFunded(s, caller, caller, a, profile, cipher, access, vault, attached);
    case CallStoreAgent(agent, payer, a, profile, cipher, access, vault, attached) =>
      StoreIsFunded(s, agent, payer, a, profile, cipher, access, vault, attached);
    case CallDelete(caller, a, profile) => DeleteIsFunded(s, KeyFor(a, profile, caller), caller);
    case CallDeleteAgent(agent, payer, a, profile) => DeleteIsFunded(s, KeyFor(a, profile, agent), payer);
    case CallUnbind(caller, a, profile) => UnbindIsFunded(s, caller, a, profile);
    case CallUpdateAccess(caller, a, profile, access, attached) =>
      UpdateIsFunded(s, caller, a, profile, access, attached);
    case TopUpCallback(p, cipher) => TopUpIsFunded(s, p, cipher);
    case DeletionCallback(p, success) => DeletionIsFunded(s, p, success);
    case _ =>
  }

  // ---- payment keys ----

  predicate Distinct(created: seq<(Account, nat)>) {
    forall i, j :: 0 <= i < j < |created| ==> created[i] != created[j]
  }

  /** Every payment key ever created was created once and is at or below its owner's floor, and every
      stored payment key is one of them, under the name its nonce gives it. */
  ghost predicate NoncesSound(st: Store, h: History) {
    && Distinct(h.created)
    && (forall i :: 0 <= i < |h.created| ==> h.created[i].1 <= Get(st.floors, h.created[i].0))
    && (forall key :: key in st.rows && key.accessor.PaymentKey? ==>
          ParseU32(key.profile).Some? && (key.owner, NonceOf(key)) in h.created)
  }

  /** A waiting top-up names a key that was created; if a row is there, it is the row it named. */
  ghost predicate TopUpsSound(s: State) {
    forall p :: p in s.promises && s.promises[p].TopUp? ==> NamesItsRow(s, s.promises[p])
  }

  predicate NamesItsRow(s: State, y: KeyPromise)
    requires y.TopUp?
  {
    var key := PaymentKeyAt(y.owner, y.nonce);
    && y.nonce <= U32_MAX && (y.owner, y.nonce) in s.history.created
    && (key in s.store.rows ==> s.store.rows[key].birth == y.birth)
  }

  lemma RaisedFloor(floors: map<Account, nat>, owner: Account, nonce: nat, a: Account)
    ensures Get(RaiseFloor(floors, owner, nonce), a) >= Get(floors, a)
    ensures Get(RaiseFloor(floors, owner, nonce), owner) >= nonce
  {
  }

  lemma AppendDistinct(created: seq<(Account, nat)>, c: (Account, nat))
    requires Distinct(created) && c !in created
    ensures Distinct(created + [c])
  {
  }

  lemma StoreNonces(s: State, owner: Account, payer: Account, a: Accessor, profile: string, cipher: string,
                    access: Condition, vault: Option<Account>, attached: nat)
    requires NoncesSound(s.store, s.history)
    requires StoreSecret(s, owner, payer, a, profile, cipher, access, vault, attached).Some?
    ensures var t := StoreSecret(s, owner, payer, a, profile, cipher, access, vault, attached).value;
            NoncesSound(t.store, t.history)
  {
    var key := KeyFor(a, profile, owner);
    var t := StoreSecret(s, owner, payer, a, profile, cipher, access, vault, attached).value;
    WriteNonces(s.store, s.history, key, t.store.rows[key], vault);
  }

  lemma WriteNonces(st: Store, h: History, key: SecretKey, row: Row, vault: Option<Account>)
    requires NoncesSound(st, h) && (key.accessor.PaymentKey? ==> ParseU32(key.profile).Some?) && NonceFree(st, key)
    ensures NoncesSound(StoreAt(st, key, row, vault), Recorded(h, key))
  {
    if key.accessor.PaymentKey? {
      var nonce := NonceOf(key);
      forall who: Account
        ensures Get(StoreAt(st, key, row, vault).floors, who) >= Get(st.floors, who)
      {
        RaisedFloor(st.floors, key.owner, nonce, who);
      }
      RaisedFloor(st.floors, key.owner, nonce, key.owner);
      AppendDistinct(h.created, (key.owner, nonce));
    }
  }

  lemma DeleteNonces(s: State, key: SecretKey, refundTo: Account)
    requires NoncesSound(s.store, s.history) && DeleteKey(s, key, refundTo).Some?
    ensures var t := DeleteKey(s, key, refundTo).value; NoncesSound(t.store, t.history)
  {
  }

  lemma DeletionNonces(s: State, p: nat, success: bool)
    requires NoncesSound(s.store, s.history) && OnDeletion(s, p, success).Some?
    ensures var t := OnDeletion(s, p, success).value; NoncesSound(t.store, t.history)
  {
    var y, t := s.promises[p], OnDeletion(s, p, success).value;
    forall who: Account
      ensures Get(t.store.floors, who) >= Get(s.store.floors, who)
    {
      RaisedFloor(s.store.floors, y.owner, y.nonce, who);
    }
  }

  lemma NoncesStep(s: State, c: Call)
    requires NoncesSound(s.store, s.history)
    ensures NoncesSound(After(s, c).store, After(s, c).history)
  {
    if Step(s, c).None? {
      return;
    }
    match c
    case CallStore(caller, a, profile, cipher, access, vault, attached) =>
      StoreNonces(s, caller, caller, a, profile, cipher, access, vault, attached);
    case CallStoreAgent(agent, payer, a, profile, cipher, access, vault, attached) =>
      StoreNonces(s, agent, payer, a, profile, cipher, access, vault, attached);
    case CallDelete(caller, a, profile) => DeleteNonces(s, KeyFor(a, profile, caller), caller);
    case CallDeleteAgent(agent, payer, a, profile) => DeleteNonces(s, KeyFor(a, profile, agent), payer);
    case DeletionCallback(p, success) => DeletionNonces(s, p, success);
    case _ =>
  }

  /** Two states between which a waiting top-up stays sound: creations are only added, and a payment-key
      row that is there afterwards was there before, or is a key created since. */
  ghost predicate KeysOnlyAge(s: State, t: State) {
    && (forall c :: c in s.history.created ==> c in t.history.created)
    && (forall key :: key in t.store.rows && key.accessor.PaymentKey? && ParseU32(key.profile).Some?
                      && (key.owner, NonceOf(key)) in s.history.created ==>
          key in s.store.rows && t.store.rows[key].birth == s.store.rows[key].birth)
  }

  lemma StillNamesItsRow(s: State, t: State, y: KeyPromise)
    requires y.TopUp? && NamesItsRow(s, y) && KeysOnlyAge(s, t)
    ensures NamesItsRow(t, y)
  {
    ParseShow(y.nonce);
  }

  lemma StoreAges(s: State, owner: Account, payer: Account, a: Accessor, profile: string, cipher: string,
                  access: Condition, vault: Option<Account>, attached: nat)
    requires NoncesSound(s.store, s.history)
    requires StoreSecret(s, owner, payer, a, profile, cipher, access, vault, attached).Some?
    ensures KeysOnlyAge(s, StoreSecret(s, owner, payer, a, profile, cipher, access, vault, attached).value)
  {
  }

  lemma StepAges(s: State, c: Call)
    requires NoncesSound(s.store, s.history)
    ensures KeysOnlyAge(s, After(s, c))
  {
    if Step(s, c).None? {
      return;
    }
    match c
    case CallStore(caller, a, profile, cipher, access, vault, attached) =>
      StoreAges(s, caller, caller, a, profile, cipher, access, vault, attached);
    case CallStoreAgent(agent, payer, a, profile, cipher, access, vault, attached) =>
      StoreAges(s, agent, payer, a, profile, cipher, access, vault, attached);
    case _ => OthersAddNothing(s, c);
  }

  /** No other call creates a payment key or adds a row. */
  lemma OthersAddNothing(s: State, c: Call)
    requires !c.CallStore? && !c.CallStoreAgent?
    ensures After(s, c).history.created == s.history.created
    ensures forall key :: key in After(s, c).store.rows ==>
              key in s.store.rows && After(s, c).store.rows[key].birth == s.store.rows[key].birth
  {
  }

  lemma NewTopUpNamesItsRow(s: State, owner: Account, amount: nat, nonce: nat)
    requires NoncesSound(s.store, s.history) && StoreSound(s.store) && RequestTopUp(s, owner, amount, nonce).Some?
    ensures NamesItsRow(s, TopUp(owner, nonce, amount, s.store.rows[PaymentKeyAt(owner, nonce)].birth))
  {
    var key := PaymentKeyAt(owner, nonce);
    assert ParseU32(key.profile).Some?;
    ShownNonce(nonce);
  }

  /** A printed number that parses is the number that was printed. */
  lemma ShownNonce(nonce: nat)
    requires ParseU32(Show(nonce)).Some?
    ensures ParseU32(Show(nonce)) == Some(nonce) && nonce <= U32_MAX
  {
    assert IsDigit(Show(nonce)[0]);
  }

  lemma TopUpsStep(s: State, c: Call)
    requires NoncesSound(s.store, s.history) && StoreSound(s.store) && TopUpsSound(s)
    ensures TopUpsSound(After(s, c))
  {
    var t := After(s, c);
    StepAges(s, c);
    forall p | p in t.promises && t.promises[p].TopUp?
      ensures NamesItsRow(t, t.promises[p])
    {
      if p in s.promises && t.promises[p] == s.promises[p] {
        StillNamesItsRow(s, t, s.promises[p]);
      } else {
        NewTopUpNamesItsRow(s, c.owner, c.amount, c.nonce);
      }
    }
  }

  // ---- NEAR ----

  function DepositsOf(rows: map<SecretKey, Row>): map<SecretKey, nat> {
    map key | key in rows :: rows[key].deposit
  }

  /** What was taken in is held against rows, kept for good, or paid out. */
  ghost predicate Accounted(st: Store, p: Purse, t: Till) {
    Sum(DepositsOf(st.rows)) + t.kept + Sum(p.paid) == p.paidIn
  }

  lemma DepositsAfterWrite(rows: map<SecretKey, Row>, key: SecretKey, row: Row)
    ensures Sum(DepositsOf(rows[key := row]))
         == Sum(DepositsOf(rows)) - (if key in rows then rows[key].deposit else 0) + row.deposit
  {
    assert DepositsOf(rows[key := row]) == DepositsOf(rows)[key := row.deposit];
    SumUpdate(DepositsOf(rows), key, row.deposit);
  }

  lemma DepositsAfterRemoval(rows: map<SecretKey, Row>, key: SecretKey)
    requires key in rows
    ensures Sum(DepositsOf(rows - {key})) == Sum(DepositsOf(rows)) - rows[key].deposit
  {
    assert DepositsOf(rows - {key}) == DepositsOf(rows) - {key};
    SumWithout(DepositsOf(rows), key);
  }

  lemma StoreAccounts(s: State, owner: Account, payer: Account, a: Accessor, profile: string, cipher: string,
                      access: Condition, vault: Option<Account>, attached: nat)
    requires Accounted(s.store, s.purse, s.till)
    requires StoreSecret(s, owner, payer, a, profile, cipher, access, vault, attached).Some?
    ensures var t := StoreSecret(s, owner, payer, a, profile, cipher, access, vault, attached).value;
            Accounted(t.store, t.purse, t.till)
  {
    var key := KeyFor(a, profile, owner);
    var price := Price(key, |cipher|, access, vault.Some? || key in s.store.bindings);
    PutAccounts(s, key, payer, cipher, access, vault, price, attached);
  }

  lemma PutAccounts(s: State, key: SecretKey, payer: Account, cipher: string, access: Condition,
                    vault: Option<Account>, price: nat, attached: nat)
    requires key.accessor.PaymentKey? ==> ParseU32(key.profile).Some?
    requires Accounted(s.store, s.purse, s.till) && Put(s, key, payer, cipher, access, vault, price, attached).Some?
    ensures var t := Put(s, key, payer, cipher, access, vault, price, attached).value;
            Accounted(t.store, t.purse, t.till)
  {
    var t := Put(s, key, payer, cipher, access, vault, price, attached).value;
    DepositsAfterWrite(s.store.rows, key, t.store.rows[key]);
    MovePays(s.purse, attached, payer, attached + HeldFor(s.store, key) - Charged(s.store, key, price));
  }

  lemma DeleteAccounts(s: State, key: SecretKey, refundTo: Account)
    requires Accounted(s.store, s.purse, s.till) && DeleteKey(s, key, refundTo).Some?
    ensures var t := DeleteKey(s, key, refundTo).value; Accounted(t.store, t.purse, t.till)
  {
    DepositsAfterRemoval(s.store.rows, key);
    MovePays(s.purse, 0, refundTo, s.store.rows[key].deposit);
  }

  lemma UpdateAccounts(s: State, caller: Account, a: Accessor, profile: string, access: Condition, attached: nat)
    requires Accounted(s.store, s.purse, s.till) && UpdateAccess(s, caller, a, profile, access, attached).Some?
    ensures var t := UpdateAccess(s, caller, a, profile, access, attached).value; Accounted(t.store, t.purse, t.till)
  {
    var key := KeyFor(a, profile, caller);
    var price := Price(key, |s.store.rows[key].cipher|, access, key in s.store.bindings);
    RepriceAccounts(s, key, caller, access, price, attached);
  }

  lemma RepriceAccounts(s: State, key: SecretKey, caller: Account, access: Condition, price: nat, attached: nat)
    requires Accounted(s.store, s.purse, s.till) && key in s.store.rows
    requires Reprice(s, key, caller, access, price, attached).Some?
    ensures var t := Reprice(s, key, caller, access, price, attached).value; Accounted(t.store, t.purse, t.till)
  {
    var row := s.store.rows[key];
    DepositsAfterWrite(s.store.rows, key, row.(pricedLen := |row.cipher|, access := access, deposit := price));
    MovePays(s.purse, attached, caller, attached + row.deposit - price);
  }

  lemma TopUpAccounts(s: State, p: nat, cipher: Option<string>)
    requires Accounted(s.store, s.purse, s.till) && OnTopUp(s, p, cipher).Some?
    ensures var t := OnTopUp(s, p, cipher).value; Accounted(t.store, t.purse, t.till)
  {
    assert DepositsOf(OnTopUp(s, p, cipher).value.store.rows) == DepositsOf(s.store.rows);
  }

  lemma DeletionAccounts(s: State, p: nat, success: bool)
    requires Accounted(s.store, s.purse, s.till) && OnDeletion(s, p, success).Some?
    ensures var t := OnDeletion(s, p, success).value; Accounted(t.store, t.purse, t.till)
  {
    var y := s.promises[p];
    var spent := s.(promises := s.promises - {p});
    var key := PaymentKeyAt(y.owner, y.nonce);
    if key in s.store.rows {
      DeleteAccounts(spent, key, y.owner);
    }
  }

  lemma AccountedStep(s: State, c: Call)
    requires Accounted(s.store, s.purse, s.till)
    ensures Accounted(After(s, c).store, After(s, c).purse, After(s, c).till)
  {
    if Step(s, c).None? {
      return;
    }
    match c
    case CallStore(caller, a, profile, cipher, access, vault, attached) =>
      StoreAccounts(s, caller, caller, a, profile, cipher, access, vault, attached);
    case CallStoreAgent(agent, payer, a, profile, cipher, access, vault, attached) =>
      StoreAccounts(s, agent, payer, a, profile, cipher, access, vault, attached);
    case CallDelete(caller, a, profile) => DeleteAccounts(s, KeyFor(a, profile, caller), caller);
    case CallDeleteAgent(agent, payer, a, profile) => DeleteAccounts(s, KeyFor(a, profile, agent), payer);
    case CallUpdateAccess(caller, a, profile, access, attached) =>
      UpdateAccounts(s, caller, a, profile, access, attached);
    case TopUpCallback(p, cipher) => TopUpAccounts(s, p, cipher);
    case DeletionCallback(p, success) => DeletionAccounts(s, p, success);
    case _ =>
  }

  // ---- every run ----

  ghost predicate Inv(s: State) {
    && StoreSound(s.store) && AllFunded(s.store, s.history.unbound) && Accounted(s.store, s.purse, s.till)
    && NoncesSound(s.store, s.history) && TopUpsSound(s)
    && (forall p :: p in s.promises ==> p < s.nextPromise)
  }

  lemma PromisesStep(s: State, c: Call)
    requires forall p :: p in s.promises ==> p < s.nextPromise
    ensures forall p :: p in After(s, c).promises ==> p < After(s, c).nextPromise
  {
  }

  lemma StepInv(s: State, c: Call)
    requires Inv(s)
    ensures Inv(After(s, c))
  {
    StoreStep(s, c);
    FundedStep(s, c);
    AccountedStep(s, c);
    NoncesStep(s, c);
    TopUpsStep(s, c);
    PromisesStep(s, c);
  }

  /** On every run from an empty registry: each owner's index is exactly the stored keys of that owner
      and never empty, every binding has a row, every key is canonical and every condition bounded,
      every deposit is the price of what it was last computed for, or more once a binding was dropped, all
      NEAR is accounted for, and no (owner, nonce) payment key was
      created twice. */
  lemma {:induction false} RunInv(s: State, calls: seq<Call>)
    requires Inv(s)
    ensures Inv(Run(s, calls))
    decreases |calls|
  {
    if calls != [] {
      StepInv(s, calls[0]);
      RunInv(After(s, calls[0]), calls[1..]);
    }
  }

  lemma InitInv(s: State)
    requires s == Init()
    ensures Inv(s)
  {
    assert DepositsOf(s.store.rows) == map[];
    assert OwnersOf(s.store.rows) == map[];
    assert IndexExact(s.store) && RowsSound(s.store);
    assert NoncesSound(s.store, s.history);
  }

  /** From `new`, no payment key is ever created twice, whichever way it was deleted in between. */
  lemma NoncesAreNeverReused(s: State, calls: seq<Call>, i: nat, j: nat)
    requires s == Init() && i < j < |Run(s, calls).history.created|
    ensures Run(s, calls).history.created[i] != Run(s, calls).history.created[j]
  {
    InitInv(s);
    RunInv(s, calls);
  }

  /** A top-up's callback either replaces the ciphertext of the very row the transfer named and keeps
      all its tokens, or changes no row and returns all of them. */
  lemma TopUpReachesItsKey(s: State, p: nat, cipher: Option<string>)
    requires Inv(s) && p in s.promises && s.promises[p].TopUp?
    ensures var t := OnTopUp(s, p, cipher).value;
            var y := s.promises[p];
            var key := PaymentKeyAt(y.owner, y.nonce);
            if cipher.Some? && key in s.store.rows then
              && s.store.rows[key].birth == y.birth
              && t.store == s.store.(rows := s.store.rows[key := s.store.rows[key].(cipher := cipher.value)])
              && t.purse == s.purse && t.till == s.till.(tokensKept := s.till.tokensKept + y.amount)
            else
              && t.store == s.store
              && t.purse == s.purse && t.till == s.till.(tokensRefunded := s.till.tokensRefunded + y.amount)
  {
    assert NamesItsRow(s, s.promises[p]);
  }

  /** A nonce is free exactly above its owner's floor: no separate look at the live keys is needed. */
  lemma NonceFreeAboveFloor(s: State, owner: Account, nonce: nat)
    requires Inv(s) && nonce <= U32_MAX
    ensures ParseU32(Show(nonce)) == Some(nonce)
    ensures NonceFree(s.store, PaymentKeyAt(owner, nonce)) <==> nonce > Get(s.store.floors, owner)
  {
    ParseShow(nonce);
    var key := PaymentKeyAt(owner, nonce);
    if key in s.store.rows {
      assert (owner, nonce) in s.history.created;
    }
  }

  /** The nonce passes the checks a store makes of it. */
  predicate CanTake(st: Store, owner: Account, nonce: nat) {
    Shaped(PaymentKey, Show(nonce)) && NonceFree(st, PaymentKeyAt(owner, nonce))
  }

  /** In every reachable state an owner can take exactly the nonces above the floor and within 31 bits. */
  lemma TakenAboveFloor(s: State, owner: Account, nonce: nat)
    requires Inv(s)
    ensures CanTake(s.store, owner, nonce) <==> Get(s.store.floors, owner) < nonce <= I32_MAX
  {
    if nonce <= U32_MAX {
      NonceFreeAboveFloor(s, owner, nonce);
    } else if ParseU32(Show(nonce)).Some? {
      ShownNonce(nonce);
    }
  }

  // ---- the last nonce ----

  /** A number below a power of ten has no more digits than that power. */
  lemma {:induction false} ShowIsShort(n: nat, bound: nat, digits: nat)
    requires digits >= 1 && n < bound && bound == TenTo(digits)
    ensures |Show(n)| <= digits
    decreases digits
  {
    if n >= 10 {
      ShowIsShort(n / 10, TenTo(digits - 1), digits - 1);
    }
  }

  function TenTo(k: nat): nat {
    if k == 0 then 1 else 10 * TenTo(k - 1)
  }

  lemma LastNonceIsShort(last: nat)
    requires last == I32_MAX
    ensures |Show(last)| <= 10
  {
    assert TenTo(5) == 100_000;
    assert TenTo(10) == 10_000_000_000;
    ShowIsShort(last, TenTo(10), 10);
  }

  /** The key of the last nonce is one the contract stores. */
  lemma LastKeyIsStorable(owner: Account, last: nat, cipher: string, projects: set<string>)
    requires last == I32_MAX && cipher != []
    ensures KeyFor(PaymentKey, Show(last), owner) == PaymentKeyAt(owner, last) && ParseU32(Show(last)) == Some(last)
    ensures Storable(PaymentKeyAt(owner, last), cipher, AllowAll, projects)
  {
    ParseShow(last);
    LastNonceIsShort(last);
    assert forall i :: 0 <= i < |Show(last)| ==> IsDigit(Show(last)[i]);
  }

  /** A first key is stored for its price and the floor entry's, and raises the floor to its nonce. */
  lemma FirstKeyRaisesFloor(s: State, key: SecretKey, cipher: string, price: nat, attached: nat)
    requires s.store == Store(map[], map[], map[], map[]) && key.accessor.PaymentKey? && ParseU32(key.profile).Some?
    requires attached >= Charged(s.store, key, price)
    ensures var t := Put(s, key, key.owner, cipher, AllowAll, None, price, attached);
            t.Some? && t.value.store.floors == map[key.owner := NonceOf(key)]
  {
  }

  function FirstKeyPrice(owner: Account, nonce: nat, cipher: string): nat {
    var st := Store(map[], map[], map[], map[]);
    Charged(st, PaymentKeyAt(owner, nonce), Price(PaymentKeyAt(owner, nonce), |cipher|, AllowAll, false))
  }

  lemma NoneAboveTheLast(s: State, owner: Account)
    requires Inv(s) && Get(s.store.floors, owner) == I32_MAX
    ensures forall nonce: nat :: !CanTake(s.store, owner, nonce)
  {
    forall nonce: nat
      ensures !CanTake(s.store, owner, nonce)
    {
      TakenAboveFloor(s, owner, nonce);
    }
  }

  lemma LastKeyIsStored(s: State, owner: Account, last: nat, cipher: string, attached: nat)
    requires s == Init() && last == I32_MAX && cipher != [] && attached >= FirstKeyPrice(owner, last, cipher)
    ensures var t := StoreSecret(s, owner, owner, PaymentKey, Show(last), cipher, AllowAll, None, attached);
            t.Some? && t.value.store.floors == map[owner := last]
  {
    var key := PaymentKeyAt(owner, last);
    LastKeyIsStorable(owner, last, cipher, s.projects);
    FirstKeyRaisesFloor(s, key, cipher, Price(key, |cipher|, AllowAll, false), attached);
  }

  lemma FirstStepInv(s: State, c: Call)
    requires s == Init()
    ensures Inv(After(s, c))
  {
    InitInv(s);
    StepInv(s, c);
  }

  /** A run that uses an owner's nonces up: one key, of the last nonce, and none can be taken after it. */
  lemma NoncesRunOut(s: State, owner: Account, last: nat, cipher: string, attached: nat, c: Call, t: State)
    requires s == Init() && last == I32_MAX && cipher != [] && attached >= FirstKeyPrice(owner, last, cipher)
    requires c == CallStore(owner, PaymentKey, Show(last), cipher, AllowAll, None, attached) && t == After(s, c)
    ensures Step(s, c) == Some(t) && Get(t.store.floors, owner) == last
    ensures forall nonce: nat :: !CanTake(t.store, owner, nonce)
  {
    LastKeyIsStored(s, owner, last, cipher, attached);
    FirstStepInv(s, c);
    NoneAboveTheLast(t, owner);
  }
}
