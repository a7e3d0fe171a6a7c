/** What each call on the secrets registry does, in its caller's terms: when it is accepted, what the row holds
    afterwards, that nothing else moved, and who is paid how much. */
module SecretsEffects {
  import opened Options
  import opened Sums
  import opened Numerals
  import opened Charges
  import opened Conditions
  import opened ConditionText
  import opened Indexes
  import opened Purses
  import opened Secrets

  // ---- prices ----

  /** Every stored byte is charged once: of the ciphertext, of the printed condition, of the key; a binding
      charges the key again with its own record. */
  lemma SizeLaws(key: SecretKey, n: nat, access: Condition, bound: bool)
    ensures StorageSize(key, n + 1, access, bound) == StorageSize(key, n, access, bound) + 1
    ensures StorageSize(key, n, access, true) == StorageSize(key, n, access, false) + 108 + KeySize(key)
    ensures StorageSize(key, 0, access, false) == 150 + KeySize(key) + |PrintCondition(access)|
  {
  }

  /** 10^19 yocto for each byte. */
  lemma PriceIsByTheByte(key: SecretKey, n: nat, access: Condition, bound: bool)
    ensures Price(key, n, access, bound) == StorageSize(key, n, access, bound) * 10_000_000_000_000_000_000
  {
  }

  /** What one more byte of a name costs. */
  lemma KeySizeLaws(key: SecretKey, c: char)
    ensures KeySize(key.(profile := key.profile + [c])) == KeySize(key) + 1
    ensures KeySize(key.(owner := key.owner + [c])) == KeySize(key) + 1
    ensures key.accessor.Wasm? ==>
              KeySize(key.(accessor := Wasm(key.accessor.hash + [c]))) == KeySize(key) + 1
    ensures key.accessor.OfProject? ==>
              KeySize(key.(accessor := OfProject(key.accessor.id + [c]))) == KeySize(key) + 1
    ensures key.accessor.Repo? ==>
              KeySize(key.(accessor := key.accessor.(repo := key.accessor.repo + [c]))) == KeySize(key) + 1
    ensures key.accessor.Repo? && key.accessor.branch.None? ==>
              KeySize(key.(accessor := key.accessor.(branch := Some([c])))) == KeySize(key) + 5
    ensures KeySize(SecretKey(PaymentKey, [], [])) == 10
    ensures KeySize(SecretKey(Wasm([]), [], [])) == KeySize(SecretKey(OfProject([]), [], [])) == 13
    ensures KeySize(SecretKey(Repo([], None), [], [])) == 14
  {
  }

  // ---- store_secrets ----

  predicate IsAnyHex(c: char) {
    '0' <= c <= '9' || 'a' <= c <= 'f' || 'A' <= c <= 'F'
  }

  /** The accessor and profile a store takes, in the caller's spelling. */
  predicate Takes(a: Accessor, profile: string, projects: set<string>) {
    match a
    case Repo(repo, branch) => repo != [] && (branch.Some? ==> 1 <= |branch.value| <= 255)
    case Wasm(hash) => |hash| == 64 && forall i :: 0 <= i < 64 ==> IsAnyHex(hash[i])
    case OfProject(id) => id in projects && '/' in id
    case PaymentKey => ParseU32(profile).Some? && 1 <= ParseU32(profile).value <= 0x7fff_ffff
  }

  lemma ShapeIsTheCallers(a: Accessor, profile: string, owner: Account, projects: set<string>)
    ensures var key := KeyFor(a, profile, owner);
            ValidAccessor(key.accessor, key.profile, projects) <==> Takes(a, profile, projects)
  {
    if a.Wasm? {
      assert forall i :: 0 <= i < |a.hash| ==> (IsHex(ToLower(a.hash[i])) <==> IsAnyHex(a.hash[i]));
    } else if a.PaymentKey? && ParseU32(profile).Some? {
      ParseShow(ParseU32(profile).value);
    }
  }

  /** A profile that is not a payment key's is kept as it was spelt. */
  lemma ProfileIsKept(a: Accessor, profile: string, owner: Account)
    ensures KeyFor(a, profile, owner).owner == owner
    ensures !a.PaymentKey? ==> KeyFor(a, profile, owner).profile == profile
    ensures !a.Wasm? ==> KeyFor(a, profile, owner).accessor == a
    ensures a.PaymentKey? && ParseU32(profile).Some? ==>
              KeyFor(a, profile, owner) == PaymentKeyAt(owner, ParseU32(profile).value)
  {
  }

  /** The checks a store makes, in plain terms. */
  lemma StorableExactly(a: Accessor, profile: string, owner: Account, cipher: string, access: Condition,
                        projects: set<string>)
    ensures var key := KeyFor(a, profile, owner);
            Storable(key, cipher, access, projects) <==>
            && WithinBounds(access) && Takes(a, profile, projects) && IsProfile(key.profile) && cipher != []
            && (!IsLowerHex64(key.profile) || key.profile == owner)
  {
    ShapeIsTheCallers(a, profile, owner, projects);
  }

  /** What a store must have at hand: the row's new price and, with an owner's first payment key, the bytes
      of the floor entry it leaves for good. */
  function Due(s: State, key: SecretKey, cipher: string, access: Condition, vault: Option<Account>): nat {
    Price(key, |cipher|, access, vault.Some? || key in s.store.bindings) + Entrance(s.store, key)
  }

  function Entrance(st: Store, key: SecretKey): nat {
    if key.accessor.PaymentKey? && key !in st.rows && key.owner !in st.floors
    then (49 + |key.owner|) * STORAGE_PRICE_PER_BYTE else 0
  }

  /** Accepted exactly when it passes the checks, takes no used nonce and brings what is due beyond what the
      row already holds. */
  lemma StoreNeeds(s: State, owner: Account, payer: Account, a: Accessor, profile: string, cipher: string,
                   access: Condition, vault: Option<Account>, attached: nat)
    ensures var key := KeyFor(a, profile, owner);
            StoreSecret(s, owner, payer, a, profile, cipher, access, vault, attached).Some? <==>
            && Storable(key, cipher, access, s.projects) && NonceFree(s.store, key)
            && attached + HeldFor(s.store, key) >= Due(s, key, cipher, access, vault)
  {
    var key := KeyFor(a, profile, owner);
    if Storable(key, cipher, access, s.projects) && NonceFree(s.store, key) {
      PutPricedNeeds(s, key, payer, cipher, access, vault, attached);
    }
  }

  lemma PutPricedNeeds(s: State, key: SecretKey, payer: Account, cipher: string, access: Condition,
                       vault: Option<Account>, attached: nat)
    requires key.accessor.PaymentKey? ==> ParseU32(key.profile).Some?
    ensures PutPriced(s, key, payer, cipher, access, vault, attached).Some? <==>
            attached + HeldFor(s.store, key) >= Due(s, key, cipher, access, vault)
  {
    var price := Price(key, |cipher|, access, vault.Some? || key in s.store.bindings);
    PutNeeds(s, key, payer, cipher, access, vault, price, attached);
  }

  lemma PutNeeds(s: State, key: SecretKey, payer: Account, cipher: string, access: Condition,
                 vault: Option<Account>, price: nat, attached: nat)
    requires key.accessor.PaymentKey? ==> ParseU32(key.profile).Some?
    ensures Put(s, key, payer, cipher, access, vault, price, attached).Some? <==>
            attached + HeldFor(s.store, key) >= price + Entrance(s.store, key)
  {
    ChargedIsDue(s.store, key, price);
  }

  lemma ChargedIsDue(st: Store, key: SecretKey, price: nat)
    ensures Charged(st, key, price) == price + Entrance(st, key)
  {
  }

  /** No row but this one, no binding but this one, nobody else's floor. */
  ghost predicate OnlyAt(st: Store, t: Store, key: SecretKey) {
    && st.rows - {key} == t.rows - {key} && st.bindings - {key} == t.bindings - {key}
    && (forall o :: o != key.owner ==> ItemsOf(t.index, o) == ItemsOf(st.index, o))
    && (forall o :: o != key.owner ==> Get(t.floors, o) == Get(st.floors, o))
  }

  /** The row that is written. */
  ghost predicate Holds(s: State, t: State, key: SecretKey, cipher: string, access: Condition,
                        vault: Option<Account>, price: nat) {
    && key in t.store.rows && key in ItemsOf(t.store.index, key.owner)
    && t.store.rows[key].cipher == cipher && t.store.rows[key].access == access && t.store.rows[key].deposit == price
    && (key in s.store.rows ==>
          t.store.rows[key].birth == s.store.rows[key].birth && t.store.index == s.store.index)
    && (key !in s.store.rows ==> t.store.rows[key].birth == s.nextBirth && t.nextBirth == s.nextBirth + 1)
    && (vault.Some? ==> key in t.store.bindings && t.store.bindings[key] == vault.value)
    && (vault.None? ==> t.store.bindings == s.store.bindings)
  }

  lemma PutHolds(s: State, key: SecretKey, payer: Account, cipher: string, access: Condition,
                 vault: Option<Account>, price: nat, attached: nat)
    requires key.accessor.PaymentKey? ==> ParseU32(key.profile).Some?
    requires Put(s, key, payer, cipher, access, vault, price, attached).Some?
    requires key in s.store.rows ==> key in ItemsOf(s.store.index, key.owner)
    ensures var t := Put(s, key, payer, cipher, access, vault, price, attached).value;
            Holds(s, t, key, cipher, access, vault, price) && OnlyAt(s.store, t.store, key)
  {
  }

  /** The floor of a payment key's owner rises to its nonce; nothing else makes one rise. */
  lemma PutFloors(s: State, key: SecretKey, payer: Account, cipher: string, access: Condition,
                  vault: Option<Account>, price: nat, attached: nat)
    requires key.accessor.PaymentKey? ==> ParseU32(key.profile).Some?
    requires Put(s, key, payer, cipher, access, vault, price, attached).Some?
    ensures var t := Put(s, key, payer, cipher, access, vault, price, attached).value;
            var low, high := Get(s.store.floors, key.owner), Get(t.store.floors, key.owner);
            && (key.accessor.PaymentKey? ==> high == if NonceOf(key) > low then NonceOf(key) else low)
            && (!key.accessor.PaymentKey? ==> high == low)
  {
  }

  lemma PutPays(s: State, key: SecretKey, payer: Account, cipher: string, access: Condition,
                vault: Option<Account>, price: nat, attached: nat)
    requires key.accessor.PaymentKey? ==> ParseU32(key.profile).Some?
    requires Put(s, key, payer, cipher, access, vault, price, attached).Some?
    ensures var t := Put(s, key, payer, cipher, access, vault, price, attached).value;
            var due := price + Entrance(s.store, key);
            && attached + HeldFor(s.store, key) >= due
            && Pays(s.purse, t.purse, attached, payer, attached + HeldFor(s.store, key) - due)
            && t.till == s.till.(kept := s.till.kept + Entrance(s.store, key))
            && t.projects == s.projects && t.promises == s.promises && t.nextPromise == s.nextPromise
  {
    ChargedIsDue(s.store, key, price);
    MovePaysOne(s.purse, attached, payer, attached + HeldFor(s.store, key) - Charged(s.store, key, price));
  }

  /** A store writes the ciphertext, the condition and the vault it was given under the owner's key, keeps the
      row's birth if there was one, and touches no other row, binding or floor. */
  lemma StoreWrites(s: State, owner: Account, payer: Account, a: Accessor, profile: string, cipher: string,
                    access: Condition, vault: Option<Account>, attached: nat)
    requires SecretsIndexed(s.store)
    requires StoreSecret(s, owner, payer, a, profile, cipher, access, vault, attached).Some?
    ensures var key := KeyFor(a, profile, owner);
            var t := StoreSecret(s, owner, payer, a, profile, cipher, access, vault, attached).value;
            var price := Price(key, |cipher|, access, vault.Some? || key in s.store.bindings);
            Holds(s, t, key, cipher, access, vault, price) && OnlyAt(s.store, t.store, key)
  {
    var key := KeyFor(a, profile, owner);
    var price := Price(key, |cipher|, access, vault.Some? || key in s.store.bindings);
    PutHolds(s, key, payer, cipher, access, vault, price, attached);
  }

  ghost predicate SecretsIndexed(st: Store) {
    forall key :: key in st.rows ==> key in ItemsOf(st.index, key.owner)
  }

  /** The payer, and nobody else, is repaid exactly what the row held and the call brought beyond what is
      due; only a floor entry is kept. */
  lemma StorePays(s: State, owner: Account, payer: Account, a: Accessor, profile: string, cipher: string,
                  access: Condition, vault: Option<Account>, attached: nat)
    requires StoreSecret(s, owner, payer, a, profile, cipher, access, vault, attached).Some?
    ensures var key := KeyFor(a, profile, owner);
            var t := StoreSecret(s, owner, payer, a, profile, cipher, access, vault, attached).value;
            var atHand, due := attached + HeldFor(s.store, key), Due(s, key, cipher, access, vault);
            && atHand >= due && Pays(s.purse, t.purse, attached, payer, atHand - due)
            && t.till == s.till.(kept := s.till.kept + Entrance(s.store, key))
            && t.projects == s.projects && t.promises == s.promises && t.nextPromise == s.nextPromise
  {
    var key := KeyFor(a, profile, owner);
    var price := Price(key, |cipher|, access, vault.Some? || key in s.store.bindings);
    PutPays(s, key, payer, cipher, access, vault, price, attached);
  }

  /** A first payment key raises its owner's floor to its nonce. */
  lemma StoreRaisesTheFloor(s: State, owner: Account, payer: Account, a: Accessor, profile: string, cipher: string,
                            access: Condition, vault: Option<Account>, attached: nat)
    requires StoreSecret(s, owner, payer, a, profile, cipher, access, vault, attached).Some?
    ensures var t := StoreSecret(s, owner, payer, a, profile, cipher, access, vault, attached).value;
            && (a.PaymentKey? ==>
                  ParseU32(profile).Some? && Get(t.store.floors, owner) == ParseU32(profile).value
                  && Get(s.store.floors, owner) < ParseU32(profile).value)
            && (!a.PaymentKey? ==> Get(t.store.floors, owner) == Get(s.store.floors, owner))
  {
    var key := KeyFor(a, profile, owner);
    var price := Price(key, |cipher|, access, vault.Some? || key in s.store.bindings);
    ProfileIsKept(a, profile, owner);
    if a.PaymentKey? {
      ShapeIsTheCallers(a, profile, owner, s.projects);
      ParseShow(ParseU32(profile).value);
    }
    PutFloors(s, key, payer, cipher, access, vault, price, attached);
  }

  // ---- the agent's doors ----

  predicate AgentMay(agent: Account, a: Accessor, profile: string) {
    (a.Wasm? || a.OfProject?) && IsLowerHex64(agent) && ':' !in profile
  }

  /** A signed store writes under the signer's implicit account and answers to the payer; a plain one does
      both for its caller. */
  lemma StoreDoors(s: State, agent: Account, payer: Account, a: Accessor, profile: string, cipher: string,
                   access: Condition, vault: Option<Account>, attached: nat)
    ensures Step(s, CallStoreAgent(agent, payer, a, profile, cipher, access, vault, attached)) ==
            if !AgentMay(agent, a, profile) then None
            else StoreSecret(s, agent, payer, a, profile, cipher, access, vault, attached)
    ensures Step(s, CallStore(payer, a, profile, cipher, access, vault, attached)) ==
            StoreSecret(s, payer, payer, a, profile, cipher, access, vault, attached)
  {
  }

  lemma DeleteDoors(s: State, agent: Account, payer: Account, a: Accessor, profile: string)
    ensures Step(s, CallDeleteAgent(agent, payer, a, profile)) ==
            if AgentMay(agent, a, profile) then DeleteKey(s, KeyFor(a, profile, agent), payer) else None
    ensures Step(s, CallDelete(payer, a, profile)) == DeleteKey(s, KeyFor(a, profile, payer), payer)
  {
  }

  // ---- delete_secrets ----

  /** A delete takes the row, its index entry and its binding away, pays its whole deposit to the one account
      named, and leaves every other row, every floor and every promise alone. */
  lemma DeleteRemoves(s: State, key: SecretKey, refundTo: Account)
    ensures DeleteKey(s, key, refundTo).Some? <==> key in s.store.rows
    ensures DeleteKey(s, key, refundTo).Some? ==>
              var t := DeleteKey(s, key, refundTo).value;
              && key !in t.store.rows && key !in t.store.bindings && key !in ItemsOf(t.store.index, key.owner)
              && OnlyAt(s.store, t.store, key) && t.store.floors == s.store.floors
              && Pays(s.purse, t.purse, 0, refundTo, s.store.rows[key].deposit)
              && t.till == s.till && t.promises == s.promises
  {
    if key in s.store.rows {
      MovePaysOne(s.purse, 0, refundTo, s.store.rows[key].deposit);
    }
  }

  // ---- unbind_secret_vault ----

  /** Unbinding an existing row drops its binding and nothing else; the deposit stays with the row. */
  lemma UnbindDrops(s: State, caller: Account, a: Accessor, profile: string)
    ensures Unbind(s, caller, a, profile).Some? <==> KeyFor(a, profile, caller) in s.store.rows
    ensures Unbind(s, caller, a, profile).Some? ==>
              var key, t := KeyFor(a, profile, caller), Unbind(s, caller, a, profile).value;
              && key !in t.store.bindings && t.store.bindings - {key} == s.store.bindings - {key}
              && t.store.rows == s.store.rows && t.store.index == s.store.index && t.store.floors == s.store.floors
              && t.purse == s.purse && t.till == s.till && t.promises == s.promises
  {
  }

  // ---- update_access ----

  lemma RepriceWrites(s: State, key: SecretKey, caller: Account, access: Condition, price: nat, attached: nat)
    requires key in s.store.rows && Reprice(s, key, caller, access, price, attached).Some?
    ensures var row, t := s.store.rows[key], Reprice(s, key, caller, access, price, attached).value;
            && key in t.store.rows && t.store.rows[key].access == access
            && t.store.rows[key].cipher == row.cipher && t.store.rows[key].birth == row.birth
            && t.store.rows[key].deposit == price && t.store.rows - {key} == s.store.rows - {key}
            && t.store.bindings == s.store.bindings && t.store.index == s.store.index
            && t.store.floors == s.store.floors
  {
  }

  lemma RepricePays(s: State, key: SecretKey, caller: Account, access: Condition, price: nat, attached: nat)
    requires key in s.store.rows
    ensures Reprice(s, key, caller, access, price, attached).Some? <==>
            attached + s.store.rows[key].deposit >= price
    ensures Reprice(s, key, caller, access, price, attached).Some? ==>
              var row, t := s.store.rows[key], Reprice(s, key, caller, access, price, attached).value;
              && Pays(s.purse, t.purse, attached, caller, row.deposit + attached - price)
              && t.till == s.till && t.promises == s.promises && t.projects == s.projects
  {
    if attached + s.store.rows[key].deposit >= price {
      MovePaysOne(s.purse, attached, caller, attached + s.store.rows[key].deposit - price);
    }
  }

  /** Accepted for an existing row of the caller's, a condition within bounds, and the new price at hand. */
  lemma UpdateNeeds(s: State, caller: Account, a: Accessor, profile: string, access: Condition, attached: nat)
    ensures var key := KeyFor(a, profile, caller);
            UpdateAccess(s, caller, a, profile, access, attached).Some? <==>
            && key in s.store.rows && WithinBounds(access)
            && attached + s.store.rows[key].deposit >=
               Price(key, |s.store.rows[key].cipher|, access, key in s.store.bindings)
  {
  }

  /** An update writes the condition passed; the ciphertext, the birth and the binding stay, and no other row
      changes. The caller is repaid exactly what was held and attached less the new price. */
  lemma UpdateWrites(s: State, caller: Account, a: Accessor, profile: string, access: Condition, attached: nat)
    requires UpdateAccess(s, caller, a, profile, access, attached).Some?
    ensures var key, t := KeyFor(a, profile, caller), UpdateAccess(s, caller, a, profile, access, attached).value;
            var price := Price(key, |s.store.rows[key].cipher|, access, key in s.store.bindings);
            && key in t.store.rows && t.store.rows[key].access == access
            && t.store.rows[key].cipher == s.store.rows[key].cipher
            && t.store.rows[key].birth == s.store.rows[key].birth
            && t.store.rows[key].deposit == price && t.store.rows - {key} == s.store.rows - {key}
            && t.store.bindings == s.store.bindings && t.store.index == s.store.index
            && t.store.floors == s.store.floors
            && s.store.rows[key].deposit + attached >= price
            && Pays(s.purse, t.purse, attached, caller, s.store.rows[key].deposit + attached - price)
            && t.till == s.till && t.promises == s.promises && t.projects == s.projects
  {
    var key := KeyFor(a, profile, caller);
    var price := Price(key, |s.store.rows[key].cipher|, access, key in s.store.bindings);
    RepriceWrites(s, key, caller, access, price, attached);
    RepricePays(s, key, caller, access, price, attached);
  }

  // ---- payment keys ----

  /** A transfer of at least the minimum to an existing payment key opens one yield that remembers whose key,
      which nonce and how much; no row moves. */
  lemma TopUpOpens(s: State, owner: Account, amount: nat, nonce: nat)
    ensures RequestTopUp(s, owner, amount, nonce).Some? <==>
            amount >= 10_000 && PaymentKeyAt(owner, nonce) in s.store.rows
    ensures RequestTopUp(s, owner, amount, nonce).Some? ==>
              var t, p := RequestTopUp(s, owner, amount, nonce).value, s.nextPromise;
              && p in t.promises && t.promises[p].TopUp? && t.nextPromise == p + 1
              && t.promises[p].owner == owner && t.promises[p].nonce == nonce && t.promises[p].amount == amount
              && t.promises - {p} == s.promises - {p}
              && t.store == s.store && t.purse == s.purse && t.till == s.till
  {
  }

  /** Every top-up's callback spends its yield, once. */
  lemma TopUpIsSpent(s: State, p: nat, cipher: Option<string>)
    ensures OnTopUp(s, p, cipher).Some? <==> p in s.promises && s.promises[p].TopUp?
    ensures OnTopUp(s, p, cipher).Some? ==>
              var t := OnTopUp(s, p, cipher).value;
              && t.promises == s.promises - {p} && OnTopUp(t, p, cipher).None?
              && t.till.tokensKept + t.till.tokensRefunded ==
                 s.till.tokensKept + s.till.tokensRefunded + s.promises[p].amount
  {
  }

  /** A deletion request keeps the yocto attached and opens one yield. */
  lemma DeletionOpens(s: State, caller: Account, nonce: nat, deposit: nat)
    ensures RequestDeletion(s, caller, nonce, deposit).Some? <==>
            deposit >= 1 && PaymentKeyAt(caller, nonce) in s.store.rows
    ensures RequestDeletion(s, caller, nonce, deposit).Some? ==>
              var t, p := RequestDeletion(s, caller, nonce, deposit).value, s.nextPromise;
              && p in t.promises && t.promises[p] == Deletion(caller, nonce) && t.nextPromise == p + 1
              && t.promises - {p} == s.promises - {p} && t.store == s.store
              && Pays(s.purse, t.purse, deposit, caller, 0) && t.till.kept == s.till.kept + deposit
  {
  }

  /** The worker's consent removes the key, repays its deposit to its owner and leaves the floor no lower than
      its nonce; a refusal, a timeout or a row already gone only spends the yield. */
  lemma DeletionSettles(s: State, p: nat, success: bool)
    ensures OnDeletion(s, p, success).Some? <==> p in s.promises && s.promises[p].Deletion?
    ensures OnDeletion(s, p, success).Some? ==>
              var t, y := OnDeletion(s, p, success).value, s.promises[p];
              var key := PaymentKeyAt(y.owner, y.nonce);
              && t.promises == s.promises - {p} && t.till == s.till
              && (success && key in s.store.rows ==>
                    && key !in t.store.rows && OnlyAt(s.store, t.store, key)
                    && Pays(s.purse, t.purse, 0, y.owner, s.store.rows[key].deposit)
                    && Get(t.store.floors, y.owner) ==
                       (if y.nonce > Get(s.store.floors, y.owner) then y.nonce else Get(s.store.floors, y.owner)))
              && (!success || key !in s.store.rows ==> t.store == s.store && t.purse == s.purse)
  {
    if p in s.promises && s.promises[p].Deletion? {
      var y := s.promises[p];
      DeleteRemoves(s.(promises := s.promises - {p}), PaymentKeyAt(y.owner, y.nonce), y.owner);
    }
  }
}
