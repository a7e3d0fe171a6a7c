/** The part of the contract object that keeps secrets and payment keys, each method proved against the
    state machine of module `Secrets`. A method answers whether the call went through; a call that
    panics answers `false` and changes nothing. */
module SecretsContract {
  import opened Options
  import opened Sums
  import opened Numerals
  import opened Charges
  import opened Conditions
  import opened Indexes
  import opened Purses
  import opened Secrets
  import opened SecretsRegistry

  class SecretsVault {
    var projects: set<string>
    var rows: map<SecretKey, Row>
    var index: Index<SecretKey>
    var bindings: map<SecretKey, Account>
    var floors: map<Account, nat>
    var promises: map<nat, KeyPromise>
    var nextPromise: nat

    // the serial number the next new row carries, for the proofs
    var nextBirth: nat

    // transfers made and keys created, for the proofs
    ghost var purse: Purse
    ghost var till: Till
    ghost var history: History

    ghost function StoreView(): Store
      reads this
    {
      Store(rows, index, bindings, floors)
    }

    ghost function View(): State
      reads this
    {
      State(projects, StoreView(), purse, till, history, nextBirth, promises, nextPromise)
    }

    constructor ()
      ensures View() == Init()
    {
      projects, rows, index, bindings, floors := {}, map[], map[], map[], map[];
      promises, nextPromise, nextBirth := map[], 0, 0;
      purse, till, history := Purse(0, map[]), Till(0, 0, 0), History([], {});
    }

    method Settle(attached: nat, recipient: Account, refund: nat, kept: nat)
      modifies this`purse, this`till
      ensures purse == Move(old(purse), attached, recipient, refund) && till == Keep(old(till), kept)
    {
      purse := Move(purse, attached, recipient, refund);
      till := till.(kept := till.kept + kept);
    }

    method RaisePaymentKeyNonceFloor(owner: Account, nonce: nat)
      modifies this`floors
      ensures floors == RaiseFloor(old(floors), owner, nonce)
    {
      if owner !in floors || floors[owner] < nonce {
        floors := floors[owner := nonce];
      }
    }

    /** Write the row, the binding, the index entry of a new row, and raise the floor. */
    method WriteRow(key: SecretKey, row: Row, vault: Option<Account>)
      modifies this`rows, this`bindings, this`index, this`floors
      ensures StoreView() == StoreAt(old(StoreView()), key, row, vault)
    {
      var isNew := key !in rows;
      rows := rows[key := row];
      if vault.Some? {
        bindings := bindings[key := vault.value];
      }
      if isNew {
        index := Added(index, key.owner, key);
      }
      if key.accessor.PaymentKey? && ParseU32(key.profile).Some? {
        RaisePaymentKeyNonceFloor(key.owner, ParseU32(key.profile).value);
      }
    }

    method CheckStore(key: SecretKey, cipher: string, access: Condition) returns (ok: bool)
      ensures ok == (Storable(key, cipher, access, projects) && NonceFree(StoreView(), key))
    {
      if !WithinBounds(access) || !ValidAccessor(key.accessor, key.profile, projects) {
        return false;
      }
      if !IsProfile(key.profile) || cipher == [] {
        return false;
      }
      if IsLowerHex64(key.profile) && key.profile != key.owner {
        return false;
      }
      if key.accessor.PaymentKey? {
        if key in rows {
          return false;
        }
        var floor := if key.owner in floors then floors[key.owner] else 0;
        return ParseU32(key.profile).value > floor;
      }
      return true;
    }

    /** What the caller must cover, and how much of it the contract already holds. */
    method DepositTerms(key: SecretKey, price: nat) returns (charged: nat, held: nat)
      ensures charged == Charged(StoreView(), key, price) && charged >= price
      ensures held == HeldFor(StoreView(), key)
    {
      held := 0;
      charged := price;
      if key in rows {
        held := rows[key].deposit;
      } else if key.accessor.PaymentKey? && key.owner !in floors {
        charged := price + (40 + 1 + 4 + |key.owner| + 4) * STORAGE_PRICE_PER_BYTE;
      }
    }

    method Commit(key: SecretKey, row: Row, vault: Option<Account>, attached: nat, payer: Account, refund: nat,
                  kept: nat)
      requires key.accessor.PaymentKey? ==> ParseU32(key.profile).Some?
      modifies this`rows, this`bindings, this`index, this`floors, this`nextBirth, this`purse, this`till, this`history
      ensures StoreView() == StoreAt(old(StoreView()), key, row, vault) && history == Recorded(old(history), key)
      ensures purse == Move(old(purse), attached, payer, refund) && till == Keep(old(till), kept)
      ensures nextBirth == old(nextBirth) + (if key in old(rows) then 0 else 1)
    {
      Record(key);
      Settle(attached, payer, refund, kept);
      WriteRow(key, row, vault);
    }

    method CommitWhole(key: SecretKey, row: Row, vault: Option<Account>, attached: nat, payer: Account, refund: nat,
                       kept: nat)
      requires key.accessor.PaymentKey? ==> ParseU32(key.profile).Some?
      modifies this`rows, this`bindings, this`index, this`floors, this`nextBirth, this`purse, this`till, this`history
      ensures View() == Secrets.Commit(old(View()), key, row, vault, attached, payer, refund, kept)
    {
      Commit(key, row, vault, attached, payer, refund, kept);
    }

    method Record(key: SecretKey)
      requires key.accessor.PaymentKey? ==> ParseU32(key.profile).Some?
      modifies this`nextBirth, this`history
      ensures history == Recorded(old(history), key)
      ensures nextBirth == old(nextBirth) + (if key in rows then 0 else 1)
    {
      if key.accessor.PaymentKey? {
        history := history.(created := history.created + [(key.owner, ParseU32(key.profile).value)]);
      }
      history := history.(unbound := history.unbound - {key});
      if key !in rows {
        nextBirth := nextBirth + 1;
      }
    }

    method Put(key: SecretKey, payer: Account, cipher: string, access: Condition, vault: Option<Account>,
               price: nat, attached: nat)
      returns (ok: bool)
      requires key.accessor.PaymentKey? ==> ParseU32(key.profile).Some?
      modifies this`rows, this`bindings, this`index, this`floors, this`nextBirth, this`purse, this`till, this`history
      ensures Did(ok, old(View()), Secrets.Put(old(View()), key, payer, cipher, access, vault, price, attached), View())
    {
      var charged, held := DepositTerms(key, price);
      if attached + held < charged {
        return false;
      }
      var birth := if key in rows then rows[key].birth else nextBirth;
      CommitWhole(key, Row(cipher, |cipher|, access, price, birth), vault, attached, payer,
                  attached + held - charged, charged - price);
      ok := true;
    }

    method StoreSecretsInternal(owner: Account, payer: Account, a: Accessor, profile: string, cipher: string,
                                access: Condition, vault: Option<Account>, attached: nat) returns (ok: bool)
      modifies this`rows, this`bindings, this`index, this`floors, this`nextBirth, this`purse, this`till, this`history
      ensures Did(ok, old(View()),
                  StoreSecret(old(View()), owner, payer, a, profile, cipher, access, vault, attached), View())
    {
      var key := KeyFor(a, profile, owner);
      ok := CheckStore(key, cipher, access);
      if !ok {
        return;
      }
      ok := PutPriced(key, payer, cipher, access, vault, attached);
    }

    method PutPriced(key: SecretKey, payer: Account, cipher: string, access: Condition, vault: Option<Account>,
                     attached: nat) returns (ok: bool)
      requires key.accessor.PaymentKey? ==> ParseU32(key.profile).Some?
      modifies this`rows, this`bindings, this`index, this`floors, this`nextBirth, this`purse, this`till, this`history
      ensures Did(ok, old(View()), Secrets.PutPriced(old(View()), key, payer, cipher, access, vault, attached), View())
    {
      var price := Price(key, |cipher|, access, vault.Some? || key in bindings);
      ok := Put(key, payer, cipher, access, vault, price, attached);
    }

    method StoreSecrets(caller: Account, a: Accessor, profile: string, cipher: string, access: Condition,
                        vault: Option<Account>, attached: nat) returns (ok: bool)
      modifies this
      ensures Did(ok, old(View()),
                  Step(old(View()), CallStore(caller, a, profile, cipher, access, vault, attached)), View())
    {
      ok := StoreSecretsInternal(caller, caller, a, profile, cipher, access, vault, attached);
    }

    /** `agent` is the implicit account of the key whose signature over the arguments was verified. */
    method StoreAgentSecret(agent: Account, payer: Account, a: Accessor, profile: string, cipher: string,
                            access: Condition, vault: Option<Account>, attached: nat) returns (ok: bool)
      modifies this
      ensures Did(ok, old(View()),
                  Step(old(View()), CallStoreAgent(agent, payer, a, profile, cipher, access, vault, attached)), View())
    {
      if !IsLowerHex64(agent) || ':' in profile {
        return false;
      }
      if a.Repo? || a.PaymentKey? {
        return false;
      }
      ok := StoreSecretsInternal(agent, payer, a, profile, cipher, access, vault, attached);
    }

    /** Remove a row, its binding and its index entry; an owner's emptied index entry goes with it. */
    method RemoveRow(key: SecretKey)
      modifies this`rows, this`bindings, this`index
      ensures StoreView() == RemoveAt(old(StoreView()), key)
    {
      rows := rows - {key};
      bindings := bindings - {key};
      index := Removed(index, key.owner, key);
    }

    method DeleteSecretsInternal(key: SecretKey, refundTo: Account) returns (ok: bool)
      modifies this`rows, this`bindings, this`index, this`purse, this`history
      ensures Did(ok, old(View()), DeleteKey(old(View()), key, refundTo), View())
    {
      if key !in rows {
        return false;
      }
      var deposit := rows[key].deposit;
      RemoveRow(key);
      purse := Move(purse, 0, refundTo, deposit);
      history := history.(unbound := history.unbound - {key});
      return true;
    }

    method DeleteSecrets(caller: Account, a: Accessor, profile: string) returns (ok: bool)
      modifies this
      ensures Did(ok, old(View()), Step(old(View()), CallDelete(caller, a, profile)), View())
    {
      ok := DeleteSecretsInternal(KeyFor(a, profile, caller), caller);
    }

    method DeleteAgentSecret(agent: Account, payer: Account, a: Accessor, profile: string) returns (ok: bool)
      modifies this
      ensures Did(ok, old(View()), Step(old(View()), CallDeleteAgent(agent, payer, a, profile)), View())
    {
      if !IsLowerHex64(agent) || ':' in profile || !AgentAccessor(a) {
        return false;
      }
      ok := DeleteSecretsInternal(KeyFor(a, profile, agent), payer);
    }

    method UnbindSecretVault(caller: Account, a: Accessor, profile: string) returns (ok: bool)
      modifies this`bindings, this`history
      ensures Did(ok, old(View()), Unbind(old(View()), caller, a, profile), View())
    {
      var key := KeyFor(a, profile, caller);
      if key !in rows {
        return false;
      }
      if key in bindings {
        history := history.(unbound := history.unbound + {key});
      }
      bindings := bindings - {key};
      return true;
    }

    method UpdateAccess(caller: Account, a: Accessor, profile: string, access: Condition, attached: nat)
      returns (ok: bool)
      modifies this`rows, this`purse, this`history
      ensures Did(ok, old(View()), Secrets.UpdateAccess(old(View()), caller, a, profile, access, attached), View())
    {
      var key := KeyFor(a, profile, caller);
      if key !in rows || !WithinBounds(access) {
        return false;
      }
      ok := Reprice(key, caller, access, Price(key, |rows[key].cipher|, access, key in bindings), attached);
    }

    method Reprice(key: SecretKey, caller: Account, access: Condition, price: nat, attached: nat) returns (ok: bool)
      requires key in rows
      modifies this`rows, this`purse, this`history
      ensures Did(ok, old(View()), Secrets.Reprice(old(View()), key, caller, access, price, attached), View())
    {
      var row := rows[key];
      if attached + row.deposit < price {
        return false;
      }
      purse := Move(purse, attached, caller, attached + row.deposit - price);
      rows := rows[key := row.(pricedLen := |row.cipher|, access := access, deposit := price)];
      history := history.(unbound := history.unbound - {key});
      return true;
    }

    method HandleTopUp(owner: Account, amount: nat, nonce: nat) returns (ok: bool)
      modifies this`promises, this`nextPromise
      ensures Did(ok, old(View()), RequestTopUp(old(View()), owner, amount, nonce), View())
    {
      var key := SecretKey(PaymentKey, Show(nonce), owner);
      if amount < MIN_TOP_UP_AMOUNT || key !in rows {
        return false;
      }
      promises := promises[nextPromise := TopUp(owner, nonce, amount, rows[key].birth)];
      nextPromise := nextPromise + 1;
      return true;
    }

    method OnTopUpResponse(p: nat, cipher: Option<string>) returns (ok: bool)
      modifies this`promises, this`rows, this`till
      ensures Did(ok, old(View()), OnTopUp(old(View()), p, cipher), View())
    {
      if p !in promises || !promises[p].TopUp? {
        return false;
      }
      var y := promises[p];
      promises := promises - {p};
      var key := SecretKey(PaymentKey, Show(y.nonce), y.owner);
      if cipher.Some? && key in rows {
        rows := rows[key := rows[key].(cipher := cipher.value)];
        till := till.(tokensKept := till.tokensKept + y.amount);
      } else {
        till := till.(tokensRefunded := till.tokensRefunded + y.amount);
      }
      return true;
    }

    method DeletePaymentKey(caller: Account, nonce: nat, deposit: nat) returns (ok: bool)
      modifies this`promises, this`nextPromise, this`purse, this`till
      ensures Did(ok, old(View()), RequestDeletion(old(View()), caller, nonce, deposit), View())
    {
      if deposit < 1 || SecretKey(PaymentKey, Show(nonce), caller) !in rows {
        return false;
      }
      Settle(deposit, caller, 0, deposit);
      promises := promises[nextPromise := Deletion(caller, nonce)];
      nextPromise := nextPromise + 1;
      return true;
    }

    method OnDeletePaymentKeyResponse(p: nat, success: bool) returns (ok: bool)
      modifies this`promises, this`rows, this`bindings, this`index, this`floors, this`purse, this`history
      ensures Did(ok, old(View()), OnDeletion(old(View()), p, success), View())
    {
      if p !in promises || !promises[p].Deletion? {
        return false;
      }
      var y := promises[p];
      promises := promises - {p};
      if success {
        var deleted := DeleteSecretsInternal(SecretKey(PaymentKey, Show(y.nonce), y.owner), y.owner);
        if deleted {
          RaisePaymentKeyNonceFloor(y.owner, y.nonce);
        }
      }
      return true;
    }

    /** The highest nonce among the owner's live payment keys, or zero. */
    method HighestLiveNonce(owner: Account) returns (live: nat)
      ensures IsHighest(ItemsOf(index, owner), live)
    {
      live := 0;
      var rest := if owner in index then index[owner] else {};
      var all := rest;
      while rest != {}
        invariant rest <= all && IsHighest(all - rest, live)
        decreases |rest|
      {
        var key :| key in rest;
        HighestWith(all - rest, key, live);
        assert all - (rest - {key}) == (all - rest) + {key};
        if key.accessor.PaymentKey? && ParseU32(key.profile).Some? && ParseU32(key.profile).value > live {
          live := ParseU32(key.profile).value;
        }
        rest := rest - {key};
      }
      assert all - rest == all;
    }

    /** One above the owner's live payment keys and its floor, saturating. In every reachable state that
        is one above the floor, no lower nonce can be taken, and it can be taken itself exactly when the
        floor is below 2^31 - 1. */
    method GetNextPaymentKeyNonce(owner: Account) returns (next: nat)
      ensures next <= U32_MAX
      ensures next == U32_MAX || next > Get(floors, owner)
      ensures forall key :: key in ItemsOf(index, owner) && IsLiveKey(key) ==> next == U32_MAX || next > NonceOf(key)
      ensures Inv(View()) ==> next == Min(Get(floors, owner) + 1, U32_MAX)
      ensures Inv(View()) ==> forall n: nat :: n < next ==> !CanTake(StoreView(), owner, n)
      ensures Inv(View()) ==> (CanTake(StoreView(), owner, next) <==> Get(floors, owner) < I32_MAX)
    {
      var floor := if owner in floors then floors[owner] else 0;
      var live := HighestLiveNonce(owner);
      if Inv(View()) {
        LiveNonceIsAtMostFloor(StoreView(), history, owner, live);
      }
      var highest := if live > floor then live else floor;
      next := if highest < U32_MAX then highest + 1 else U32_MAX;
      if Inv(View()) {
        TakenAboveFloor(View(), owner, next);
        forall n: nat | n < next
          ensures !CanTake(StoreView(), owner, n)
        {
          TakenAboveFloor(View(), owner, n);
        }
      }
    }
  }

  predicate IsLiveKey(key: SecretKey) {
    key.accessor.PaymentKey? && ParseU32(key.profile).Some?
  }

  /** `live` is the largest nonce of a payment key in `keys`, zero if there is none. */
  ghost predicate IsHighest(keys: set<SecretKey>, live: nat) {
    && (forall key :: key in keys && IsLiveKey(key) ==> NonceOf(key) <= live)
    && (live == 0 || exists key :: key in keys && IsLiveKey(key) && NonceOf(key) == live)
  }

  lemma HighestWith(keys: set<SecretKey>, key: SecretKey, live: nat)
    requires IsHighest(keys, live)
    ensures IsHighest(keys + {key}, if IsLiveKey(key) && NonceOf(key) > live then NonceOf(key) else live)
  {
    if !(IsLiveKey(key) && NonceOf(key) > live) && live > 0 {
      var k :| k in keys && IsLiveKey(k) && NonceOf(k) == live;
      assert k in keys + {key};
    }
  }

  lemma LiveNonceIsAtMostFloor(st: Store, h: History, owner: Account, live: nat)
    requires IndexExact(st) && NoncesSound(st, h) && IsHighest(ItemsOf(st.index, owner), live)
    ensures live <= Get(st.floors, owner)
  {
    if live > 0 {
      var key :| key in ItemsOf(st.index, owner) && IsLiveKey(key) && NonceOf(key) == live;
      assert key in OwnersOf(st.rows) && key.owner == owner;
      var i :| 0 <= i < |h.created| && h.created[i] == (owner, live);
    }
  }
}
