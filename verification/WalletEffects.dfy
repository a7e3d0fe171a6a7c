/** What each call on the wallet policies does, in its caller's terms: when it is accepted, what the policy says
    afterwards, that nothing else moved, and who is paid how much. */
module WalletEffects {
  import opened Options
  import opened Charges
  import opened WalletKeys
  import opened Messages
  import opened Indexes
  import opened Purses
  import opened Wallet

  // ---- prices ----

  /** Every byte of the policy is charged once and every byte of the key twice; a beneficiary's record charges
      the key a third time. */
  lemma SizeLaws(key: string, data: string, c: char, named: bool)
    ensures PolicySize(key, data + [c], named) == PolicySize(key, data, named) + 1
    ensures PolicySize(key + [c], data, false) == PolicySize(key, data, false) + 2
    ensures PolicySize(key, data, true) == PolicySize(key, data, false) + 113 + |key|
    ensures PolicySize([], [], false) == 194
    ensures PolicyPrice(key, data, named) == PolicySize(key, data, named) * 10_000_000_000_000_000_000
  {
  }

  // ---- frames ----

  /** No policy, no terms, no beneficiary but under this key, and nobody's index but one. */
  ghost predicate OnlyAt(sh: Shelf, t: Shelf, key: string, owner: Account) {
    && t.policies - {key} == sh.policies - {key} && t.meta - {key} == sh.meta - {key}
    && t.refundTo - {key} == sh.refundTo - {key}
    && (forall o :: o != owner ==> ItemsOf(t.index, o) == ItemsOf(sh.index, o))
  }

  // ---- store_wallet_policy ----

  /** What a write must have at hand: the price with the beneficiary the policy has, or is being given. */
  function Due(sh: Shelf, r: PolicyRequest, named: Option<Account>): nat {
    PolicyPrice(r.key, r.data, if r.key in sh.policies then r.key in sh.refundTo else named.Some?)
  }

  /** Whoever owns the refunds: the named beneficiary of a new policy, the standing one of an old policy, else
      the caller. */
  function RefundsGoTo(sh: Shelf, r: PolicyRequest, named: Option<Account>): Account {
    if r.key in sh.policies then (if r.key in sh.refundTo then sh.refundTo[r.key] else r.caller)
    else if named.Some? then named.value else r.caller
  }

  lemma WriteNeeds(s: State, r: PolicyRequest, named: Option<Account>, attached: nat)
    ensures Write(s, r, named, attached).Some? <==>
            && (r.key in s.shelf.policies ==> named.None? && s.shelf.policies[r.key].owner == r.caller)
            && attached + HeldFor(s.shelf, r.key) >= Due(s.shelf, r, named)
  {
  }

  /** Accepted exactly when the key is a key, the policy fits, the version is the next one, the deadline is not
      past, the signature covers this very request, and the write itself may be made. */
  lemma StoreNeeds(s: State, r: PolicyRequest, signed: Option<string>, named: Option<Account>, now: nat, attached: nat)
    ensures StorePolicy(s, r, signed, named, now, attached).Some? <==>
            && CanonicalKey(r.key).Some?
            && var q := r.(key := CanonicalKey(r.key).value);
               && !s.paused && 1 <= |r.data| <= 100_000 && now <= r.validUntil
               && r.version == (if q.key in s.shelf.meta then s.shelf.meta[q.key].version else 0) + 1
               && signed == Some(PolicyMessage(q))
               && Write(s, q, named, attached).Some?
  {
  }

  lemma StoreIsWrite(s: State, r: PolicyRequest, signed: Option<string>, named: Option<Account>, now: nat,
                     attached: nat)
    requires StorePolicy(s, r, signed, named, now, attached).Some?
    ensures StorePolicy(s, r, signed, named, now, attached) ==
            Write(s, r.(key := CanonicalKey(r.key).value), named, attached)
  {
  }

  /** The policy says what was signed: its data, its caller as owner, its version and lock. A new policy is not
      frozen and has the beneficiary named with it; an old one keeps both. */
  lemma WriteStores(s: State, r: PolicyRequest, named: Option<Account>, attached: nat)
    requires Write(s, r, named, attached).Some?
    ensures var sh, t := s.shelf, Write(s, r, named, attached).value.shelf;
            && r.key in t.policies && t.policies[r.key].data == r.data && t.policies[r.key].owner == r.caller
            && t.policies[r.key].deposit == Due(sh, r, named)
            && t.policies[r.key].frozen == (r.key in sh.policies && sh.policies[r.key].frozen)
            && r.key in t.meta && t.meta[r.key] == Meta(r.version, r.locked)
            && (r.key !in sh.policies && named.Some? ==>
                  r.key in t.refundTo && t.refundTo[r.key] == named.value)
            && (r.key in sh.policies || named.None? ==> t.refundTo == sh.refundTo)
            && (r.key !in sh.policies ==> r.key in ItemsOf(t.index, r.caller))
            && OnlyAt(sh, t, r.key, r.caller)
  {
  }

  /** Who owns the refunds is repaid exactly what was held and attached less the new price. */
  lemma WritePays(s: State, r: PolicyRequest, named: Option<Account>, attached: nat)
    requires Write(s, r, named, attached).Some?
    ensures var t, atHand := Write(s, r, named, attached).value, attached + HeldFor(s.shelf, r.key);
            && atHand >= Due(s.shelf, r, named) && t.paused == s.paused && t.log == s.log + [Stored(r)]
            && Pays(s.purse, t.purse, attached, RefundsGoTo(s.shelf, r, named), atHand - Due(s.shelf, r, named))
  {
    MovePaysOne(s.purse, attached, RefundsGoTo(s.shelf, r, named),
                attached + HeldFor(s.shelf, r.key) - Due(s.shelf, r, named));
  }

  // ---- freeze_wallet, unfreeze_wallet ----

  /** The controller freezes a thawed policy or thaws a frozen one, while the contract is not paused; the mark
      is all that changes. */
  lemma FreezeFreezes(s: State, caller: Account, spelling: string, frozen: bool)
    ensures SetFrozen(s, caller, spelling, frozen).Some? <==>
            && CanonicalKey(spelling).Some? && !s.paused
            && var key := CanonicalKey(spelling).value;
               key in s.shelf.policies && s.shelf.policies[key].owner == caller
               && s.shelf.policies[key].frozen != frozen
    ensures SetFrozen(s, caller, spelling, frozen).Some? ==>
              var key, t := CanonicalKey(spelling).value, SetFrozen(s, caller, spelling, frozen).value;
              && key in t.shelf.policies && t.shelf.policies[key].frozen == frozen
              && t.shelf.policies[key].data == s.shelf.policies[key].data
              && t.shelf.policies[key].owner == s.shelf.policies[key].owner
              && t.shelf.policies[key].deposit == s.shelf.policies[key].deposit
              && t.shelf.policies - {key} == s.shelf.policies - {key}
              && t.shelf.meta == s.shelf.meta && t.shelf.refundTo == s.shelf.refundTo
              && t.shelf.index == s.shelf.index && t.purse == s.purse && t.log == s.log && t.paused == s.paused
  {
  }

  // ---- delete_wallet_policy ----

  /** The controller deletes an unlocked policy, paused or not. Everything filed under the key goes; the whole
      deposit goes to the beneficiary if there is one and to the controller if not. */
  lemma DeleteRemoves(s: State, caller: Account, spelling: string)
    ensures DeletePolicy(s, caller, spelling).Some? <==>
            && CanonicalKey(spelling).Some?
            && var key := CanonicalKey(spelling).value;
               key in s.shelf.policies && s.shelf.policies[key].owner == caller
               && (key in s.shelf.meta ==> !s.shelf.meta[key].locked)
    ensures DeletePolicy(s, caller, spelling).Some? ==>
              var key, t := CanonicalKey(spelling).value, DeletePolicy(s, caller, spelling).value;
              && key !in t.shelf.policies && key !in t.shelf.meta && key !in t.shelf.refundTo
              && key !in ItemsOf(t.shelf.index, caller) && OnlyAt(s.shelf, t.shelf, key, caller)
              && t.paused == s.paused && t.log == s.log + [Deleted(key)]
  {
  }

  lemma DeletePays(s: State, caller: Account, spelling: string)
    requires DeletePolicy(s, caller, spelling).Some?
    ensures var key, t := CanonicalKey(spelling).value, DeletePolicy(s, caller, spelling).value;
            && (key in s.shelf.refundTo ==>
                  Pays(s.purse, t.purse, 0, s.shelf.refundTo[key], s.shelf.policies[key].deposit))
            && (key !in s.shelf.refundTo ==>
                  Pays(s.purse, t.purse, 0, caller, s.shelf.policies[key].deposit))
  {
    var key := CanonicalKey(spelling).value;
    MovePaysOne(s.purse, 0, if key in s.shelf.refundTo then s.shelf.refundTo[key] else caller,
                s.shelf.policies[key].deposit);
  }

  // ---- set_storage_refund_to ----

  /** The beneficiary, and nobody else, hands the refunds on; that is all that changes. */
  lemma RefundsAreHandedOn(s: State, caller: Account, spelling: string, account: Account)
    ensures SetRefundTo(s, caller, spelling, account).Some? <==>
            && CanonicalKey(spelling).Some? && !s.paused
            && var key := CanonicalKey(spelling).value;
               key in s.shelf.refundTo && s.shelf.refundTo[key] == caller
    ensures SetRefundTo(s, caller, spelling, account).Some? ==>
              var key, t := CanonicalKey(spelling).value, SetRefundTo(s, caller, spelling, account).value;
              && key in t.shelf.refundTo && t.shelf.refundTo[key] == account
              && t.shelf.refundTo - {key} == s.shelf.refundTo - {key}
              && t.shelf.policies == s.shelf.policies && t.shelf.meta == s.shelf.meta
              && t.shelf.index == s.shelf.index && t.purse == s.purse && t.log == s.log
  {
  }
}
