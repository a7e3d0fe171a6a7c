/** The part of the contract object that keeps wallet policies, each method proved against the state
    machine of module `Wallet`. A call that panics answers `false` and changes nothing. */
module WalletContract {
  import opened Options
  import opened Charges
  import opened WalletKeys
  import opened Messages
  import opened Indexes
  import opened Purses
  import opened Wallet

  class WalletShelf {
    var paused: bool
    var policies: map<string, Policy>
    var meta: map<string, Meta>
    var refundTo: map<string, Account>
    var index: Index<string>

    // transfers and accepted writes, for the proofs
    ghost var purse: Purse
    ghost var log: seq<Event>

    ghost function ShelfView(): Shelf
      reads this
    {
      Shelf(policies, meta, refundTo, index)
    }

    ghost function View(): State
      reads this
    {
      State(paused, ShelfView(), purse, log)
    }

    constructor ()
      ensures View() == Init()
    {
      paused, policies, meta, refundTo, index := false, map[], map[], map[], map[];
      purse, log := Purse(0, map[]), [];
    }

    method WriteEntry(r: PolicyRequest, named: Option<Account>, price: nat)
      modifies this`policies, this`meta, this`refundTo, this`index
      ensures ShelfView() == WriteAt(old(ShelfView()), r, named, price)
    {
      var isNew := r.key !in policies;
      var wasFrozen := false;
      if isNew {
        if named.Some? {
          refundTo := refundTo[r.key := named.value];
        }
        index := Added(index, r.caller, r.key);
      } else {
        wasFrozen := policies[r.key].frozen;
      }
      policies := policies[r.key := Policy(r.caller, r.data, wasFrozen, price)];
      meta := meta[r.key := Meta(r.version, r.locked)];
    }

    method WritePolicy(r: PolicyRequest, named: Option<Account>, attached: nat) returns (ok: bool)
      modifies this`policies, this`meta, this`refundTo, this`index, this`purse, this`log
      ensures Did(ok, old(View()), Write(old(View()), r, named, attached), View())
    {
      var beneficiary, held := named, 0;
      if r.key in policies {
        if named.Some? || policies[r.key].owner != r.caller {
          return false;
        }
        held := policies[r.key].deposit;
        if r.key in refundTo {
          beneficiary := Some(refundTo[r.key]);
        }
      }
      var price := PolicyPrice(r.key, r.data, beneficiary.Some?);
      if attached + held < price {
        return false;
      }
      purse := Move(purse, attached, beneficiary.GetOr(r.caller), attached + held - price);
      WriteEntry(r, named, price);
      log := log + [Stored(r)];
      ok := true;
    }

    /** `signed` is the text the presented signature verifies for under the wallet's key, if any. */
    method StoreWalletPolicy(r: PolicyRequest, signed: Option<string>, named: Option<Account>, now: nat, attached: nat)
      returns (ok: bool)
      modifies this
      ensures Did(ok, old(View()), Step(old(View()), CallStore(r, signed, named, now, attached)), View())
    {
      var key := CanonicalKey(r.key);
      if paused || r.data == [] || |r.data| > MAX_POLICY_BYTES || key.None? {
        return false;
      }
      var canonical := r.(key := key.value);
      var version := if key.value in meta then meta[key.value].version else 0;
      if r.version != version + 1 || now > r.validUntil {
        return false;
      }
      if signed != Some(PolicyMessage(canonical)) {
        return false;
      }
      ok := WritePolicy(canonical, named, attached);
    }

    method FreezeWallet(caller: Account, spelling: string) returns (ok: bool)
      modifies this`policies
      ensures Did(ok, old(View()), SetFrozen(old(View()), caller, spelling, true), View())
    {
      var key := CanonicalKey(spelling);
      if paused || key.None? || key.value !in policies {
        return false;
      }
      var entry := policies[key.value];
      if entry.owner != caller || entry.frozen {
        return false;
      }
      policies := policies[key.value := entry.(frozen := true)];
      return true;
    }

    method UnfreezeWallet(caller: Account, spelling: string) returns (ok: bool)
      modifies this`policies
      ensures Did(ok, old(View()), SetFrozen(old(View()), caller, spelling, false), View())
    {
      var key := CanonicalKey(spelling);
      if paused || key.None? || key.value !in policies {
        return false;
      }
      var entry := policies[key.value];
      if entry.owner != caller || !entry.frozen {
        return false;
      }
      policies := policies[key.value := entry.(frozen := false)];
      return true;
    }

    method DeleteWalletPolicy(caller: Account, spelling: string) returns (ok: bool)
      modifies this`policies, this`meta, this`refundTo, this`index, this`purse, this`log
      ensures Did(ok, old(View()), DeletePolicy(old(View()), caller, spelling), View())
    {
      var canonical := CanonicalKey(spelling);
      if canonical.None? || canonical.value !in policies {
        return false;
      }
      var key := canonical.value;
      var entry := policies[key];
      if entry.owner != caller || (key in meta && meta[key].locked) {
        return false;
      }
      var recipient := if key in refundTo then refundTo[key] else caller;
      RemoveEntry(caller, key);
      purse := Move(purse, 0, recipient, entry.deposit);
      log := log + [Deleted(key)];
      return true;
    }

    method RemoveEntry(caller: Account, key: string)
      modifies this`policies, this`meta, this`refundTo, this`index
      ensures ShelfView() == RemoveAt(old(ShelfView()), caller, key)
    {
      policies, meta, refundTo := policies - {key}, meta - {key}, refundTo - {key};
      index := Removed(index, caller, key);
    }

    method SetStorageRefundTo(caller: Account, spelling: string, account: Account) returns (ok: bool)
      modifies this`refundTo
      ensures Did(ok, old(View()), SetRefundTo(old(View()), caller, spelling, account), View())
    {
      var key := CanonicalKey(spelling);
      if paused || key.None? || key.value !in refundTo || refundTo[key.value] != caller {
        return false;
      }
      refundTo := refundTo[key.value := account];
      return true;
    }
  }
}
