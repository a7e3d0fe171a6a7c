/** Wallet policies as a state machine: the policy, its version and lock, who its deposit is refunded
    to, and the owners' index. `None` is a panic, which changes nothing. */
module Wallet {
  import opened Options
  import opened Charges
  import opened WalletKeys
  import opened Messages
  import opened Indexes
  import opened Purses

  const MAX_POLICY_BYTES: nat := 100_000

  datatype Policy = Policy(owner: Account, data: string, frozen: bool, deposit: nat)

  datatype Meta = Meta(version: nat, locked: bool)

  datatype Shelf = Shelf(
    policies: map<string, Policy>, meta: map<string, Meta>, refundTo: map<string, Account>, index: Index<string>)

  /** Accepted writes and deletions in order, as history. */
  datatype Event = Stored(request: PolicyRequest) | Deleted(key: string)

  datatype State = State(paused: bool, shelf: Shelf, purse: Purse, log: seq<Event>)

  function Init(): State {
    State(false, Shelf(map[], map[], map[], map[]), Purse(0, map[]), [])
  }

  /** `calculate_wallet_policy_storage_size`. */
  function PolicySize(key: string, data: string, withBeneficiary: bool): nat {
    var keySize := 4 + |key|;
    var valueSize := 4 + 64 + 4 + |data| + 1 + 8 + 16;
    var beneficiary := if withBeneficiary then 40 + (1 + 4 + |key|) + (4 + 64) else 0;
    40 + keySize + valueSize + (40 + keySize + 8 + 1) + beneficiary
  }

  function PolicyPrice(key: string, data: string, withBeneficiary: bool): nat {
    PolicySize(key, data, withBeneficiary) * STORAGE_PRICE_PER_BYTE
  }

  function MetaOf(sh: Shelf, key: string): Meta {
    if key in sh.meta then sh.meta[key] else Meta(0, false)
  }

  function HeldFor(sh: Shelf, key: string): nat {
    if key in sh.policies then sh.policies[key].deposit else 0
  }

  /** The beneficiary is named when the policy is created and kept by every update. */
  function Beneficiary(sh: Shelf, key: string, named: Option<Account>): Option<Account> {
    if key !in sh.policies then named
    else if key in sh.refundTo then Some(sh.refundTo[key]) else None
  }

  // ---- store_wallet_policy ----

  function WriteAt(sh: Shelf, r: PolicyRequest, named: Option<Account>, price: nat): Shelf {
    var isNew := r.key !in sh.policies;
    Shelf(sh.policies[r.key := Policy(r.caller, r.data, if isNew then false else sh.policies[r.key].frozen, price)],
          sh.meta[r.key := Meta(r.version, r.locked)],
          if isNew && named.Some? then sh.refundTo[r.key := named.value] else sh.refundTo,
          if isNew then Added(sh.index, r.caller, r.key) else sh.index)
  }

  predicate MayWrite(sh: Shelf, r: PolicyRequest, named: Option<Account>) {
    r.key in sh.policies ==> named.None? && sh.policies[r.key].owner == r.caller
  }

  /** The write itself, once the signature is verified. */
  function Write(s: State, r: PolicyRequest, named: Option<Account>, attached: nat): Option<State> {
    var beneficiary, held := Beneficiary(s.shelf, r.key, named), HeldFor(s.shelf, r.key);
    var price := PolicyPrice(r.key, r.data, beneficiary.Some?);
    if !MayWrite(s.shelf, r, named) || attached + held < price then None
    else Some(s.(shelf := WriteAt(s.shelf, r, named, price),
                 purse := Move(s.purse, attached, beneficiary.GetOr(r.caller), attached + held - price),
                 log := s.log + [Stored(r)]))
  }

  /** The next version, in time, and signed as such. `signed` is the text the presented signature
      verifies for under the wallet's key, if any. */
  predicate Accepts(s: State, r: PolicyRequest, signed: Option<string>, now: nat) {
    && !s.paused && 0 < |r.data| <= MAX_POLICY_BYTES
    && r.version == MetaOf(s.shelf, r.key).version + 1 && now <= r.validUntil
    && signed == Some(PolicyMessage(r))
  }

  /** `store_wallet_policy`: `r` as it was submitted, its key in any spelling. */
  function StorePolicy(s: State, r: PolicyRequest, signed: Option<string>, named: Option<Account>, now: nat,
                       attached: nat): Option<State> {
    match CanonicalKey(r.key)
    case None => None
    case Some(key) =>
      if Accepts(s, r.(key := key), signed, now) then Write(s, r.(key := key), named, attached) else None
  }

  // ---- freeze_wallet, unfreeze_wallet ----

  function SetFrozen(s: State, caller: Account, spelling: string, frozen: bool): Option<State> {
    match CanonicalKey(spelling)
    case None => None
    case Some(key) =>
      var policies := s.shelf.policies;
      if s.paused || key !in policies || policies[key].owner != caller || policies[key].frozen == frozen then None
      else Some(s.(shelf := s.shelf.(policies := policies[key := policies[key].(frozen := frozen)])))
  }

  // ---- delete_wallet_policy ----

  function RemoveAt(sh: Shelf, caller: Account, key: string): Shelf {
    Shelf(sh.policies - {key}, sh.meta - {key}, sh.refundTo - {key}, Removed(sh.index, caller, key))
  }

  /** Not while the policy is locked, and also while the contract is paused. */
  function DeletePolicy(s: State, caller: Account, spelling: string): Option<State> {
    match CanonicalKey(spelling)
    case None => None
    case Some(key) =>
      var sh := s.shelf;
      if key !in sh.policies || sh.policies[key].owner != caller || MetaOf(sh, key).locked then None
      else
        var recipient := if key in sh.refundTo then sh.refundTo[key] else caller;
        Some(s.(shelf := RemoveAt(sh, caller, key),
                purse := Move(s.purse, 0, recipient, sh.policies[key].deposit),
                log := s.log + [Deleted(key)]))
  }

  // ---- set_storage_refund_to ----

  function SetRefundTo(s: State, caller: Account, spelling: string, account: Account): Option<State> {
    match CanonicalKey(spelling)
    case None => None
    case Some(key) =>
      var refundTo := s.shelf.refundTo;
      if s.paused || key !in refundTo || refundTo[key] != caller then None
      else Some(s.(shelf := s.shelf.(refundTo := refundTo[key := account])))
  }

  // ---- steps and runs ----

  datatype Call =
    | CallStore(request: PolicyRequest, signed: Option<string>, named: Option<Account>, now: nat, attached: nat)
    | CallSetFrozen(caller: Account, spelling: string, frozen: bool)
    | CallDelete(caller: Account, spelling: string)
    | CallSetRefundTo(caller: Account, spelling: string, account: Account)
    | SetPaused(paused: bool)

  function Step(s: State, c: Call): Option<State> {
    match c
    case CallStore(r, signed, named, now, attached) => StorePolicy(s, r, signed, named, now, attached)
    case CallSetFrozen(caller, spelling, frozen) => SetFrozen(s, caller, spelling, frozen)
    case CallDelete(caller, spelling) => DeletePolicy(s, caller, spelling)
    case CallSetRefundTo(caller, spelling, account) => SetRefundTo(s, caller, spelling, account)
    case SetPaused(paused) => Some(s.(paused := paused))
  }

  function After(s: State, c: Call): State {
    Step(s, c).GetOr(s)
  }

  function Run(s: State, calls: seq<Call>): State
    decreases |calls|
  {
    if calls == [] then s else Run(After(s, calls[0]), calls[1..])
  }
}
