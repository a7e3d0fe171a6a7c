/** The secrets registry and the payment keys that live in it, as a state machine: rows, the owners'
    index, vault bindings, nonce floors, and the top-up and delete promises outstanding for payment
    keys. Strings are sequences of UTF-8 bytes. `None` is a panic, which changes nothing. */
module Secrets {
  import opened Options
  import opened Sums
  import opened Numerals
  import opened Charges
  import opened Conditions
  import opened ConditionText
  import opened Indexes
  import opened Purses

  const I32_MAX: nat := 2147483647
  const MIN_TOP_UP_AMOUNT: nat := 10_000

  // ---- keys ----

  datatype Accessor =
    | Repo(repo: string, branch: Option<string>)
    | Wasm(hash: string)
    | OfProject(id: string)
    | PaymentKey

  datatype SecretKey = SecretKey(accessor: Accessor, profile: string, owner: Account)

  function ToLower(c: char): char {
    if 'A' <= c <= 'Z' then (c as int + 32) as char else c
  }

  function Lower(s: string): (r: string)
    ensures |r| == |s| && forall i :: 0 <= i < |s| ==> r[i] == ToLower(s[i])
  {
    seq(|s|, i requires 0 <= i < |s| => ToLower(s[i]))
  }

  /** One spelling of an accessor: a WASM hash in lower case. */
  function CanonicalAccessor(a: Accessor): Accessor {
    if a.Wasm? then Wasm(Lower(a.hash)) else a
  }

  /** One spelling of a profile: a payment key's is its nonce as printed. */
  function CanonicalProfile(a: Accessor, profile: string): string {
    if a.PaymentKey? && ParseU32(profile).Some? then Show(ParseU32(profile).value) else profile
  }

  function KeyFor(a: Accessor, profile: string, owner: Account): SecretKey {
    SecretKey(CanonicalAccessor(a), CanonicalProfile(CanonicalAccessor(a), profile), owner)
  }

  function PaymentKeyAt(owner: Account, nonce: nat): SecretKey {
    SecretKey(PaymentKey, Show(nonce), owner)
  }

  // ---- state ----

  /** A stored secret. Two fields are history: `pricedLen`, how long the ciphertext was when the deposit was
      last computed, and `birth`, the serial number of the row's creation. */
  datatype Row = Row(cipher: string, pricedLen: nat, access: Condition, deposit: nat, birth: nat)

  datatype Store = Store(
    rows: map<SecretKey, Row>, index: Index<SecretKey>, bindings: map<SecretKey, Account>,
    floors: map<Account, nat>)

  /** NEAR kept for good (floor entries, and what is attached to a deletion request); stablecoin kept and
      returned by top-ups. */
  datatype Till = Till(kept: nat, tokensKept: nat, tokensRefunded: nat)

  /** Payment keys in order of creation, and the rows whose binding was dropped since they were priced. */
  datatype History = History(created: seq<(Account, nat)>, unbound: set<SecretKey>)

  /** A yield waiting for the worker; `birth` is history: the row the transfer named. */
  datatype KeyPromise =
    | TopUp(owner: Account, nonce: nat, amount: nat, birth: nat)
    | Deletion(owner: Account, nonce: nat)

  datatype State = State(
    projects: set<string>, store: Store, purse: Purse, till: Till, history: History, nextBirth: nat,
    promises: map<nat, KeyPromise>, nextPromise: nat)

  function Init(): State {
    State({}, Store(map[], map[], map[], map[]), Purse(0, map[]), Till(0, 0, 0), History([], {}), 0, map[], 0)
  }

  // ---- price ----

  function AccessorSize(a: Accessor): nat {
    match a
    case Repo(repo, branch) => 1 + 4 + |repo| + 1 + (if branch.Some? then 4 + |branch.value| else 0)
    case Wasm(hash) => 1 + 4 + |hash|
    case OfProject(id) => 1 + 4 + |id|
    case PaymentKey => 2
  }

  function KeySize(key: SecretKey): nat {
    AccessorSize(key.accessor) + 4 + |key.profile| + 4 + |key.owner|
  }

  /** `calculate_secret_storage_size`: the whole row, its index entry and its binding if it has one. */
  function StorageSize(key: SecretKey, cipherLen: nat, access: Condition, bound: bool): nat {
    var value := 4 + cipherLen + |PrintCondition(access)| + 10 + 8 + 8 + 16;
    var binding := if bound then 40 + KeySize(key) + 4 + 64 else 0;
    40 + KeySize(key) + value + 64 + binding
  }

  function Price(key: SecretKey, cipherLen: nat, access: Condition, bound: bool): nat {
    StorageSize(key, cipherLen, access, bound) * STORAGE_PRICE_PER_BYTE
  }

  /** The bytes of an owner's floor entry, charged with their first payment key and kept. */
  function FloorDeposit(st: Store, owner: Account): nat {
    if owner in st.floors then 0 else (40 + 1 + 4 + |owner| + 4) * STORAGE_PRICE_PER_BYTE
  }

  // ---- checks ----

  predicate IsProfileChar(c: char) {
    'a' <= c <= 'z' || 'A' <= c <= 'Z' || IsDigit(c) || c == '-' || c == '_' || c as int >= 128
  }

  predicate IsProfile(profile: string) {
    1 <= |profile| <= 64 && forall i :: 0 <= i < |profile| ==> IsProfileChar(profile[i])
  }

  /** What a stored accessor and profile look like. */
  predicate Shaped(a: Accessor, profile: string) {
    match a
    case Repo(repo, branch) => repo != [] && (branch.Some? ==> 1 <= |branch.value| <= 255)
    case Wasm(hash) => |hash| == 64 && AllHex(hash)
    case OfProject(id) => id != [] && '/' in id
    case PaymentKey => ParseU32(profile).Some? && 1 <= ParseU32(profile).value <= I32_MAX
  }

  predicate ValidAccessor(a: Accessor, profile: string, projects: set<string>) {
    Shaped(a, profile) && (a.OfProject? ==> a.id in projects)
  }

  /** The checks of `store_secrets_internal` on a canonical key. */
  predicate Storable(key: SecretKey, cipher: string, access: Condition, projects: set<string>) {
    && WithinBounds(access)
    && ValidAccessor(key.accessor, key.profile, projects)
    && IsProfile(key.profile) && cipher != []
    && (IsLowerHex64(key.profile) ==> key.profile == key.owner)
  }

  function NonceOf(key: SecretKey): nat
    requires ParseU32(key.profile).Some?
  {
    ParseU32(key.profile).value
  }

  /** A payment key is written once, above every nonce its owner has held. */
  predicate NonceFree(st: Store, key: SecretKey)
    requires key.accessor.PaymentKey? ==> ParseU32(key.profile).Some?
  {
    key.accessor.PaymentKey? ==> key !in st.rows && NonceOf(key) > Get(st.floors, key.owner)
  }

  // ---- money ----

  /** Set `amount` aside for good. */
  function Keep(t: Till, amount: nat): Till {
    t.(kept := t.kept + amount)
  }

  // ---- store_secrets ----

  /** The row already held counts towards the new price. */
  function HeldFor(st: Store, key: SecretKey): nat {
    if key in st.rows then st.rows[key].deposit else 0
  }

  /** What a store must have at hand: the new price, and the floor entry for an owner's first key. */
  function Charged(st: Store, key: SecretKey, price: nat): nat {
    if key in st.rows || !key.accessor.PaymentKey? then price else price + FloorDeposit(st, key.owner)
  }

  function StoreAt(st: Store, key: SecretKey, row: Row, vault: Option<Account>): Store {
    Store(st.rows[key := row],
          if key in st.rows then st.index else Added(st.index, key.owner, key),
          if vault.Some? then st.bindings[key := vault.value] else st.bindings,
          if key.accessor.PaymentKey? && ParseU32(key.profile).Some?
          then RaiseFloor(st.floors, key.owner, NonceOf(key)) else st.floors)
  }

  function RaiseFloor(floors: map<Account, nat>, owner: Account, nonce: nat): map<Account, nat> {
    if owner !in floors || floors[owner] < nonce then floors[owner := nonce] else floors
  }

  function Recorded(h: History, key: SecretKey): History
    requires key.accessor.PaymentKey? ==> ParseU32(key.profile).Some?
  {
    History(if key.accessor.PaymentKey? then h.created + [(key.owner, NonceOf(key))] else h.created,
            h.unbound - {key})
  }

  /** Write the row; take `attached` in, repay `refund` and keep `kept`. */
  function Commit(s: State, key: SecretKey, row: Row, vault: Option<Account>, attached: nat, payer: Account,
                  refund: nat, kept: nat): State
    requires key.accessor.PaymentKey? ==> ParseU32(key.profile).Some?
  {
    s.(store := StoreAt(s.store, key, row, vault),
       purse := Move(s.purse, attached, payer, refund),
       till := Keep(s.till, kept),
       history := Recorded(s.history, key),
       nextBirth := s.nextBirth + (if key in s.store.rows then 0 else 1))
  }

  /** What the row already holds counts towards its new price; what is over goes back to the payer. */
  function Put(s: State, key: SecretKey, payer: Account, cipher: string, access: Condition, vault: Option<Account>,
               price: nat, attached: nat): Option<State>
    requires key.accessor.PaymentKey? ==> ParseU32(key.profile).Some?
  {
    var st := s.store;
    var charged, held := Charged(st, key, price), HeldFor(st, key);
    if attached + held < charged then None
    else
      var birth := if key in st.rows then st.rows[key].birth else s.nextBirth;
      Some(Commit(s, key, Row(cipher, |cipher|, access, price, birth), vault, attached, payer,
                  attached + held - charged, charged - price))
  }

  function PutPriced(s: State, key: SecretKey, payer: Account, cipher: string, access: Condition,
                     vault: Option<Account>, attached: nat): Option<State>
    requires key.accessor.PaymentKey? ==> ParseU32(key.profile).Some?
  {
    var price := Price(key, |cipher|, access, vault.Some? || key in s.store.bindings);
    Put(s, key, payer, cipher, access, vault, price, attached)
  }

  function StoreSecret(s: State, owner: Account, payer: Account, a: Accessor, profile: string, cipher: string,
                       access: Condition, vault: Option<Account>, attached: nat): Option<State> {
    var key := KeyFor(a, profile, owner);
    if !Storable(key, cipher, access, s.projects) || !NonceFree(s.store, key) then None
    else PutPriced(s, key, payer, cipher, access, vault, attached)
  }

  // ---- delete ----

  function RemoveAt(st: Store, key: SecretKey): Store {
    st.(rows := st.rows - {key}, bindings := st.bindings - {key}, index := Removed(st.index, key.owner, key))
  }

  function DeleteKey(s: State, key: SecretKey, refundTo: Account): Option<State> {
    if key !in s.store.rows then None
    else Some(s.(store := RemoveAt(s.store, key),
                 purse := Move(s.purse, 0, refundTo, s.store.rows[key].deposit),
                 history := s.history.(unbound := s.history.unbound - {key})))
  }

  // ---- unbind_secret_vault, update_access ----

  function Unbind(s: State, caller: Account, a: Accessor, profile: string): Option<State> {
    var key := KeyFor(a, profile, caller);
    if key !in s.store.rows then None
    else if key !in s.store.bindings then Some(s)
    else Some(s.(store := s.store.(bindings := s.store.bindings - {key}),
                 history := s.history.(unbound := s.history.unbound + {key})))
  }

  /** Write a row's condition at its new price, taking or repaying the difference. */
  function Reprice(s: State, key: SecretKey, caller: Account, access: Condition, price: nat,
                   attached: nat): Option<State>
    requires key in s.store.rows
  {
    var row := s.store.rows[key];
    if attached + row.deposit < price then None
    else
      var priced := row.(pricedLen := |row.cipher|, access := access, deposit := price);
      Some(s.(store := s.store.(rows := s.store.rows[key := priced]),
              purse := Move(s.purse, attached, caller, attached + row.deposit - price),
              history := s.history.(unbound := s.history.unbound - {key})))
  }

  function UpdateAccess(s: State, caller: Account, a: Accessor, profile: string, access: Condition,
                        attached: nat): Option<State> {
    var key := KeyFor(a, profile, caller);
    if key !in s.store.rows || !WithinBounds(access) then None
    else Reprice(s, key, caller, access,
                 Price(key, |s.store.rows[key].cipher|, access, key in s.store.bindings), attached)
  }

  // ---- payment keys ----

  function RequestTopUp(s: State, owner: Account, amount: nat, nonce: nat): Option<State> {
    var key := PaymentKeyAt(owner, nonce);
    if amount < MIN_TOP_UP_AMOUNT || key !in s.store.rows then None
    else Some(s.(promises := s.promises[s.nextPromise := TopUp(owner, nonce, amount, s.store.rows[key].birth)],
                 nextPromise := s.nextPromise + 1))
  }

  /** `on_top_up_response`: a success carries the new ciphertext; an error or a timeout carries none. */
  function OnTopUp(s: State, p: nat, cipher: Option<string>): Option<State> {
    if p !in s.promises || !s.promises[p].TopUp? then None
    else
      var t := s.(promises := s.promises - {p});
      var y, st := s.promises[p], s.store;
      var key := PaymentKeyAt(y.owner, y.nonce);
      if cipher.Some? && key in st.rows
      then Some(t.(store := st.(rows := st.rows[key := st.rows[key].(cipher := cipher.value)]),
                   till := s.till.(tokensKept := s.till.tokensKept + y.amount)))
      else Some(t.(till := s.till.(tokensRefunded := s.till.tokensRefunded + y.amount)))
  }

  function RequestDeletion(s: State, caller: Account, nonce: nat, deposit: nat): Option<State> {
    if deposit < 1 || PaymentKeyAt(caller, nonce) !in s.store.rows then None
    else Some(s.(promises := s.promises[s.nextPromise := Deletion(caller, nonce)], nextPromise := s.nextPromise + 1,
                 purse := Move(s.purse, deposit, caller, 0), till := Keep(s.till, deposit)))
  }

  /** `on_delete_payment_key_response`: a success on a row that is already gone panics, which only
      spends the yield. */
  function OnDeletion(s: State, p: nat, success: bool): Option<State> {
    if p !in s.promises || !s.promises[p].Deletion? then None
    else
      var t := s.(promises := s.promises - {p});
      var y := s.promises[p];
      var u := DeleteKey(t, PaymentKeyAt(y.owner, y.nonce), y.owner);
      if !success || u.None? then Some(t)
      else Some(u.value.(store := u.value.store.(floors := RaiseFloor(u.value.store.floors, y.owner, y.nonce))))
  }

  // ---- steps and runs ----

  datatype Call =
    | CallStore(caller: Account, accessor: Accessor, profile: string, cipher: string, access: Condition,
                vault: Option<Account>, attached: nat)
    // `agent` is the implicit account of the key whose signature over the arguments was verified
    | CallStoreAgent(agent: Account, payer: Account, accessor: Accessor, profile: string, cipher: string,
                     access: Condition, vault: Option<Account>, attached: nat)
    | CallDelete(caller: Account, accessor: Accessor, profile: string)
    | CallDeleteAgent(agent: Account, payer: Account, accessor: Accessor, profile: string)
    | CallUnbind(caller: Account, accessor: Accessor, profile: string)
    | CallUpdateAccess(caller: Account, accessor: Accessor, profile: string, access: Condition, attached: nat)
    | CallTopUp(owner: Account, amount: nat, nonce: nat)
    | TopUpCallback(p: nat, newCipher: Option<string>)
    | CallDeletePaymentKey(caller: Account, nonce: nat, deposit: nat)
    | DeletionCallback(p: nat, success: bool)
    | ProjectsChanged(projects: set<string>)

  predicate AgentAccessor(a: Accessor) {
    a.Wasm? || a.OfProject?
  }

  function Step(s: State, c: Call): Option<State> {
    match c
    case CallStore(caller, a, profile, cipher, access, vault, attached) =>
      StoreSecret(s, caller, caller, a, profile, cipher, access, vault, attached)
    case CallStoreAgent(agent, payer, a, profile, cipher, access, vault, attached) =>
      if !AgentAccessor(a) || !IsLowerHex64(agent) || ':' in profile then None
      else StoreSecret(s, agent, payer, a, profile, cipher, access, vault, attached)
    case CallDelete(caller, a, profile) => DeleteKey(s, KeyFor(a, profile, caller), caller)
    case CallDeleteAgent(agent, payer, a, profile) =>
      if !AgentAccessor(a) || !IsLowerHex64(agent) || ':' in profile then None
      else DeleteKey(s, KeyFor(a, profile, agent), payer)
    case CallUnbind(caller, a, profile) => Unbind(s, caller, a, profile)
    case CallUpdateAccess(caller, a, profile, access, attached) => UpdateAccess(s, caller, a, profile, access, attached)
    case CallTopUp(owner, amount, nonce) => RequestTopUp(s, owner, amount, nonce)
    case TopUpCallback(p, cipher) => OnTopUp(s, p, cipher)
    case CallDeletePaymentKey(caller, nonce, deposit) => RequestDeletion(s, caller, nonce, deposit)
    case DeletionCallback(p, success) => OnDeletion(s, p, success)
    case ProjectsChanged(projects) => Some(s.(projects := projects))
  }

  function After(s: State, c: Call): State {
    Step(s, c).GetOr(s)
  }

  function Run(s: State, calls: seq<Call>): State
    decreases |calls|
  {
    if calls == [] then s else Run(After(s, calls[0]), calls[1..])
  }
}
