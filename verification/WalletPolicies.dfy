/** What every run of the wallet-policy methods keeps: the maps agree, deposits are exact, versions
    count the writes of a policy's lifetime, and a lock is only left through a signed unlocked write. */
module WalletPolicies {
  import opened Options
  import opened Sums
  import opened Charges
  import opened Words
  import opened WalletKeys
  import opened Messages
  import opened Indexes
  import opened Purses
  import opened Wallet

  // ---- the maps agree ----

  ghost function OwnersOf(policies: map<string, Policy>): map<string, Account> {
    map key | key in policies :: policies[key].owner
  }

  ghost predicate MapsAgree(sh: Shelf) {
    && sh.meta.Keys == sh.policies.Keys && sh.refundTo.Keys <= sh.policies.Keys
    && Exact(sh.index, OwnersOf(sh.policies))
  }

  lemma WriteAgrees(sh: Shelf, r: PolicyRequest, named: Option<Account>, price: nat)
    requires MapsAgree(sh) && MayWrite(sh, r, named)
    ensures MapsAgree(WriteAt(sh, r, named, price))
  {
    var t := WriteAt(sh, r, named, price);
    AddedIsExact(sh.index, OwnersOf(sh.policies), r.caller, r.key);
    assert OwnersOf(t.policies) == OwnersOf(sh.policies)[r.key := r.caller];
    if r.key in sh.policies {
      assert OwnersOf(t.policies) == OwnersOf(sh.policies);
    }
  }

  lemma RemoveAgrees(sh: Shelf, key: string)
    requires MapsAgree(sh) && key in sh.policies
    ensures MapsAgree(RemoveAt(sh, sh.policies[key].owner, key))
  {
    RemovedIsExact(sh.index, OwnersOf(sh.policies), key);
    assert OwnersOf(sh.policies - {key}) == OwnersOf(sh.policies) - {key};
  }

  lemma FreezeAgrees(sh: Shelf, key: string, frozen: bool)
    requires MapsAgree(sh) && key in sh.policies
    ensures MapsAgree(sh.(policies := sh.policies[key := sh.policies[key].(frozen := frozen)]))
  {
    assert OwnersOf(sh.policies[key := sh.policies[key].(frozen := frozen)]) == OwnersOf(sh.policies);
  }

  lemma MapsStep(s: State, c: Call)
    requires MapsAgree(s.shelf)
    ensures MapsAgree(After(s, c).shelf)
  {
    if Step(s, c).None? {
      return;
    }
    match c
    case CallStore(r, signed, named, now, attached) =>
      var write := r.(key := CanonicalKey(r.key).value);
      WriteAgrees(s.shelf, write, named, After(s, c).shelf.policies[write.key].deposit);
    case CallSetFrozen(caller, spelling, frozen) => FreezeAgrees(s.shelf, CanonicalKey(spelling).value, frozen);
    case CallDelete(caller, spelling) => RemoveAgrees(s.shelf, CanonicalKey(spelling).value);
    case CallSetRefundTo(caller, spelling, account) =>
      assert After(s, c).shelf.refundTo.Keys == s.shelf.refundTo.Keys;
    case SetPaused(paused) =>
  }

  // ---- deposits ----

  predicate Priced(sh: Shelf, key: string)
    requires key in sh.policies
  {
    sh.policies[key].deposit == PolicyPrice(key, sh.policies[key].data, key in sh.refundTo)
  }

  ghost predicate AllPriced(sh: Shelf) {
    forall key :: key in sh.policies ==> Priced(sh, key)
  }

  lemma StaysPriced(sh: Shelf, t: Shelf, key: string)
    requires key in sh.policies && Priced(sh, key) && key in t.policies
    requires t.policies[key].data == sh.policies[key].data && t.policies[key].deposit == sh.policies[key].deposit
    requires key in t.refundTo <==> key in sh.refundTo
    ensures Priced(t, key)
  {
  }

  lemma PricedStep(s: State, c: Call)
    requires AllPriced(s.shelf) && MapsAgree(s.shelf)
    ensures AllPriced(After(s, c).shelf)
  {
    var t := After(s, c);
    forall key | key in t.shelf.policies
      ensures Priced(t.shelf, key)
    {
      if c.CallStore? && Step(s, c).Some? && CanonicalKey(c.request.key) == Some(key) {
        WriteIsPriced(s, c.request.(key := key), c.named, c.attached);
      } else {
        StaysPriced(s.shelf, t.shelf, key);
      }
    }
  }

  lemma WriteIsPriced(s: State, r: PolicyRequest, named: Option<Account>, attached: nat)
    requires MapsAgree(s.shelf) && Write(s, r, named, attached).Some?
    ensures Priced(Write(s, r, named, attached).value.shelf, r.key)
  {
  }

  function DepositsOf(policies: map<string, Policy>): map<string, nat> {
    map key | key in policies :: policies[key].deposit
  }

  /** All NEAR taken in is held against policies or paid out. */
  ghost predicate Accounted(sh: Shelf, p: Purse) {
    Sum(DepositsOf(sh.policies)) + Sum(p.paid) == p.paidIn
  }

  lemma WriteAccounts(s: State, r: PolicyRequest, named: Option<Account>, attached: nat)
    requires Accounted(s.shelf, s.purse) && Write(s, r, named, attached).Some?
    ensures var t := Write(s, r, named, attached).value; Accounted(t.shelf, t.purse)
  {
    var t := Write(s, r, named, attached).value;
    var price := t.shelf.policies[r.key].deposit;
    assert DepositsOf(t.shelf.policies) == DepositsOf(s.shelf.policies)[r.key := price];
    SumUpdate(DepositsOf(s.shelf.policies), r.key, price);
    MovePays(s.purse, attached, Beneficiary(s.shelf, r.key, named).GetOr(r.caller),
             attached + HeldFor(s.shelf, r.key) - price);
  }

  lemma DeleteAccounts(s: State, caller: Account, spelling: string)
    requires Accounted(s.shelf, s.purse) && DeletePolicy(s, caller, spelling).Some?
    ensures var t := DeletePolicy(s, caller, spelling).value; Accounted(t.shelf, t.purse)
  {
    var key := CanonicalKey(spelling).value;
    var sh := s.shelf;
    assert DepositsOf(sh.policies - {key}) == DepositsOf(sh.policies) - {key};
    SumWithout(DepositsOf(sh.policies), key);
    MovePays(s.purse, 0, if key in sh.refundTo then sh.refundTo[key] else caller, sh.policies[key].deposit);
  }

  lemma AccountedStep(s: State, c: Call)
    requires Accounted(s.shelf, s.purse)
    ensures Accounted(After(s, c).shelf, After(s, c).purse)
  {
    if Step(s, c).None? {
      return;
    }
    match c
    case CallStore(r, signed, named, now, attached) =>
      WriteAccounts(s, r.(key := CanonicalKey(r.key).value), named, attached);
    case CallDelete(caller, spelling) => DeleteAccounts(s, caller, spelling);
    case _ => assert DepositsOf(After(s, c).shelf.policies) == DepositsOf(s.shelf.policies);
  }

  // ---- lifetimes ----

  function Extended(life: seq<PolicyRequest>, e: Event, key: string): seq<PolicyRequest> {
    if e.Stored? then (if e.request.key == key then life + [e.request] else life)
    else if e.key == key then [] else life
  }

  /** The writes under a key since it was last deleted. */
  function Lifetime(log: seq<Event>, key: string): seq<PolicyRequest> {
    if log == [] then [] else Extended(Lifetime(log[..|log| - 1], key), log[|log| - 1], key)
  }

  lemma LifetimeAppend(log: seq<Event>, e: Event, key: string)
    ensures Lifetime(log + [e], key) == Extended(Lifetime(log, key), e, key)
  {
    assert (log + [e])[..|log|] == log;
  }

  function IsLocked(life: seq<PolicyRequest>): bool {
    life != [] && life[|life| - 1].locked
  }

  /** A write carried its canonical key and the next version of its lifetime; a deletion found a policy
      whose last write was unlocked. */
  predicate EventSound(log: seq<Event>, e: Event) {
    match e
    case Stored(r) => CanonicalKey(r.key) == Some(r.key) && r.version == |Lifetime(log, r.key)| + 1
    case Deleted(key) => Lifetime(log, key) != [] && !IsLocked(Lifetime(log, key))
  }

  ghost predicate LogSound(log: seq<Event>) {
    forall i :: 0 <= i < |log| ==> EventSound(log[..i], log[i])
  }

  lemma LogAppend(log: seq<Event>, e: Event)
    requires LogSound(log) && EventSound(log, e)
    ensures LogSound(log + [e])
  {
    forall i | 0 <= i < |log| + 1
      ensures EventSound((log + [e])[..i], (log + [e])[i])
    {
      assert (log + [e])[..i] == if i < |log| then log[..i] else log;
    }
  }

  /** What is stored under a key is what its lifetime says: the last write, and how many there were. */
  predicate KeyMatchesLog(sh: Shelf, log: seq<Event>, key: string) {
    var life := Lifetime(log, key);
    && (key in sh.policies <==> life != [])
    && MetaOf(sh, key) == Meta(|life|, IsLocked(life))
    && (key in sh.policies ==> var last := life[|life| - 1];
          sh.policies[key].data == last.data && sh.policies[key].owner == last.caller)
  }

  ghost predicate MatchesLog(sh: Shelf, log: seq<Event>) {
    forall key :: KeyMatchesLog(sh, log, key)
  }

  lemma CanonicalIsStable(spelling: string)
    requires CanonicalKey(spelling).Some?
    ensures CanonicalKey(CanonicalKey(spelling).value) == CanonicalKey(spelling)
  {
    CanonicalKeyNamesTheKey(spelling, spelling);
  }

  lemma WriteMatches(sh: Shelf, log: seq<Event>, r: PolicyRequest, named: Option<Account>, price: nat, key: string)
    requires KeyMatchesLog(sh, log, key) && r.version == MetaOf(sh, r.key).version + 1
    ensures KeyMatchesLog(WriteAt(sh, r, named, price), log + [Stored(r)], key)
  {
    LifetimeAppend(log, Stored(r), key);
    if key == r.key {
      assert Lifetime(log + [Stored(r)], key) == Lifetime(log, key) + [r];
    }
  }

  lemma WriteLogged(s: State, r: PolicyRequest, named: Option<Account>, attached: nat)
    requires MatchesLog(s.shelf, s.log) && LogSound(s.log)
    requires CanonicalKey(r.key) == Some(r.key) && r.version == MetaOf(s.shelf, r.key).version + 1
    requires Write(s, r, named, attached).Some?
    ensures var t := Write(s, r, named, attached).value; MatchesLog(t.shelf, t.log) && LogSound(t.log)
  {
    var t := Write(s, r, named, attached).value;
    var price := t.shelf.policies[r.key].deposit;
    assert KeyMatchesLog(s.shelf, s.log, r.key);
    LogAppend(s.log, Stored(r));
    forall key
      ensures KeyMatchesLog(t.shelf, t.log, key)
    {
      WriteMatches(s.shelf, s.log, r, named, price, key);
    }
  }

  lemma DeleteLogged(s: State, caller: Account, spelling: string)
    requires MatchesLog(s.shelf, s.log) && LogSound(s.log) && DeletePolicy(s, caller, spelling).Some?
    ensures var t := DeletePolicy(s, caller, spelling).value; MatchesLog(t.shelf, t.log) && LogSound(t.log)
  {
    var t := DeletePolicy(s, caller, spelling).value;
    var gone := CanonicalKey(spelling).value;
    assert KeyMatchesLog(s.shelf, s.log, gone);
    LogAppend(s.log, Deleted(gone));
    forall key
      ensures KeyMatchesLog(t.shelf, t.log, key)
    {
      assert KeyMatchesLog(s.shelf, s.log, key);
      LifetimeAppend(s.log, Deleted(gone), key);
    }
  }

  lemma OthersLogged(s: State, c: Call)
    requires MatchesLog(s.shelf, s.log) && !c.CallStore? && !c.CallDelete?
    ensures MatchesLog(After(s, c).shelf, After(s, c).log)
  {
    forall key
      ensures KeyMatchesLog(After(s, c).shelf, After(s, c).log, key)
    {
      assert KeyMatchesLog(s.shelf, s.log, key);
    }
  }

  lemma LogStep(s: State, c: Call)
    requires MatchesLog(s.shelf, s.log) && LogSound(s.log)
    ensures MatchesLog(After(s, c).shelf, After(s, c).log) && LogSound(After(s, c).log)
  {
    if Step(s, c).None? {
      return;
    }
    match c
    case CallStore(r, signed, named, now, attached) =>
      CanonicalIsStable(r.key);
      WriteLogged(s, r.(key := CanonicalKey(r.key).value), named, attached);
    case CallDelete(caller, spelling) => DeleteLogged(s, caller, spelling);
    case _ => OthersLogged(s, c);
  }

  // ---- every run ----

  ghost predicate Inv(s: State) {
    && MapsAgree(s.shelf) && AllPriced(s.shelf) && Accounted(s.shelf, s.purse)
    && MatchesLog(s.shelf, s.log) && LogSound(s.log)
  }

  /** On every run: version records exist for exactly the live policies, beneficiaries only for live
      policies, each owner's index is exact, each deposit is exactly the price of what it is held for,
      all NEAR is accounted for, and each policy is the last write of its lifetime. */
  lemma {:induction false} RunInv(s: State, calls: seq<Call>)
    requires Inv(s)
    ensures Inv(Run(s, calls))
    decreases |calls|
  {
    if calls != [] {
      MapsStep(s, calls[0]);
      PricedStep(s, calls[0]);
      AccountedStep(s, calls[0]);
      LogStep(s, calls[0]);
      RunInv(After(s, calls[0]), calls[1..]);
    }
  }

  lemma InitInv(s: State)
    requires s == Init()
    ensures Inv(s)
  {
    assert OwnersOf(s.shelf.policies) == map[] && DepositsOf(s.shelf.policies) == map[];
    forall key
      ensures KeyMatchesLog(s.shelf, s.log, key)
    {
    }
  }

  // ---- one write per signed message ----

  predicate DeletedBetween(log: seq<Event>, i: nat, j: nat, key: string)
    requires i <= j <= |log|
  {
    exists k :: i <= k < j && log[k] == Deleted(key)
  }

  /** A write stays in its key's lifetime until a deletion. */
  lemma {:induction false} LifetimeOnlyGrows(log: seq<Event>, i: nat, j: nat, key: string)
    requires i <= j <= |log| && !DeletedBetween(log, i, j, key)
    ensures |Lifetime(log[..i], key)| <= |Lifetime(log[..j], key)|
    decreases j
  {
    if i < j {
      LifetimeOnlyGrows(log, i, j - 1, key);
      assert log[..j] == log[..j - 1] + [log[j - 1]];
      LifetimeAppend(log[..j - 1], log[j - 1], key);
    }
  }

  /** A write's version is its place in its lifetime. */
  lemma WriteIsCounted(log: seq<Event>, i: nat)
    requires LogSound(log) && i < |log| && log[i].Stored?
    ensures var r := log[i].request;
            IsWalletKey(r.key) && |Lifetime(log[..i], r.key)| + 1 == r.version == |Lifetime(log[..i + 1], r.key)|
  {
    assert EventSound(log[..i], log[i]);
    LifetimeWithWrite(log, i);
  }

  lemma LifetimeWithWrite(log: seq<Event>, i: nat)
    requires i < |log| && log[i].Stored?
    ensures var r := log[i].request; Lifetime(log[..i + 1], r.key) == Lifetime(log[..i], r.key) + [r]
  {
    assert log[..i + 1] == log[..i] + [log[i]];
    LifetimeAppend(log[..i], log[i], log[i].request.key);
  }

  lemma OncePerLifetime(log: seq<Event>, i: nat, j: nat)
    requires LogSound(log) && i < j < |log| && log[i].Stored? && log[j].Stored?
    requires PolicyMessage(log[i].request) == PolicyMessage(log[j].request)
    ensures DeletedBetween(log, i + 1, j, log[i].request.key)
  {
    WriteIsCounted(log, i);
    WriteIsCounted(log, j);
    PolicyMessageNamesOneRequest(log[i].request, log[j].request);
    if !DeletedBetween(log, i + 1, j, log[i].request.key) {
      LifetimeOnlyGrows(log, i + 1, j, log[i].request.key);
    }
  }

  /** A signed message is accepted at most once per lifetime: between two acceptances of the same text
      the policy was deleted. */
  lemma AcceptedOncePerLifetime(s: State, calls: seq<Call>, log: seq<Event>, i: nat, j: nat)
    requires s == Init() && log == Run(s, calls).log && i < j < |log| && log[i].Stored? && log[j].Stored?
    requires PolicyMessage(log[i].request) == PolicyMessage(log[j].request)
    ensures DeletedBetween(log, i + 1, j, log[i].request.key)
  {
    InitInv(s);
    RunInv(s, calls);
    OncePerLifetime(log, i, j);
  }

  /** The lifetime's last write is in the log, with nothing about the key behind it. */
  lemma {:induction false} LastWrite(log: seq<Event>, key: string) returns (k: nat)
    requires Lifetime(log, key) != []
    ensures k < |log| && log[k] == Stored(Lifetime(log, key)[|Lifetime(log, key)| - 1]) && log[k].request.key == key
    ensures forall m :: k < m < |log| ==> log[m] != Deleted(key) && !(log[m].Stored? && log[m].request.key == key)
    decreases |log|
  {
    var n := |log| - 1;
    var last := log[n];
    if last.Stored? && last.request.key == key {
      k := n;
    } else {
      k := LastWrite(log[..n], key);
      assert forall m :: k < m < n ==> log[m] == log[..n][m];
    }
  }

  /** Some call presented a signature over this very write, sent by its controller. */
  predicate SignedIn(calls: seq<Call>, r: PolicyRequest) {
    exists i :: 0 <= i < |calls| && calls[i].CallStore? && calls[i].request.caller == r.caller
                && calls[i].signed == Some(PolicyMessage(r))
  }

  lemma LogGrows(s: State, c: Call)
    ensures var log, n := After(s, c).log, |s.log|;
            log == s.log || (log == s.log + [log[n]] && (log[n].Stored? ==> SignedIn([c], log[n].request)))
  {
    if Step(s, c).Some? && c.CallStore? {
      assert [c][0] == c;
    }
  }

  /** Every write that a run accepted was signed. */
  lemma {:induction false} AcceptedWasSigned(s: State, calls: seq<Call>, k: nat)
    requires |s.log| <= k < |Run(s, calls).log| && Run(s, calls).log[k].Stored?
    ensures SignedIn(calls, Run(s, calls).log[k].request)
    decreases |calls|
  {
    if calls != [] {
      var t := After(s, calls[0]);
      LogGrows(s, calls[0]);
      if k < |t.log| {
        LogKept(t, calls[1..], k);
        assert calls[0] == [calls[0]][0];
      } else {
        AcceptedWasSigned(t, calls[1..], k);
        var i :| 0 <= i < |calls[1..]| && calls[1..][i].CallStore?
                 && calls[1..][i].request.caller == Run(s, calls).log[k].request.caller
                 && calls[1..][i].signed == Some(PolicyMessage(Run(s, calls).log[k].request));
        assert calls[i + 1] == calls[1..][i];
      }
    }
  }

  lemma {:induction false} LogKept(s: State, calls: seq<Call>, k: nat)
    requires k < |s.log|
    ensures k < |Run(s, calls).log| && Run(s, calls).log[k] == s.log[k]
    decreases |calls|
  {
    if calls != [] {
      LogGrows(s, calls[0]);
      LogKept(After(s, calls[0]), calls[1..], k);
    }
  }

  /** A locked policy is only ever deleted after a later signed write that unlocked it. */
  lemma LockIsLeftBySignedWrite(s: State, calls: seq<Call>, log: seq<Event>, i: nat, j: nat, key: string)
    returns (k: nat)
    requires s == Init() && log == Run(s, calls).log && i < j < |log| && log[j] == Deleted(key)
    requires log[i].Stored? && log[i].request.key == key && log[i].request.locked
    ensures i < k < j && log[k].Stored? && log[k].request.key == key && !log[k].request.locked
    ensures SignedIn(calls, log[k].request)
  {
    InitInv(s);
    RunInv(s, calls);
    assert EventSound(log[..j], log[j]);
    k := LastWrite(log[..j], key);
    assert log[..j][k] == log[k] && log[..j][i] == log[i];
    AcceptedWasSigned(s, calls, k);
  }

  // ---- the same signature again ----

  /** The deposit at hand covers the policy. */
  predicate Affords(sh: Shelf, r: PolicyRequest, named: Option<Account>, attached: nat) {
    attached + HeldFor(sh, r.key) >= PolicyPrice(r.key, r.data, Beneficiary(sh, r.key, named).Some?)
  }

  /** A signature that was good once is good again, in whatever reachable state and with whatever the new
      call attaches, exactly when its version is the next of the policy's present lifetime, in time and
      paid for, and its sender may write. The lock it was signed with does not matter. */
  lemma FiledAgain(s: State, c: Call, u: State, named: Option<Account>, now: nat, attached: nat)
    requires c.CallStore? && Step(s, c).Some? && Inv(u)
    ensures var r := c.request.(key := CanonicalKey(c.request.key).value);
            Step(u, c.(named := named, now := now, attached := attached)).Some? <==>
            && !u.paused && now <= r.validUntil && MayWrite(u.shelf, r, named) && Affords(u.shelf, r, named, attached)
            && r.version == |Lifetime(u.log, r.key)| + 1
  {
    assert KeyMatchesLog(u.shelf, u.log, CanonicalKey(c.request.key).value);
  }

  /** Once its policy is gone, that is: exactly when it was for version 1, locked or not. */
  lemma FiledAgainAfterDelete(s: State, c: Call, u: State, named: Option<Account>, now: nat, attached: nat)
    requires c.CallStore? && Step(s, c).Some? && Inv(u)
    requires CanonicalKey(c.request.key).value !in u.shelf.policies
    ensures var r := c.request.(key := CanonicalKey(c.request.key).value);
            Step(u, c.(named := named, now := now, attached := attached)).Some? <==>
            && !u.paused && now <= r.validUntil && attached >= PolicyPrice(r.key, r.data, named.Some?)
            && r.version == 1
  {
    var key := CanonicalKey(c.request.key).value;
    assert KeyMatchesLog(u.shelf, u.log, key);
    FiledAgain(s, c, u, named, now, attached);
  }

  // ---- two runs that file a signature twice ----

  /** A signed write under its exact price, by a key in its canonical spelling. */
  function SignedWrite(key: string, caller: Account, data: string, version: nat, locked: bool): Call {
    var r := PolicyRequest(key, version, locked, 0, data, caller);
    CallStore(r, Some(PolicyMessage(r)), None, 0, PolicyPrice(key, data, false))
  }

  predicate Stands(s: State, key: string, caller: Account, meta: Meta) {
    && !s.paused && key in s.shelf.policies && s.shelf.policies[key].owner == caller
    && key !in s.shelf.refundTo && MetaOf(s.shelf, key) == meta
  }

  predicate Absent(s: State, key: string) {
    !s.paused && key !in s.shelf.policies && key !in s.shelf.refundTo && key !in s.shelf.meta
  }

  predicate WritableData(data: string) {
    0 < |data| <= MAX_POLICY_BYTES
  }

  /** A signed write of the next version is the write itself. */
  lemma SignedWriteWrites(s: State, key: string, caller: Account, data: string, version: nat, locked: bool)
    requires CanonicalKey(key) == Some(key) && WritableData(data) && !s.paused
    requires version == MetaOf(s.shelf, key).version + 1
    ensures Step(s, SignedWrite(key, caller, data, version, locked))
         == Write(s, PolicyRequest(key, version, locked, 0, data, caller), None, PolicyPrice(key, data, false))
  {
  }

  lemma WriteStands(s: State, r: PolicyRequest, attached: nat)
    requires !s.paused && r.key !in s.shelf.refundTo && MayWrite(s.shelf, r, None)
    requires attached == PolicyPrice(r.key, r.data, false)
    ensures Write(s, r, None, attached).Some?
    ensures Stands(Write(s, r, None, attached).value, r.key, r.caller, Meta(r.version, r.locked))
  {
  }

  lemma FirstWrite(s: State, key: string, caller: Account, data: string, locked: bool)
    requires CanonicalKey(key) == Some(key) && WritableData(data) && Absent(s, key)
    ensures Step(s, SignedWrite(key, caller, data, 1, locked)).Some?
    ensures Stands(After(s, SignedWrite(key, caller, data, 1, locked)), key, caller, Meta(1, locked))
  {
    SignedWriteWrites(s, key, caller, data, 1, locked);
    WriteStands(s, PolicyRequest(key, 1, locked, 0, data, caller), PolicyPrice(key, data, false));
  }

  lemma NextWrite(s: State, key: string, caller: Account, data: string, was: Meta, locked: bool)
    requires CanonicalKey(key) == Some(key) && WritableData(data) && Stands(s, key, caller, was)
    ensures Step(s, SignedWrite(key, caller, data, was.version + 1, locked)).Some?
    ensures Stands(After(s, SignedWrite(key, caller, data, was.version + 1, locked)), key, caller,
                   Meta(was.version + 1, locked))
  {
    SignedWriteWrites(s, key, caller, data, was.version + 1, locked);
    WriteStands(s, PolicyRequest(key, was.version + 1, locked, 0, data, caller), PolicyPrice(key, data, false));
  }

  lemma Removal(s: State, key: string, caller: Account, version: nat)
    requires CanonicalKey(key) == Some(key) && Stands(s, key, caller, Meta(version, false))
    ensures Absent(After(s, CallDelete(caller, key)), key)
  {
  }

  /** A locked first write, an unlocked second one, a delete: the locked one is accepted again. */
  lemma LockedWriteFiledAgain(s: State, bytes: seq<Byte>, caller: Account, data: string)
    requires s == Init() && |bytes| == 32 && WritableData(data)
    ensures var key := KeyText(Ed25519(bytes));
            var first, second := SignedWrite(key, caller, data, 1, true), SignedWrite(key, caller, data, 2, false);
            Step(After(After(After(s, first), second), CallDelete(caller, key)), first).Some?
  {
    var key := KeyText(Ed25519(bytes));
    KeyTextParses(Ed25519(bytes));
    FirstWrite(s, key, caller, data, true);
    var t := After(s, SignedWrite(key, caller, data, 1, true));
    NextWrite(t, key, caller, data, Meta(1, true), false);
    var u := After(t, SignedWrite(key, caller, data, 2, false));
    Removal(u, key, caller, 2);
    FirstWrite(After(u, CallDelete(caller, key)), key, caller, data, true);
  }

  /** Two writes, a delete, the first write again: then the second is accepted again too. */
  lemma SecondWriteFiledAgain(s: State, bytes: seq<Byte>, caller: Account, data: string)
    requires s == Init() && |bytes| == 32 && WritableData(data)
    ensures var key := KeyText(Ed25519(bytes));
            var first, second := SignedWrite(key, caller, data, 1, false), SignedWrite(key, caller, data, 2, false);
            Step(After(After(After(After(s, first), second), CallDelete(caller, key)), first), second).Some?
  {
    var key := KeyText(Ed25519(bytes));
    KeyTextParses(Ed25519(bytes));
    FirstWrite(s, key, caller, data, false);
    var t := After(s, SignedWrite(key, caller, data, 1, false));
    NextWrite(t, key, caller, data, Meta(1, false), false);
    var u := After(t, SignedWrite(key, caller, data, 2, false));
    Removal(u, key, caller, 2);
    var w := After(u, CallDelete(caller, key));
    FirstWrite(w, key, caller, data, false);
    NextWrite(After(w, SignedWrite(key, caller, data, 1, false)), key, caller, data, Meta(1, false), false);
  }

  // ---- who changes what ----

  /** The call is a write of this key by its controller, under a signature over that very write. */
  predicate WritesAs(c: Call, controller: Account, key: string) {
    && c.CallStore? && CanonicalKey(c.request.key) == Some(key) && c.request.caller == controller
    && c.signed == Some(PolicyMessage(c.request.(key := key)))
  }

  predicate ChangedByHolder(sh: Shelf, c: Call, t: Shelf, key: string)
    requires key in sh.policies
  {
    var p := sh.policies[key];
    if key !in t.policies then
      c.CallDelete? && c.caller == p.owner && CanonicalKey(c.spelling) == Some(key) && !MetaOf(sh, key).locked
    else
      && t.policies[key].owner == p.owner
      && (t.policies[key].frozen != p.frozen ==>
            c.CallSetFrozen? && c.caller == p.owner && CanonicalKey(c.spelling) == Some(key)
            && c.frozen == t.policies[key].frozen)
      && (t.policies[key].data != p.data || MetaOf(t, key) != MetaOf(sh, key) ==> WritesAs(c, p.owner, key))
      && (key in t.refundTo <==> key in sh.refundTo)
      && (key in t.refundTo && t.refundTo[key] != sh.refundTo[key] ==>
            c.CallSetRefundTo? && c.caller == sh.refundTo[key] && CanonicalKey(c.spelling) == Some(key))
  }

  lemma StoreByHolder(s: State, c: Call, key: string)
    requires MapsAgree(s.shelf) && key in s.shelf.policies && c.CallStore?
    ensures ChangedByHolder(s.shelf, c, After(s, c).shelf, key)
  {
  }

  lemma DeleteByHolder(s: State, c: Call, key: string)
    requires MapsAgree(s.shelf) && key in s.shelf.policies && c.CallDelete?
    ensures ChangedByHolder(s.shelf, c, After(s, c).shelf, key)
  {
  }

  /** A freeze survives every edit: only the controller freezes or thaws. Only the controller changes the
      policy, its version or its lock, under a signature over that very write; only the controller deletes
      it, and never while locked; only the beneficiary hands its refunds on. The controller never changes. */
  lemma OnlyTheirHolders(s: State, c: Call, key: string)
    requires Inv(s) && key in s.shelf.policies
    ensures ChangedByHolder(s.shelf, c, After(s, c).shelf, key)
  {
    if c.CallStore? {
      StoreByHolder(s, c, key);
    } else if c.CallDelete? {
      DeleteByHolder(s, c, key);
    }
  }
}
