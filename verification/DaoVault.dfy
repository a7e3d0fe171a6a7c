/** The vault-version ballots: voters are counted once, the metadata of an open ballot is one value
    everybody passed, and a hash enters or leaves the list only on a majority of current members. */
module DaoVault {
  import opened Dao
  import opened DaoGovernance

  predicate NoDuplicates(voters: seq<Account>) {
    forall i, j :: 0 <= i < j < |voters| ==> voters[i] != voters[j]
  }

  lemma {:induction false} RetainKeeps(voters: seq<Account>, members: set<Account>)
    ensures forall a :: a in Retain(voters, members) <==> a in voters && a in members
    ensures NoDuplicates(voters) ==> NoDuplicates(Retain(voters, members))
  {
    if voters != [] {
      RetainKeeps(voters[1..], members);
      var rest := Retain(voters[1..], members);
      assert forall a :: a in voters <==> a == voters[0] || a in voters[1..];
      if NoDuplicates(voters) && voters[0] in members {
        assert voters[0] !in rest;
        NoDuplicatesCons(voters[0], rest);
      }
    }
  }

  lemma NoDuplicatesCons(a: Account, rest: seq<Account>)
    requires NoDuplicates(rest) && a !in rest
    ensures NoDuplicates([a] + rest)
  {
    var all := [a] + rest;
    assert forall i :: 0 < i < |all| ==> all[i] == rest[i - 1];
  }

  function VotersOf(v: Vault, action: Action): seq<Account> {
    if action in v.ballots then v.ballots[action] else []
  }

  /** What a poll is: current members only, each once, the voter among them, everybody else already on
      the ballot. */
  lemma PollIsFair(v: Vault, action: Action, members: set<Account>, voter: Account)
    requires voter in members && NoDuplicates(VotersOf(v, action))
    ensures var voters := Poll(v, action, members, voter);
            && NoDuplicates(voters) && voter in voters
            && (forall a :: a in voters ==> a in members && (a == voter || a in VotersOf(v, action)))
            && (forall a :: a in VotersOf(v, action) && a in members ==> a in voters)
  {
    RetainKeeps(VotersOf(v, action), members);
  }

  // ---- the invariant ----

  /** Everybody on the open ballot, and everybody who voted since it opened, passed the metadata it is
      locked to. */
  predicate OneArgs(v: Vault, hash: Hash) {
    && hash in v.cast && hash in v.locked && ApproveHash(hash) in v.ballots
    && (forall a :: a in v.ballots[ApproveHash(hash)] ==> a in v.cast[hash])
    && (forall a :: a in v.cast[hash] ==> v.cast[hash][a] == v.locked[hash])
  }

  ghost predicate VaultSound(v: Vault) {
    && v.hashes == v.versions.Keys
    && (forall action :: action in v.ballots ==> v.ballots[action] != [] && NoDuplicates(v.ballots[action]))
    && (forall hash :: hash in v.locked ==> OneArgs(v, hash))
    && (forall hash :: ApproveHash(hash) in v.ballots ==> hash in v.locked)
    && (forall hash :: hash in v.cast ==> hash in v.locked)
  }

  lemma VotersAreDistinct(v: Vault, action: Action)
    requires VaultSound(v)
    ensures NoDuplicates(VotersOf(v, action))
  {
  }

  lemma ApproveIsSound(s: State, caller: Account, hash: Hash, args: Args, now: nat)
    requires VaultSound(s.vault) && ApproveVersion(s, caller, hash, args, now).Some?
    ensures VaultSound(ApproveVersion(s, caller, hash, args, now).value.vault)
  {
    var v, t := s.vault, ApproveVersion(s, caller, hash, args, now).value.vault;
    VotersAreDistinct(v, ApproveHash(hash));
    PollIsFair(v, ApproveHash(hash), s.council.members, caller);
    forall h | h in t.locked
      ensures OneArgs(t, h)
    {
      if h != hash {
        assert OneArgs(v, h);
      }
    }
  }

  lemma RevokeIsSound(s: State, caller: Account, hash: Hash)
    requires VaultSound(s.vault) && RevokeVersion(s, caller, hash).Some?
    ensures VaultSound(RevokeVersion(s, caller, hash).value.vault)
  {
    var v, t := s.vault, RevokeVersion(s, caller, hash).value.vault;
    VotersAreDistinct(v, RevokeHash(hash));
    PollIsFair(v, RevokeHash(hash), s.council.members, caller);
    forall h | h in t.locked
      ensures OneArgs(t, h)
    {
      assert OneArgs(v, h);
    }
  }

  lemma DeprecateIsSound(s: State, caller: Account, hash: Hash)
    requires VaultSound(s.vault) && DeprecateVersion(s, caller, hash).Some?
    ensures VaultSound(DeprecateVersion(s, caller, hash).value.vault)
  {
    var v, t := s.vault, DeprecateVersion(s, caller, hash).value.vault;
    forall h | h in t.locked
      ensures OneArgs(t, h)
    {
      assert OneArgs(v, h);
    }
  }

  lemma OthersKeepVault(s: State, c: Call)
    requires !c.CallApproveVersion? && !c.CallRevokeVersion? && !c.CallDeprecateVersion?
    ensures After(s, c).vault == s.vault
  {
  }

  lemma VaultStep(s: State, c: Call)
    requires VaultSound(s.vault)
    ensures VaultSound(After(s, c).vault)
  {
    if Step(s, c).None? {
      return;
    }
    match c
    case CallApproveVersion(caller, hash, args, now) => ApproveIsSound(s, caller, hash, args, now);
    case CallRevokeVersion(caller, hash) => RevokeIsSound(s, caller, hash);
    case CallDeprecateVersion(caller, hash) => DeprecateIsSound(s, caller, hash);
    case _ => OthersKeepVault(s, c);
  }

  // ---- every run ----

  ghost predicate Inv(s: State) {
    Seated(s.council) && Sound(s.register) && Tallied(s.register) && VaultSound(s.vault)
  }

  lemma NewInv(owner: Account, initAccount: Account, members: seq<Account>)
    requires members != [] && forall i, j :: 0 <= i < j < |members| ==> members[i] != members[j]
    ensures Inv(New(owner, initAccount, members).value)
  {
    DistinctCount(members);
    NewIsSeated(owner, initAccount, members);
  }

  /** After every run from `new`: the approved hashes are the versions' domain, voter lists are free of
      duplicates, metadata is locked exactly while an approve ballot is open and is what all its
      voters passed, and the stored tallies count every vote ever cast. */
  lemma {:induction false} RunInv(s: State, calls: seq<Call>)
    requires Inv(s)
    ensures Inv(Run(s, calls))
    decreases |calls|
  {
    if calls != [] {
      RegisterStep(s, calls[0]);
      TallyStep(s, calls[0]);
      VaultStep(s, calls[0]);
      RunInv(After(s, calls[0]), calls[1..]);
    }
  }

  // ---- quorum ----

  /** A set of distinct current members, at least a majority of them, the caller included. */
  predicate MajorityPolled(c: Council, voters: seq<Account>, caller: Account) {
    AsSet(voters) <= c.members && |AsSet(voters)| >= Majority(|c.members|) && caller in voters
  }

  /** A version was written: listed for the first time, or its entry replaced by anything but the mark of
      deprecation. */
  predicate VersionWritten(v: Vault, t: Vault, hash: Hash) {
    && hash in t.versions
    && (hash in v.versions ==>
          t.versions[hash] != v.versions[hash] && t.versions[hash] != v.versions[hash].(deprecated := true))
  }

  /** A hash is listed, or the entry of a listed one replaced and its deprecation lifted, only by an
      approval call that completes a majority of distinct current members, all of whom passed exactly that
      metadata since the ballot opened; the ballot and its lock are then gone. */
  lemma ListedByMajority(s: State, c: Call, hash: Hash)
    requires Inv(s) && VersionWritten(s.vault, After(s, c).vault, hash)
    ensures c.CallApproveVersion? && c.hash == hash
    ensures var voters := Poll(s.vault, ApproveHash(hash), s.council.members, c.caller);
            && MajorityPolled(s.council, voters, c.caller)
            && (forall a :: a in voters && a != c.caller ==>
                  hash in s.vault.cast && a in s.vault.cast[hash] && s.vault.cast[hash][a] == c.args)
    ensures var t := After(s, c).vault;
            && t.versions[hash] == VersionInfo(c.args.title, c.args.auditUrl, false, c.now)
            && ApproveHash(hash) !in t.ballots && hash !in t.locked
  {
    if !c.CallApproveVersion? && !c.CallRevokeVersion? && !c.CallDeprecateVersion? {
      OthersKeepVault(s, c);
    }
    VotersAreDistinct(s.vault, ApproveHash(hash));
    PollIsFair(s.vault, ApproveHash(hash), s.council.members, c.caller);
    DistinctCount(Poll(s.vault, ApproveHash(hash), s.council.members, c.caller));
  }

  /** A listed version is marked deprecated only by a current member's own call. */
  lemma DeprecatedByMember(s: State, c: Call, hash: Hash)
    requires Inv(s) && hash in s.vault.versions && !s.vault.versions[hash].deprecated
    requires hash in After(s, c).vault.versions && After(s, c).vault.versions[hash].deprecated
    ensures c == CallDeprecateVersion(c.caller, hash) && c.caller in s.council.members
    ensures After(s, c).vault.versions[hash] == s.vault.versions[hash].(deprecated := true)
  {
    if !c.CallApproveVersion? && !c.CallRevokeVersion? && !c.CallDeprecateVersion? {
      OthersKeepVault(s, c);
    }
  }

  /** A hash leaves the list only by a revocation call that completes a majority of distinct current
      members. */
  lemma DelistedByMajority(s: State, c: Call, hash: Hash)
    requires Inv(s) && hash in s.vault.hashes && hash !in After(s, c).vault.hashes
    ensures c.CallRevokeVersion? && c.hash == hash
    ensures MajorityPolled(s.council, Poll(s.vault, RevokeHash(hash), s.council.members, c.caller), c.caller)
    ensures hash !in After(s, c).vault.versions && RevokeHash(hash) !in After(s, c).vault.ballots
  {
    if !c.CallApproveVersion? && !c.CallRevokeVersion? && !c.CallDeprecateVersion? {
      OthersKeepVault(s, c);
    }
    VotersAreDistinct(s.vault, RevokeHash(hash));
    PollIsFair(s.vault, RevokeHash(hash), s.council.members, c.caller);
    DistinctCount(Poll(s.vault, RevokeHash(hash), s.council.members, c.caller));
  }

  /** An approval call executes exactly when its poll reaches the threshold; short of it the ballot
      stays open, locked to the caller's metadata, with the caller on it. */
  lemma ApprovalOpensOrExecutes(s: State, caller: Account, hash: Hash, args: Args, now: nat)
    requires Inv(s) && ApproveVersion(s, caller, hash, args, now).Some?
    ensures var t := ApproveVersion(s, caller, hash, args, now).value.vault;
            var voters := Poll(s.vault, ApproveHash(hash), s.council.members, caller);
            && (hash in t.locked <==> |voters| < Majority(|s.council.members|))
            && (hash in t.locked ==>
                  && t.locked[hash] == args && t.ballots[ApproveHash(hash)] == voters && caller in voters
                  && t.versions == s.vault.versions)
  {
    VotersAreDistinct(s.vault, ApproveHash(hash));
    PollIsFair(s.vault, ApproveHash(hash), s.council.members, caller);
  }
}
