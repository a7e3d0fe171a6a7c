/** What each call of the DAO does, and what the approved set is after every run: exactly what the executed
    proposals, in the order in which they executed, make it. */
module DaoEffects {
  import opened Options
  import opened Dao
  import opened DaoGovernance

  // ---- new ----

  /** The roles are the ones passed, the members those of the list and no others, and the threshold is more
      than half the list's length. */
  lemma NewSeats(owner: Account, initAccount: Account, list: seq<Account>)
    ensures New(owner, initAccount, list).Some? <==> list != []
    ensures list != [] ==>
              var s := New(owner, initAccount, list).value;
              && s.council.owner == owner && s.council.initAccount == initAccount
              && (forall a :: a in s.council.members <==> a in list)
              && s.council.threshold > |list| - s.council.threshold >= s.council.threshold - 2
              && s.register.proposals == map[] && s.register.revokes == map[] && s.register.approved == {}
              && s.register.votes == map[] && s.vault.hashes == {} && s.vault.ballots == map[]
  {
  }

  // ---- proposals and votes ----

  /** A registration files one pending proposal for the key, by the one account that may, for a key that is
      not approved, with attestation; nothing else changes. */
  lemma SubmitFiles(s: State, caller: Account, key: Key, attested: bool)
    ensures Submit(s, caller, key, attested).Some? <==>
            caller == s.council.initAccount && key !in s.register.approved && attested
    ensures Submit(s, caller, key, attested).Some? ==>
              var t, id := Submit(s, caller, key, attested).value, s.register.nextId;
              && t.council == s.council && t.vault == s.vault && t.register.nextId == id + 1
              && id in t.register.proposals && t.register.proposals[id] == Proposal(key, 0, 0, Pending)
              && t.register.proposals - {id} == s.register.proposals - {id}
              && t.register.approved == s.register.approved && t.register.votes == s.register.votes
              && t.register.revokes == s.register.revokes
  {
  }

  /** Who may vote, on what, and how often. */
  lemma VoteNeeds(s: State, caller: Account, id: nat, approve: bool)
    requires Seated(s.council)
    ensures Vote(s, caller, id, approve).Some? <==>
            && caller in s.council.members && StatusOf(s.register, id) == Some(Pending)
            && (id, caller) !in s.register.votes
  {
    VerdictIsDecisive(s.council, s.register.votes[(id, caller) := approve], id);
  }

  /** An executed registration puts exactly its key into the approved set; no other vote on one adds or
      removes any. */
  lemma RegistrationAddsItsKey(s: State, voter: Account, id: nat, approve: bool)
    requires VoteRegistration(s, voter, id, approve).Some?
    ensures var t := VoteRegistration(s, voter, id, approve).value.register;
            && id in t.proposals && t.proposals[id].key == s.register.proposals[id].key
            && (forall k :: k in t.approved <==>
                  k in s.register.approved || (t.proposals[id].status.Executed? && k == t.proposals[id].key))
            && t.proposals - {id} == s.register.proposals - {id} && t.revokes == s.register.revokes
            && t.nextId == s.register.nextId
  {
  }

  /** A vote is counted once, for or against, on the proposal it was cast on and on no other. */
  lemma VoteIsCounted(s: State, caller: Account, id: nat, approve: bool)
    requires Vote(s, caller, id, approve).Some?
    ensures var t := Vote(s, caller, id, approve).value;
            && t.council == s.council && t.vault == s.vault
            && t.register.votes == s.register.votes[(id, caller) := approve]
            && TallyOf(t.register, id) ==
               (if approve then (TallyOf(s.register, id).0 + 1, TallyOf(s.register, id).1)
                else (TallyOf(s.register, id).0, TallyOf(s.register, id).1 + 1))
            && (forall j :: j != id ==> TallyOf(t.register, j) == TallyOf(s.register, j))
  {
  }

  function TallyOf(r: Register, id: nat): (nat, nat) {
    if id in r.revokes then (r.revokes[id].votesFor, r.revokes[id].votesAgainst)
    else if id in r.proposals then (r.proposals[id].votesFor, r.proposals[id].votesAgainst)
    else (0, 0)
  }

  /** A revocation is proposed by a member, for at most 16 distinct approved keys. */
  lemma ProposalNeeds(s: State, caller: Account, keys: seq<Key>)
    requires Seated(s.council) && Sound(s.register)
    ensures ProposeRevoke(s, caller, keys).Some? <==>
            && caller in s.council.members && 1 <= |keys| <= 16
            && (forall i :: 0 <= i < |keys| ==> keys[i] in s.register.approved)
            && (forall i, j :: 0 <= i < j < |keys| ==> keys[i] != keys[j])
  {
    var r := OpenRevoke(s.register, keys);
    VerdictIsDecisive(s.council, r.votes[(s.register.nextId, caller) := true], s.register.nextId);
  }

  // ---- members ----

  /** The owner adds one member, or removes one while another remains; the threshold follows. */
  lemma MembershipChanges(s: State, caller: Account, member: Account)
    ensures AddMember(s, caller, member).Some? <==> caller == s.council.owner
    ensures RemoveMember(s, caller, member).Some? <==> caller == s.council.owner && |s.council.members| > 1
    ensures AddMember(s, caller, member).Some? ==>
              var c := AddMember(s, caller, member).value.council;
              && (forall a :: a in c.members <==> a in s.council.members || a == member)
              && c.threshold == |c.members| / 2 + 1 && c.owner == s.council.owner
    ensures RemoveMember(s, caller, member).Some? ==>
              var c := RemoveMember(s, caller, member).value.council;
              && (forall a :: a in c.members <==> a in s.council.members && a != member)
              && c.threshold == |c.members| / 2 + 1 && c.owner == s.council.owner
  {
  }

  // ---- vault versions ----

  /** An approval that reaches the threshold lists the hash with the metadata passed, undeprecated, and closes
      the ballot; one that does not leaves the list alone. No other version is touched. */
  lemma ApprovalLists(s: State, caller: Account, hash: Hash, args: Args, now: nat)
    requires ApproveVersion(s, caller, hash, args, now).Some?
    ensures var v, t := s.vault, ApproveVersion(s, caller, hash, args, now).value.vault;
            var reached := |Poll(v, ApproveHash(hash), s.council.members, caller)| >= s.council.threshold;
            && (reached ==>
                  && hash in t.hashes && hash in t.versions && ApproveHash(hash) !in t.ballots && hash !in t.locked
                  && t.versions[hash] == VersionInfo(args.title, args.auditUrl, false, now))
            && (!reached ==> t.hashes == v.hashes && t.versions == v.versions)
            && (forall h :: h != hash ==> (h in t.hashes <==> h in v.hashes))
            && t.versions - {hash} == v.versions - {hash}
  {
  }

  /** Who may approve, and with what: short metadata, the same as the ballot was opened with. */
  lemma ApprovalNeeds(s: State, caller: Account, hash: Hash, args: Args, now: nat)
    ensures ApproveVersion(s, caller, hash, args, now).Some? <==>
            && caller in s.council.members && |args.title| <= 64
            && (args.auditUrl.Some? ==> |args.auditUrl.value| <= 256)
            && (hash in s.vault.locked ==> s.vault.locked[hash] == args)
  {
  }

  /** A revocation that reaches the threshold takes the hash off the list and closes the ballot; one that
      does not only adds its voter. */
  lemma RevocationDelists(s: State, caller: Account, hash: Hash)
    ensures RevokeVersion(s, caller, hash).Some? <==> caller in s.council.members
    ensures RevokeVersion(s, caller, hash).Some? ==>
              var v, t := s.vault, RevokeVersion(s, caller, hash).value.vault;
              var voters := Poll(v, RevokeHash(hash), s.council.members, caller);
              && (|voters| >= s.council.threshold ==>
                    && t.hashes == v.hashes - {hash} && t.versions == v.versions - {hash}
                    && RevokeHash(hash) !in t.ballots)
              && (|voters| < s.council.threshold ==>
                    && t.hashes == v.hashes && t.versions == v.versions
                    && RevokeHash(hash) in t.ballots && t.ballots[RevokeHash(hash)] == voters)
              && t.ballots - {RevokeHash(hash)} == v.ballots - {RevokeHash(hash)}
              && t.locked == v.locked
  {
  }

  /** A member deprecates a listed version at once, and nothing else changes. */
  lemma DeprecationMarks(s: State, caller: Account, hash: Hash)
    ensures DeprecateVersion(s, caller, hash).Some? <==> caller in s.council.members && hash in s.vault.versions
    ensures DeprecateVersion(s, caller, hash).Some? ==>
              var v, t := s.vault, DeprecateVersion(s, caller, hash).value.vault;
              && hash in t.versions && t.versions[hash].deprecated
              && t.versions[hash] == v.versions[hash].(deprecated := true)
              && t.versions - {hash} == v.versions - {hash} && t.hashes == v.hashes && t.ballots == v.ballots
  {
  }

  // ---- the approved set over runs ----

  predicate HasExecuted(r: Register, id: nat) {
    StatusOf(r, id) == Some(Executed)
  }

  predicate Installs(r: Register, id: nat, k: Key) {
    id !in r.revokes && id in r.proposals && r.proposals[id].key == k
  }

  predicate Removes(r: Register, id: nat, k: Key) {
    id in r.revokes && k in r.revokes[id].keys
  }

  /** The key stands: some registration of it executed, and no revocation that lists it after that one. */
  predicate Stands(r: Register, order: seq<nat>, k: Key) {
    exists i :: 0 <= i < |order| && Installs(r, order[i], k)
                && forall j :: i < j < |order| ==> !Removes(r, order[j], k)
  }

  /** The order lists exactly the executed proposals, and the approved set is what they make it. */
  ghost predicate Ordered(r: Register) {
    && (forall id :: id in r.order <==> HasExecuted(r, id))
    && (forall k :: k in r.approved <==> Stands(r, r.order, k))
  }

  /** Two registers that agree on what was executed. */
  ghost predicate SameExecuted(r: Register, t: Register, order: seq<nat>) {
    forall id, k :: id in order ==>
      (Installs(r, id, k) <==> Installs(t, id, k)) && (Removes(r, id, k) <==> Removes(t, id, k))
  }

  lemma StandsAlike(r: Register, t: Register, order: seq<nat>, k: Key)
    requires SameExecuted(r, t, order) && Stands(r, order, k)
    ensures Stands(t, order, k)
  {
    var i :| 0 <= i < |order| && Installs(r, order[i], k)
             && forall j :: i < j < |order| ==> !Removes(r, order[j], k);
    assert order[i] in order && Installs(t, order[i], k);
    forall j | i < j < |order|
      ensures !Removes(t, order[j], k)
    {
      assert order[j] in order;
    }
  }

  lemma SameExecutedBack(r: Register, t: Register, order: seq<nat>)
    requires SameExecuted(r, t, order)
    ensures SameExecuted(t, r, order)
  {
  }

  /** One more execution: a registration makes its key stand, a revocation makes its keys fall. */
  lemma StandsAfter(t: Register, order: seq<nat>, id: nat, k: Key)
    ensures Stands(t, order + [id], k) <==>
            Installs(t, id, k) || (Stands(t, order, k) && !Removes(t, id, k))
  {
    var longer := order + [id];
    if Stands(t, longer, k) {
      var i :| 0 <= i < |longer| && Installs(t, longer[i], k)
               && forall j :: i < j < |longer| ==> !Removes(t, longer[j], k);
      if i < |order| {
        assert longer[|order|] == id && !Removes(t, id, k);
        assert forall j :: i < j < |order| ==> longer[j] == order[j];
        assert Installs(t, order[i], k);
      }
    }
    if Installs(t, id, k) {
      assert longer[|order|] == id;
    } else if Stands(t, order, k) && !Removes(t, id, k) {
      var i :| 0 <= i < |order| && Installs(t, order[i], k)
               && forall j :: i < j < |order| ==> !Removes(t, order[j], k);
      assert longer[i] == order[i];
      assert forall j :: i < j < |longer| ==> longer[j] == if j < |order| then order[j] else id;
    }
  }

  lemma FinalKeepsExecuted(r: Register, t: Register)
    requires IdsApart(r) && Final(r, t) && (forall id :: id in r.order ==> HasExecuted(r, id))
    requires forall id :: id in t.revokes && id in r.proposals ==> id in r.revokes
    ensures SameExecuted(r, t, r.order)
  {
    forall id, k | id in r.order
      ensures (Installs(r, id, k) <==> Installs(t, id, k)) && (Removes(r, id, k) <==> Removes(t, id, k))
    {
      assert HasExecuted(r, id);
    }
  }

  /** What a step does to the register, as far as executions go: nothing, or one more. */
  ghost predicate ExecutesAtMost(r: Register, t: Register) {
    && SameExecuted(r, t, r.order)
    && ((t.order == r.order && t.approved == r.approved && forall id :: HasExecuted(t, id) <==> HasExecuted(r, id))
        || exists id :: ExecutesOne(r, t, id))
  }

  ghost predicate ExecutesOne(r: Register, t: Register, id: nat) {
    && t.order == r.order + [id]
    && (forall j :: HasExecuted(t, j) <==> HasExecuted(r, j) || j == id)
    && (forall k :: k in t.approved <==> Installs(t, id, k) || (k in r.approved && !Removes(t, id, k)))
  }

  lemma OrderedStep(r: Register, t: Register)
    requires Ordered(r) && ExecutesAtMost(r, t)
    ensures Ordered(t)
  {
    SameExecutedBack(r, t, r.order);
    forall k
      ensures Stands(t, r.order, k) <==> Stands(r, r.order, k)
    {
      if Stands(r, r.order, k) {
        StandsAlike(r, t, r.order, k);
      }
      if Stands(t, r.order, k) {
        StandsAlike(t, r, r.order, k);
      }
    }
    if exists id :: ExecutesOne(r, t, id) {
      var id :| ExecutesOne(r, t, id);
      forall k
        ensures k in t.approved <==> Stands(t, t.order, k)
      {
        StandsAfter(t, r.order, id, k);
      }
    }
  }

  /** A vote executes the proposal it is cast on or none, and the order says so. */
  ghost predicate Noted(r: Register, t: Register, id: nat) {
    && StatusOf(r, id) == Some(Pending)
    && (forall j :: j != id ==> StatusOf(t, j) == StatusOf(r, j))
    && t.order == if HasExecuted(t, id) then r.order + [id] else r.order
  }

  lemma RegistrationIsNoted(s: State, voter: Account, id: nat, approve: bool)
    requires id !in s.register.revokes && VoteRegistration(s, voter, id, approve).Some?
    ensures Noted(s.register, VoteRegistration(s, voter, id, approve).value.register, id)
  {
  }

  lemma RevocationIsNoted(s: State, voter: Account, id: nat, approve: bool)
    requires VoteRevoke(s, voter, id, approve).Some?
    ensures Noted(s.register, VoteRevoke(s, voter, id, approve).value.register, id)
    ensures VoteRevoke(s, voter, id, approve).value.register.proposals == s.register.proposals
    ensures forall j :: j in VoteRevoke(s, voter, id, approve).value.register.revokes <==> j in s.register.revokes
  {
  }

  lemma NotedExecutes(r: Register, t: Register, id: nat)
    requires Noted(r, t, id) && SameExecuted(r, t, r.order)
    requires forall k :: k in t.approved <==>
               if HasExecuted(t, id) then Installs(t, id, k) || (k in r.approved && !Removes(t, id, k))
               else k in r.approved
    ensures ExecutesAtMost(r, t)
  {
    if HasExecuted(t, id) {
      assert ExecutesOne(r, t, id);
    } else {
      forall j
        ensures HasExecuted(t, j) <==> HasExecuted(r, j)
      {
        if j != id {
          assert StatusOf(t, j) == StatusOf(r, j);
        }
      }
      assert t.approved == r.approved;
    }
  }

  lemma RegistrationExecutes(s: State, voter: Account, id: nat, approve: bool)
    requires Sound(s.register) && Ordered(s.register)
    requires id !in s.register.revokes && VoteRegistration(s, voter, id, approve).Some?
    ensures ExecutesAtMost(s.register, VoteRegistration(s, voter, id, approve).value.register)
  {
    var r, t := s.register, VoteRegistration(s, voter, id, approve).value.register;
    RegistrationVoteIsFinal(s, voter, id, approve);
    RegistrationAddsItsKey(s, voter, id, approve);
    FinalKeepsExecuted(r, t);
    RegistrationIsNoted(s, voter, id, approve);
    NotedExecutes(r, t, id);
  }

  lemma RevocationExecutes(s: State, voter: Account, id: nat, approve: bool)
    requires Sound(s.register) && Ordered(s.register)
    requires VoteRevoke(s, voter, id, approve).Some?
    ensures ExecutesAtMost(s.register, VoteRevoke(s, voter, id, approve).value.register)
  {
    var r, t := s.register, VoteRevoke(s, voter, id, approve).value.register;
    RevokeVoteIsFinal(s, voter, id, approve);
    RevocationIsNoted(s, voter, id, approve);
    FinalKeepsExecuted(r, t);
    RevocationRemovesItsKeys(s, voter, id, approve);
    NotedExecutes(r, t, id);
  }

  lemma SubmitExecutesNothing(s: State, caller: Account, key: Key, attested: bool)
    requires Sound(s.register) && Ordered(s.register) && Submit(s, caller, key, attested).Some?
    ensures ExecutesAtMost(s.register, Submit(s, caller, key, attested).value.register)
  {
    var r, t := s.register, Submit(s, caller, key, attested).value.register;
    SubmitIsSound(s, caller, key, attested);
    FinalKeepsExecuted(r, t);
  }

  lemma OpeningExecutesNothing(r: Register, keys: seq<Key>)
    requires Sound(r) && Ordered(r)
    ensures ExecutesAtMost(r, OpenRevoke(r, keys))
  {
    OpenRevokeIsSound(r, keys);
    FinalKeepsExecuted(r, OpenRevoke(r, keys));
  }

  /** Proposing a revocation opens it and votes for it. */
  lemma ProposalExecutes(s: State, caller: Account, keys: seq<Key>)
    requires Seated(s.council) && Sound(s.register) && Ordered(s.register) && ProposeRevoke(s, caller, keys).Some?
    ensures Ordered(ProposeRevoke(s, caller, keys).value.register)
    ensures s.register.order <= ProposeRevoke(s, caller, keys).value.register.order
  {
    var filed := s.(register := OpenRevoke(s.register, keys));
    OpenRevokeIsSound(s.register, keys);
    OpeningExecutesNothing(s.register, keys);
    OrderedStep(s.register, filed.register);
    RevocationExecutes(filed, caller, s.register.nextId, true);
    OrderedStep(filed.register, ProposeRevoke(s, caller, keys).value.register);
  }

  /** Every call keeps the approved set what the executed proposals make it, and only adds to their order. */
  lemma ApprovedStep(s: State, c: Call)
    requires Seated(s.council) && Sound(s.register) && Ordered(s.register)
    ensures Ordered(After(s, c).register) && s.register.order <= After(s, c).register.order
  {
    if Step(s, c).None? {
      return;
    }
    match c
    case CallSubmit(caller, key, attested) =>
      SubmitExecutesNothing(s, caller, key, attested);
      OrderedStep(s.register, After(s, c).register);
    case CallVote(caller, id, approve) =>
      if id in s.register.revokes {
        RevocationExecutes(s, caller, id, approve);
      } else {
        RegistrationExecutes(s, caller, id, approve);
      }
      OrderedStep(s.register, After(s, c).register);
    case CallProposeRevoke(caller, keys) => ProposalExecutes(s, caller, keys);
    case _ =>
  }

  lemma {:induction false} RunIsOrdered(s: State, calls: seq<Call>)
    requires Seated(s.council) && Sound(s.register) && Ordered(s.register)
    ensures Ordered(Run(s, calls).register) && s.register.order <= Run(s, calls).register.order
    decreases |calls|
  {
    if calls != [] {
      ApprovedStep(s, calls[0]);
      RegisterStep(s, calls[0]);
      RunIsOrdered(After(s, calls[0]), calls[1..]);
    }
  }

  /** On every run from `new` with a majority threshold: a key is approved exactly when a registration of it
      executed and no revocation that lists it executed after the last such registration. */
  lemma ApprovedExactly(owner: Account, initAccount: Account, members: seq<Account>, calls: seq<Call>, k: Key)
    requires members != [] && |AsSet(members)| / 2 == |members| / 2
    ensures var r := Run(New(owner, initAccount, members).value, calls).register;
            && (forall id :: id in r.order <==> HasExecuted(r, id))
            && (k in r.approved <==> Stands(r, r.order, k))
  {
    NewIsSeated(owner, initAccount, members);
    RunIsOrdered(New(owner, initAccount, members).value, calls);
  }
}
