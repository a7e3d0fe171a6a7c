/** What every run of the DAO keeps of its register: a proposal executes only on a majority of the members
    of the moment, its end is final, and every approved key comes from an executed registration. */
module DaoGovernance {
  import opened Options
  import opened Dao

  // ---- the council ----

  /** There is a member, and the threshold is a majority of them. */
  predicate Seated(c: Council) {
    c.members != {} && c.threshold == Majority(|c.members|)
  }

  /** `new` seats a majority threshold exactly when repeated names do not change half the count. */
  lemma NewIsSeated(owner: Account, initAccount: Account, members: seq<Account>)
    requires members != []
    ensures Seated(New(owner, initAccount, members).value.council) <==> |AsSet(members)| / 2 == |members| / 2
  {
    assert members[0] in AsSet(members);
  }

  lemma {:induction false} DistinctCount(members: seq<Account>)
    requires forall i, j :: 0 <= i < j < |members| ==> members[i] != members[j]
    ensures |AsSet(members)| == |members|
  {
    if members != [] {
      var front, last := members[..|members| - 1], members[|members| - 1];
      DistinctCount(front);
      assert AsSet(members) == AsSet(front) + {last};
      assert last !in front;
    }
  }

  /** With a repeated name the threshold can be out of everybody's reach: three seats for one account
      ask for two votes. */
  lemma RepeatedNameUnseats()
    ensures var c := New("owner", "init", ["a", "a", "a"]).value.council;
            !Seated(c) && |c.members| < c.threshold
  {
    assert AsSet(["a", "a", "a"]) == {"a"};
  }

  lemma {:induction false} CardinalityOfSubset<T>(a: set<T>, b: set<T>)
    requires a <= b
    ensures |a| <= |b|
  {
    if a != {} {
      var x :| x in a;
      CardinalityOfSubset(a - {x}, b - {x});
    }
  }

  lemma CardinalityOfParts<T>(a: set<T>, b: set<T>, whole: set<T>)
    requires a <= whole && b <= whole && a !! b
    ensures |a| + |b| <= |whole|
    ensures a + b == whole ==> |a| + |b| == |whole|
  {
    assert |a + b| == |a| + |b|;
    CardinalityOfSubset(a + b, whole);
  }

  // ---- the verdict ----

  predicate AllVoted(c: Council, votes: map<(nat, Account), bool>, id: nat) {
    forall m :: m in c.members ==> (id, m) in votes
  }

  /** With a majority threshold the subtraction never underflows, the approval and rejection tests
      exclude each other, and once every member has voted one of them holds. */
  lemma VerdictIsDecisive(c: Council, votes: map<(nat, Account), bool>, id: nat)
    requires Seated(c)
    ensures Verdict(c, votes, id).Some?
    ensures !(|Approvers(votes, id, c.members)| >= c.threshold
              && |Rejecters(votes, id, c.members)| > |c.members| - c.threshold)
    ensures AllVoted(c, votes, id) ==> Verdict(c, votes, id).value != Pending
  {
    var yes, no := Approvers(votes, id, c.members), Rejecters(votes, id, c.members);
    CardinalityOfParts(yes, no, c.members);
    if AllVoted(c, votes, id) {
      assert yes + no == c.members;
    }
  }

  // ---- the register ----

  /** A majority of the members of the moment approved, on record. */
  predicate Carried(r: Register, id: nat) {
    && id in r.quorums
    && r.quorums[id].approvers <= r.quorums[id].members
    && |r.quorums[id].approvers| >= Majority(|r.quorums[id].members|)
    && (forall a :: a in r.quorums[id].approvers ==> (id, a) in r.votes && r.votes[(id, a)])
  }

  predicate IdsApart(r: Register) {
    && (forall id :: id in r.proposals ==> 1 <= id < r.nextId && id !in r.revokes)
    && (forall id :: id in r.revokes ==> 1 <= id < r.nextId)
    && (forall k :: k in r.votes ==> k.0 in r.proposals || k.0 in r.revokes)
  }

  predicate StatusesSound(r: Register) {
    && (forall id :: id in r.proposals ==>
          r.proposals[id].status != Approved && (r.proposals[id].status.Executed? ==> Carried(r, id)))
    && (forall id :: id in r.revokes ==>
          r.revokes[id].status != Approved && (r.revokes[id].status.Executed? ==> Carried(r, id)))
  }

  predicate InstalledBy(r: Register, id: nat, key: Key) {
    id in r.proposals && r.proposals[id].key == key && r.proposals[id].status.Executed?
  }

  ghost predicate KeysInstalled(r: Register) {
    forall k :: k in r.approved ==> exists id :: InstalledBy(r, id, k)
  }

  ghost predicate Sound(r: Register) {
    r.nextId >= 1 && IdsApart(r) && StatusesSound(r) && KeysInstalled(r)
  }

  predicate SameProposal(p: Proposal, q: Proposal) {
    q.key == p.key && (!p.status.Pending? ==> q == p)
  }

  predicate SameRevoke(p: RevokeProposal, q: RevokeProposal) {
    q.keys == p.keys && (!p.status.Pending? ==> q == p)
  }

  /** A decided proposal is never touched again, and votes are only added. */
  predicate Final(r: Register, t: Register) {
    && (forall id :: id in r.proposals ==> id in t.proposals && SameProposal(r.proposals[id], t.proposals[id]))
    && (forall id :: id in r.revokes ==> id in t.revokes && SameRevoke(r.revokes[id], t.revokes[id]))
    && (forall k :: k in r.votes ==> k in t.votes && t.votes[k] == r.votes[k])
  }

  lemma QuorumCarries(c: Council, r: Register, t: Register, id: nat)
    requires Seated(c) && |Approvers(t.votes, id, c.members)| >= c.threshold
    requires id in t.quorums && t.quorums[id] == Quorum(c.members, Approvers(t.votes, id, c.members))
    ensures Carried(t, id)
  {
  }

  /** What was carried stays carried: its quorum is kept and its votes still stand. */
  lemma StayCarried(r: Register, t: Register, id: nat)
    requires StatusesSound(r) && Final(r, t)
    requires forall j :: j in r.quorums && j != id ==> j in t.quorums && t.quorums[j] == r.quorums[j]
    ensures forall j :: j in r.proposals && j != id && r.proposals[j].status.Executed? ==> Carried(t, j)
    ensures forall j :: j in r.revokes && j != id && r.revokes[j].status.Executed? ==> Carried(t, j)
  {
  }

  lemma StayInstalled(r: Register, t: Register)
    requires KeysInstalled(r) && Final(r, t)
    ensures forall k :: k in r.approved ==> exists id :: InstalledBy(t, id, k)
  {
    forall k | k in r.approved
      ensures exists id :: InstalledBy(t, id, k)
    {
      var id :| InstalledBy(r, id, k);
      assert InstalledBy(t, id, k);
    }
  }

  lemma RegistrationVoteIsFinal(s: State, voter: Account, id: nat, approve: bool)
    requires VoteRegistration(s, voter, id, approve).Some?
    ensures Final(s.register, VoteRegistration(s, voter, id, approve).value.register)
  {
  }

  /** A vote on a registration: sound, final, and executing only on a majority. */
  lemma RegistrationVote(s: State, voter: Account, id: nat, approve: bool)
    requires Seated(s.council) && Sound(s.register) && VoteRegistration(s, voter, id, approve).Some?
    ensures var t := VoteRegistration(s, voter, id, approve).value;
            t.council == s.council && t.vault == s.vault && Sound(t.register) && Final(s.register, t.register)
  {
    var r, t := s.register, VoteRegistration(s, voter, id, approve).value.register;
    RegistrationVoteIsFinal(s, voter, id, approve);
    RegistrationInstalls(s, voter, id, approve);
    RegistrationStatuses(s, voter, id, approve);
  }

  lemma RegistrationStatuses(s: State, voter: Account, id: nat, approve: bool)
    requires Seated(s.council) && IdsApart(s.register) && StatusesSound(s.register)
    requires VoteRegistration(s, voter, id, approve).Some?
    requires Final(s.register, VoteRegistration(s, voter, id, approve).value.register)
    ensures StatusesSound(VoteRegistration(s, voter, id, approve).value.register)
  {
    var r, t := s.register, VoteRegistration(s, voter, id, approve).value.register;
    StayCarried(r, t, id);
    if t.proposals[id].status.Executed? {
      QuorumCarries(s.council, r, t, id);
    }
  }

  lemma RegistrationInstalls(s: State, voter: Account, id: nat, approve: bool)
    requires KeysInstalled(s.register) && VoteRegistration(s, voter, id, approve).Some?
    requires Final(s.register, VoteRegistration(s, voter, id, approve).value.register)
    ensures KeysInstalled(VoteRegistration(s, voter, id, approve).value.register)
  {
    var r, t := s.register, VoteRegistration(s, voter, id, approve).value.register;
    StayInstalled(r, t);
    if t.proposals[id].status.Executed? {
      assert InstalledBy(t, id, r.proposals[id].key);
    }
  }

  lemma RevokeVoteIsFinal(s: State, voter: Account, id: nat, approve: bool)
    requires VoteRevoke(s, voter, id, approve).Some?
    ensures Final(s.register, VoteRevoke(s, voter, id, approve).value.register)
  {
  }

  lemma RevokeVote(s: State, voter: Account, id: nat, approve: bool)
    requires Seated(s.council) && Sound(s.register) && VoteRevoke(s, voter, id, approve).Some?
    ensures var t := VoteRevoke(s, voter, id, approve).value;
            t.council == s.council && t.vault == s.vault && Sound(t.register) && Final(s.register, t.register)
  {
    var r, t := s.register, VoteRevoke(s, voter, id, approve).value.register;
    RevokeVoteIsFinal(s, voter, id, approve);
    StayCarried(r, t, id);
    StayInstalled(r, t);
    if t.revokes[id].status.Executed? {
      QuorumCarries(s.council, r, t, id);
    }
  }

  lemma SubmitIsSound(s: State, caller: Account, key: Key, attested: bool)
    requires Sound(s.register) && Submit(s, caller, key, attested).Some?
    ensures Sound(Submit(s, caller, key, attested).value.register)
    ensures Final(s.register, Submit(s, caller, key, attested).value.register)
  {
    var r, t := s.register, Submit(s, caller, key, attested).value.register;
    StayCarried(r, t, r.nextId);
    StayInstalled(r, t);
  }

  lemma OpenRevokeIsSound(r: Register, keys: seq<Key>)
    requires Sound(r)
    ensures Sound(OpenRevoke(r, keys)) && Final(r, OpenRevoke(r, keys))
  {
    var t := OpenRevoke(r, keys);
    StayCarried(r, t, r.nextId);
    StayInstalled(r, t);
  }

  lemma ProposeRevokeIsSound(s: State, caller: Account, keys: seq<Key>)
    requires Seated(s.council) && Sound(s.register) && ProposeRevoke(s, caller, keys).Some?
    ensures var t := ProposeRevoke(s, caller, keys).value;
            t.council == s.council && t.vault == s.vault && Sound(t.register) && Final(s.register, t.register)
  {
    var proposed := s.(register := OpenRevoke(s.register, keys));
    OpenRevokeIsSound(s.register, keys);
    RevokeVote(proposed, caller, s.register.nextId, true);
    FinalOnward(s.register, proposed.register, ProposeRevoke(s, caller, keys).value.register);
  }

  lemma FinalOnward(r: Register, t: Register, u: Register)
    requires Final(r, t) && Final(t, u)
    ensures Final(r, u)
  {
  }

  lemma ReseatIsSeated(c: Council, members: set<Account>)
    requires members != {}
    ensures Seated(Reseat(c, members))
  {
  }

  lemma RemovalLeavesSomebody(members: set<Account>, member: Account)
    requires |members| > 1
    ensures members - {member} != {}
  {
    if members - {member} == {} {
      CardinalityOfSubset(members, {member});
    }
  }

  /** Every step keeps a majority threshold and a sound register, and never touches what was decided. */
  lemma RegisterStep(s: State, c: Call)
    requires Seated(s.council) && Sound(s.register)
    ensures Seated(After(s, c).council) && Sound(After(s, c).register)
    ensures Final(s.register, After(s, c).register)
  {
    if Step(s, c).None? {
      return;
    }
    match c
    case CallSubmit(caller, key, attested) => SubmitIsSound(s, caller, key, attested);
    case CallVote(caller, id, approve) =>
      if id in s.register.revokes {
        RevokeVote(s, caller, id, approve);
      } else {
        RegistrationVote(s, caller, id, approve);
      }
    case CallProposeRevoke(caller, keys) => ProposeRevokeIsSound(s, caller, keys);
    case CallAddMember(caller, member) => ReseatIsSeated(s.council, s.council.members + {member});
    case CallRemoveMember(caller, member) =>
      RemovalLeavesSomebody(s.council.members, member);
      ReseatIsSeated(s.council, s.council.members - {member});
    case _ =>
  }

  // ---- every run ----

  lemma {:induction false} RunIsSound(s: State, calls: seq<Call>)
    requires Seated(s.council) && Sound(s.register)
    ensures Seated(Run(s, calls).council) && Sound(Run(s, calls).register)
    ensures Final(s.register, Run(s, calls).register)
    decreases |calls|
  {
    if calls != [] {
      var t := After(s, calls[0]);
      RegisterStep(s, calls[0]);
      RunIsSound(t, calls[1..]);
      FinalOnward(s.register, t.register, Run(t, calls[1..]).register);
    }
  }

  /** On every run from `new` with distinct members: every executed proposal has on record a majority
      of the members of the moment, each with an approving vote that still stands, and every approved
      key was installed by an executed registration. */
  lemma OnlyMajoritiesExecute(owner: Account, initAccount: Account, members: seq<Account>, calls: seq<Call>)
    requires members != [] && forall i, j :: 0 <= i < j < |members| ==> members[i] != members[j]
    ensures var r := Run(New(owner, initAccount, members).value, calls).register;
            && (forall id :: id in r.proposals && r.proposals[id].status.Executed? ==> Carried(r, id))
            && (forall id :: id in r.revokes && r.revokes[id].status.Executed? ==> Carried(r, id))
            && (forall k :: k in r.approved ==> exists id :: InstalledBy(r, id, k))
  {
    DistinctCount(members);
    NewIsSeated(owner, initAccount, members);
    RunIsSound(New(owner, initAccount, members).value, calls);
  }

  /** Executed and Rejected are terminal: whatever follows, a decided proposal stays as it is. */
  lemma DecidedIsFinal(s: State, calls: seq<Call>, id: nat)
    requires Seated(s.council) && Sound(s.register)
    ensures var t := Run(s, calls);
            && (id in s.register.proposals && !s.register.proposals[id].status.Pending?
                ==> id in t.register.proposals && t.register.proposals[id] == s.register.proposals[id])
            && (id in s.register.revokes && !s.register.revokes[id].status.Pending?
                ==> id in t.register.revokes && t.register.revokes[id] == s.register.revokes[id])
  {
    RunIsSound(s, calls);
  }

  function StatusOf(r: Register, id: nat): Option<Status> {
    if id in r.revokes then Some(r.revokes[id].status)
    else if id in r.proposals then Some(r.proposals[id].status)
    else None
  }

  /** A proposal changes status only at a vote of a current member, and it executes exactly when a
      majority of the current members has approved it and is rejected exactly when that has become
      impossible; a vote that completes the members' votes always decides. */
  lemma VoteDecides(s: State, caller: Account, id: nat, approve: bool)
    requires Seated(s.council) && Sound(s.register) && Vote(s, caller, id, approve).Some?
    ensures caller in s.council.members && StatusOf(s.register, id) == Some(Pending)
    ensures var c := s.council;
            var t := Vote(s, caller, id, approve).value.register;
            var yes, no := |Approvers(t.votes, id, c.members)|, |Rejecters(t.votes, id, c.members)|;
            && t.votes == s.register.votes[(id, caller) := approve]
            && (StatusOf(t, id) == Some(Executed) <==> yes >= Majority(|c.members|))
            && (StatusOf(t, id) == Some(Rejected) <==> no > |c.members| - Majority(|c.members|))
            && (AllVoted(c, t.votes, id) ==> StatusOf(t, id) != Some(Pending))
  {
    VerdictIsDecisive(s.council, s.register.votes[(id, caller) := approve], id);
  }

  lemma SubmitKeepsStatus(s: State, caller: Account, key: Key, attested: bool, id: nat)
    requires IdsApart(s.register) && StatusOf(s.register, id).Some? && Submit(s, caller, key, attested).Some?
    ensures StatusOf(Submit(s, caller, key, attested).value.register, id) == StatusOf(s.register, id)
  {
  }

  lemma ProposalKeepsStatus(s: State, caller: Account, keys: seq<Key>, id: nat)
    requires IdsApart(s.register) && StatusOf(s.register, id).Some? && ProposeRevoke(s, caller, keys).Some?
    ensures StatusOf(ProposeRevoke(s, caller, keys).value.register, id) == StatusOf(s.register, id)
  {
    assert id != s.register.nextId;
  }

  lemma VoteKeepsOtherStatus(s: State, caller: Account, voted: nat, approve: bool, id: nat)
    requires Vote(s, caller, voted, approve).Some? && id != voted
    ensures StatusOf(Vote(s, caller, voted, approve).value.register, id) == StatusOf(s.register, id)
  {
  }

  /** No other step changes the status of an existing proposal. */
  lemma OnlyVotesDecide(s: State, c: Call, id: nat)
    requires Seated(s.council) && Sound(s.register) && StatusOf(s.register, id).Some?
    requires StatusOf(After(s, c).register, id) != StatusOf(s.register, id)
    ensures c.CallVote? && c.id == id
  {
    if Step(s, c).Some? {
      if c.CallSubmit? {
        SubmitKeepsStatus(s, c.caller, c.key, c.attested, id);
      } else if c.CallProposeRevoke? {
        ProposalKeepsStatus(s, c.caller, c.keys, id);
      } else if c.CallVote? && c.id != id {
        VoteKeepsOtherStatus(s, c.caller, c.id, c.approve, id);
      }
    }
  }

  /** A revocation that executes with its own proposal does so by the same rule: the council of that
      moment is on record for it, and it is the proposer alone who makes the majority. */
  lemma ProposalDecides(s: State, caller: Account, keys: seq<Key>)
    requires Seated(s.council) && Sound(s.register) && ProposeRevoke(s, caller, keys).Some?
    ensures var id, t := s.register.nextId, ProposeRevoke(s, caller, keys).value.register;
            && caller in s.council.members && id in t.revokes && t.revokes[id].keys == keys
            && t.votes == s.register.votes[(id, caller) := true]
            && (StatusOf(t, id) == Some(Executed) <==> |s.council.members| == 1)
            && (StatusOf(t, id) != Some(Rejected))
            && (StatusOf(t, id) == Some(Executed) ==>
                  id in t.quorums && t.quorums[id] == Quorum(s.council.members, {caller}))
  {
    var c, r := s.council, OpenRevoke(s.register, keys);
    var id, votes := s.register.nextId, r.votes[(s.register.nextId, caller) := true];
    OnlyProposerVoted(s.register, c.members, caller);
    VerdictIsDecisive(c, votes, id);
  }

  lemma OnlyProposerVoted(r: Register, members: set<Account>, caller: Account)
    requires IdsApart(r) && caller in members
    ensures var votes := r.votes[(r.nextId, caller) := true];
            Approvers(votes, r.nextId, members) == {caller} && Rejecters(votes, r.nextId, members) == {}
  {
    assert forall m :: (r.nextId, m) !in r.votes;
  }

  /** The council recorded with a proposal that executes is the council of the step that executes it. */
  lemma QuorumIsOfTheMoment(s: State, c: Call, id: nat)
    requires Seated(s.council) && Sound(s.register)
    requires StatusOf(After(s, c).register, id) == Some(Executed) && StatusOf(s.register, id) != Some(Executed)
    ensures var t := After(s, c).register;
            && id in t.quorums && t.quorums[id].members == s.council.members
            && t.quorums[id].approvers == Approvers(t.votes, id, s.council.members)
            && After(s, c).council == s.council
  {
    match c
    case CallVote(caller, voted, approve) =>
      if Step(s, c).Some? && id != voted {
        VoteKeepsOtherStatus(s, caller, voted, approve, id);
      }
    case CallProposeRevoke(caller, keys) =>
      if Step(s, c).Some? {
        if StatusOf(s.register, id).Some? {
          ProposalKeepsStatus(s, caller, keys, id);
        }
        ProposalDecides(s, caller, keys);
      }
    case _ =>
  }

  /** An executed revocation takes exactly its keys out of the approved set. */
  lemma RevocationRemovesItsKeys(s: State, voter: Account, id: nat, approve: bool)
    requires VoteRevoke(s, voter, id, approve).Some?
    ensures var t := VoteRevoke(s, voter, id, approve).value.register;
            forall k :: k in t.approved
                   <==> k in s.register.approved && !(t.revokes[id].status.Executed? && k in t.revokes[id].keys)
  {
  }

  // ---- the tallies ----

  function Ballots(votes: map<(nat, Account), bool>, id: nat, approve: bool): set<(nat, Account)> {
    set k | k in votes && k.0 == id && votes[k] == approve
  }

  predicate TalliedAs(votes: map<(nat, Account), bool>, id: nat, votesFor: nat, votesAgainst: nat) {
    votesFor == |Ballots(votes, id, true)| && votesAgainst == |Ballots(votes, id, false)|
  }

  /** The stored counters are all the votes ever cast, removed members included. */
  predicate Tallied(r: Register) {
    && (forall id :: id in r.proposals ==>
          TalliedAs(r.votes, id, r.proposals[id].votesFor, r.proposals[id].votesAgainst))
    && (forall id :: id in r.revokes ==>
          TalliedAs(r.votes, id, r.revokes[id].votesFor, r.revokes[id].votesAgainst))
  }

  lemma BallotsGain(votes: map<(nat, Account), bool>, id: nat, voter: Account, approve: bool)
    requires (id, voter) !in votes
    ensures |Ballots(votes[(id, voter) := approve], id, approve)| == |Ballots(votes, id, approve)| + 1
  {
    var k := (id, voter);
    var before, after := Ballots(votes, id, approve), Ballots(votes[k := approve], id, approve);
    forall x
      ensures x in after <==> x in before + {k}
    {
    }
    assert after == before + {k};
  }

  lemma BallotsKeep(votes: map<(nat, Account), bool>, id: nat, voter: Account, approve: bool, j: nat, b: bool)
    requires (id, voter) !in votes && (j != id || b != approve)
    ensures Ballots(votes[(id, voter) := approve], j, b) == Ballots(votes, j, b)
  {
  }

  /** A vote adds one to the counter it was cast for. */
  lemma TallyOfVote(votes: map<(nat, Account), bool>, id: nat, voter: Account, approve: bool, j: nat, f: nat, a: nat)
    requires (id, voter) !in votes && TalliedAs(votes, j, f, a)
    ensures TalliedAs(votes[(id, voter) := approve], j,
                      if j == id && approve then f + 1 else f, if j == id && !approve then a + 1 else a)
  {
    BallotsGain(votes, id, voter, approve);
    BallotsKeep(votes, id, voter, approve, id, !approve);
    if j != id {
      BallotsKeep(votes, id, voter, approve, j, true);
      BallotsKeep(votes, id, voter, approve, j, false);
    }
  }

  lemma FreshTally(r: Register)
    requires IdsApart(r)
    ensures TalliedAs(r.votes, r.nextId, 0, 0)
  {
    assert Ballots(r.votes, r.nextId, true) == {} && Ballots(r.votes, r.nextId, false) == {};
  }

  lemma RegistrationTally(s: State, voter: Account, id: nat, approve: bool)
    requires IdsApart(s.register) && Tallied(s.register) && VoteRegistration(s, voter, id, approve).Some?
    ensures Tallied(VoteRegistration(s, voter, id, approve).value.register)
  {
    var r, t := s.register, VoteRegistration(s, voter, id, approve).value.register;
    forall j | j in t.proposals
      ensures TalliedAs(t.votes, j, t.proposals[j].votesFor, t.proposals[j].votesAgainst)
    {
      TallyOfVote(r.votes, id, voter, approve, j, r.proposals[j].votesFor, r.proposals[j].votesAgainst);
    }
    forall j | j in t.revokes
      ensures TalliedAs(t.votes, j, t.revokes[j].votesFor, t.revokes[j].votesAgainst)
    {
      TallyOfVote(r.votes, id, voter, approve, j, r.revokes[j].votesFor, r.revokes[j].votesAgainst);
    }
  }

  lemma RevokeTally(s: State, voter: Account, id: nat, approve: bool)
    requires IdsApart(s.register) && Tallied(s.register) && VoteRevoke(s, voter, id, approve).Some?
    ensures Tallied(VoteRevoke(s, voter, id, approve).value.register)
  {
    var r, t := s.register, VoteRevoke(s, voter, id, approve).value.register;
    forall j | j in t.proposals
      ensures TalliedAs(t.votes, j, t.proposals[j].votesFor, t.proposals[j].votesAgainst)
    {
      TallyOfVote(r.votes, id, voter, approve, j, r.proposals[j].votesFor, r.proposals[j].votesAgainst);
    }
    forall j | j in t.revokes
      ensures TalliedAs(t.votes, j, t.revokes[j].votesFor, t.revokes[j].votesAgainst)
    {
      TallyOfVote(r.votes, id, voter, approve, j, r.revokes[j].votesFor, r.revokes[j].votesAgainst);
    }
  }

  lemma TallyStep(s: State, c: Call)
    requires Sound(s.register) && Tallied(s.register)
    ensures Tallied(After(s, c).register)
  {
    if Step(s, c).None? {
      return;
    }
    match c
    case CallSubmit(caller, key, attested) => FreshTally(s.register);
    case CallVote(caller, id, approve) =>
      if id in s.register.revokes {
        RevokeTally(s, caller, id, approve);
      } else {
        RegistrationTally(s, caller, id, approve);
      }
    case CallProposeRevoke(caller, keys) =>
      FreshTally(s.register);
      OpenRevokeIsSound(s.register, keys);
      RevokeTally(s.(register := OpenRevoke(s.register, keys)), caller, s.register.nextId, true);
    case _ =>
  }
}
