/** The DAO contract object, each method proved against the state machine of module `Dao`. A method
    answers whether the call went through; a call that panics answers `false` and changes nothing. */
module DaoContract {
  import opened Options
  import opened Dao

  class KeystoreDao {
    var owner: Account
    var initAccount: Account
    var members: set<Account>
    var threshold: nat

    var proposals: map<nat, Proposal>
    var revokes: map<nat, RevokeProposal>
    var nextId: nat
    var votes: map<(nat, Account), bool>
    var approved: set<Key>

    var hashes: set<Hash>
    var versions: map<Hash, VersionInfo>
    var ballots: map<Action, seq<Account>>
    var locked: map<Hash, Args>

    // history, for the proofs
    ghost var quorums: map<nat, Quorum>
    ghost var order: seq<nat>
    ghost var cast: map<Hash, map<Account, Args>>

    ghost function CouncilView(): Council
      reads this
    {
      Council(owner, initAccount, members, threshold)
    }

    ghost function RegisterView(): Register
      reads this
    {
      Register(proposals, revokes, nextId, votes, approved, quorums, order)
    }

    ghost function VaultView(): Vault
      reads this
    {
      Vault(hashes, versions, ballots, locked, cast)
    }

    ghost function View(): State
      reads this
    {
      State(CouncilView(), RegisterView(), VaultView())
    }

    constructor (ownerId: Account, initId: Account, list: seq<Account>)
      requires list != []
      ensures Some(View()) == New(ownerId, initId, list)
    {
      owner, initAccount := ownerId, initId;
      members, threshold := {}, |list| / 2 + 1;
      proposals, revokes, nextId, votes, approved := map[], map[], 1, map[], {};
      hashes, versions, ballots, locked := {}, map[], map[], map[];
      quorums, order, cast := map[], [], map[];
      new;
      for i := 0 to |list|
        invariant members == AsSet(list[..i]) && threshold == |list| / 2 + 1
        invariant owner == ownerId && initAccount == initId
        invariant RegisterView() == Register(map[], map[], 1, map[], {}, map[], [])
        invariant VaultView() == Vault({}, map[], map[], map[], map[])
      {
        assert AsSet(list[..i + 1]) == AsSet(list[..i]) + {list[i]} by {
          assert list[..i + 1] == list[..i] + [list[i]];
        }
        members := members + {list[i]};
      }
      assert list[..|list|] == list;
    }

    /** The fold over the members: how many current members approved, how many rejected. */
    method CountLive(id: nat) returns (liveFor: nat, liveAgainst: nat)
      ensures liveFor == |Approvers(votes, id, members)| && liveAgainst == |Rejecters(votes, id, members)|
    {
      liveFor, liveAgainst := 0, 0;
      var rest := members;
      ghost var seen := {};
      while rest != {}
        invariant seen + rest == members && seen !! rest
        invariant liveFor == |Approvers(votes, id, seen)| && liveAgainst == |Rejecters(votes, id, seen)|
        decreases |rest|
      {
        var m :| m in rest;
        CountOneMore(votes, id, seen, m);
        if (id, m) in votes {
          if votes[(id, m)] {
            liveFor := liveFor + 1;
          } else {
            liveAgainst := liveAgainst + 1;
          }
        }
        seen := seen + {m};
        rest := rest - {m};
      }
      assert seen == members;
    }

    /** The three-way decision after a vote was recorded. */
    method Decide(id: nat) returns (verdict: Option<Status>)
      ensures verdict == Verdict(CouncilView(), votes, id)
    {
      var liveFor, liveAgainst := CountLive(id);
      if liveFor >= threshold {
        return Some(Executed);
      }
      if |members| < threshold {
        return None;
      }
      if liveAgainst > |members| - threshold {
        return Some(Rejected);
      }
      return Some(Pending);
    }

    method VoteOnRegistration(voter: Account, id: nat, approve: bool) returns (ok: bool)
      modifies this`votes, this`proposals, this`approved, this`quorums, this`order
      ensures Did(ok, old(RegisterView()),
                  RegistrationAfterVote(CouncilView(), old(RegisterView()), voter, id, approve), RegisterView())
    {
      if id !in proposals || proposals[id].status != Pending || (id, voter) in votes {
        return false;
      }
      var before := votes;
      votes := votes[(id, voter) := approve];
      var p := proposals[id];
      var counted := if approve then p.(votesFor := p.votesFor + 1) else p.(votesAgainst := p.votesAgainst + 1);
      var verdict := Decide(id);
      if verdict.None? {
        votes := before;
        return false;
      }
      CloseRegistration(id, counted.(status := verdict.value));
      return true;
    }

    method CloseRegistration(id: nat, p: Proposal)
      modifies this`proposals, this`approved, this`quorums, this`order
      ensures RegisterView() == RegistrationDecided(CouncilView(), old(RegisterView()), id, p)
    {
      proposals := proposals[id := p];
      if p.status.Executed? {
        approved := approved + {p.key};
        quorums := quorums[id := Quorum(members, Approvers(votes, id, members))];
        order := order + [id];
      }
    }

    /** Remove the frozen set of keys one by one; a key that is already gone is skipped. */
    method ExecuteRevoke(keys: seq<Key>) returns (revoked: nat, gone: nat)
      modifies this`approved
      ensures approved == old(approved) - KeySet(keys)
      ensures revoked + gone == |keys| && revoked + |approved| == |old(approved)|
    {
      revoked, gone := 0, 0;
      for i := 0 to |keys|
        invariant approved == old(approved) - KeySet(keys[..i])
        invariant revoked + gone == i && revoked + |approved| == |old(approved)|
      {
        assert KeySet(keys[..i + 1]) == KeySet(keys[..i]) + {keys[i]} by {
          assert keys[..i + 1] == keys[..i] + [keys[i]];
        }
        if keys[i] in approved {
          approved := approved - {keys[i]};
          revoked := revoked + 1;
        } else {
          gone := gone + 1;
        }
      }
      assert keys[..|keys|] == keys;
    }

    method VoteOnRevoke(voter: Account, id: nat, approve: bool) returns (ok: bool)
      modifies this`votes, this`revokes, this`approved, this`quorums, this`order
      ensures Did(ok, old(RegisterView()),
                  RevokeAfterVote(CouncilView(), old(RegisterView()), voter, id, approve), RegisterView())
    {
      if id !in revokes || revokes[id].status != Pending || (id, voter) in votes {
        return false;
      }
      var before := votes;
      votes := votes[(id, voter) := approve];
      var p := revokes[id];
      var counted := if approve then p.(votesFor := p.votesFor + 1) else p.(votesAgainst := p.votesAgainst + 1);
      var verdict := Decide(id);
      if verdict.None? {
        votes := before;
        return false;
      }
      CloseRevoke(id, counted.(status := verdict.value));
      return true;
    }

    method CloseRevoke(id: nat, p: RevokeProposal)
      modifies this`revokes, this`approved, this`quorums, this`order
      ensures RegisterView() == RevokeDecided(CouncilView(), old(RegisterView()), id, p)
    {
      revokes := revokes[id := p];
      if p.status.Executed? {
        var revoked, gone := ExecuteRevoke(p.keys);
        quorums := quorums[id := Quorum(members, Approvers(votes, id, members))];
        order := order + [id];
      }
    }

    method Vote(caller: Account, id: nat, approve: bool) returns (ok: bool)
      modifies this`votes, this`proposals, this`revokes, this`approved, this`quorums, this`order
      ensures Did(ok, old(View()), Dao.Vote(old(View()), caller, id, approve), View())
    {
      if caller !in members {
        return false;
      }
      if id in revokes {
        ok := VoteOnRevoke(caller, id, approve);
      } else {
        ok := VoteOnRegistration(caller, id, approve);
      }
    }

    method SubmitKeystoreRegistration(caller: Account, key: Key, attested: bool) returns (ok: bool)
      modifies this`proposals, this`nextId
      ensures Did(ok, old(View()), Submit(old(View()), caller, key, attested), View())
    {
      if caller != initAccount || key in approved || !attested {
        return false;
      }
      proposals := proposals[nextId := Proposal(key, 0, 0, Pending)];
      nextId := nextId + 1;
      return true;
    }

    /** The checks over the proposed keys: each approved, none repeated. */
    method CheckKeys(keys: seq<Key>) returns (ok: bool)
      ensures ok == Revocable(RegisterView(), keys)
    {
      if keys == [] || |keys| > MAX_REVOKE_BATCH {
        return false;
      }
      for i := 0 to |keys|
        invariant forall j :: 0 <= j < i ==> keys[j] in approved
        invariant forall j, k :: 0 <= j < k < i ==> keys[j] != keys[k]
      {
        if keys[i] !in approved {
          return false;
        }
        if keys[i] in keys[..i] {
          return false;
        }
      }
      return true;
    }

    method ProposeRevokeKeystoreKeys(caller: Account, keys: seq<Key>) returns (ok: bool)
      modifies this`votes, this`revokes, this`approved, this`quorums, this`order, this`nextId
      ensures Did(ok, old(RegisterView()), RegisterAfterProposal(CouncilView(), old(RegisterView()), caller, keys),
                  RegisterView())
    {
      if caller !in members {
        return false;
      }
      ok := CheckKeys(keys);
      if !ok {
        return;
      }
      var before, id := revokes, nextId;
      revokes := revokes[id := RevokeProposal(keys, 0, 0, Pending)];
      nextId := id + 1;
      assert RegisterView() == OpenRevoke(old(RegisterView()), keys);
      ok := VoteOnRevoke(caller, id, true);
      if !ok {
        revokes, nextId := before, id;
      }
    }

    method AddDaoMember(caller: Account, member: Account) returns (ok: bool)
      modifies this`members, this`threshold
      ensures Did(ok, old(View()), AddMember(old(View()), caller, member), View())
    {
      if caller != owner {
        return false;
      }
      members := members + {member};
      threshold := |members| / 2 + 1;
      return true;
    }

    method RemoveDaoMember(caller: Account, member: Account) returns (ok: bool)
      modifies this`members, this`threshold
      ensures Did(ok, old(View()), RemoveMember(old(View()), caller, member), View())
    {
      if caller != owner || |members| <= 1 {
        return false;
      }
      members := members - {member};
      threshold := |members| / 2 + 1;
      return true;
    }

    /** `retain`: drop the voters that are no longer members. */
    method RetainMembers(voters: seq<Account>) returns (kept: seq<Account>)
      ensures kept == Retain(voters, members)
    {
      kept := [];
      assert voters[0..] == voters;
      for i := 0 to |voters|
        invariant kept + Retain(voters[i..], members) == Retain(voters, members)
      {
        assert voters[i..][0] == voters[i] && voters[i..][1..] == voters[i + 1..];
        if voters[i] in members {
          assert kept + ([voters[i]] + Retain(voters[i + 1..], members))
              == (kept + [voters[i]]) + Retain(voters[i + 1..], members);
          kept := kept + [voters[i]];
        }
      }
      assert voters[|voters|..] == [];
    }

    method PollVoters(action: Action, voter: Account) returns (voters: seq<Account>)
      ensures voters == Poll(VaultView(), action, members, voter)
    {
      voters := RetainMembers(if action in ballots then ballots[action] else []);
      if voter !in voters {
        voters := voters + [voter];
      }
    }

    method ApproveVaultVersion(caller: Account, hash: Hash, args: Args, now: nat) returns (ok: bool, count: nat)
      modifies this`ballots, this`locked, this`cast, this`hashes, this`versions
      ensures Did(ok, old(VaultView()),
                  VaultAfterApproval(CouncilView(), old(VaultView()), caller, hash, args, now), VaultView())
      ensures ok ==> count == |Poll(old(VaultView()), ApproveHash(hash), members, caller)|
    {
      if caller !in members || |args.title| > 64 || |args.auditUrl.GetOr("")| > 256 {
        return false, 0;
      }
      if hash in locked && locked[hash] != args {
        return false, 0;
      }
      var action := ApproveHash(hash);
      var voters := PollVoters(action, caller);
      count := |voters|;
      if count >= threshold {
        ballots := ballots - {action};
        locked := locked - {hash};
        cast := cast - {hash};
        hashes := hashes + {hash};
        versions := versions[hash := VersionInfo(args.title, args.auditUrl, false, now)];
      } else {
        cast := cast[hash := CastBy(VaultView(), hash)[caller := args]];
        ballots := ballots[action := voters];
        locked := locked[hash := args];
      }
      return true, count;
    }

    method RevokeVaultVersion(caller: Account, hash: Hash) returns (ok: bool, count: nat)
      modifies this`ballots, this`hashes, this`versions
      ensures Did(ok, old(VaultView()), VaultAfterRevocation(CouncilView(), old(VaultView()), caller, hash),
                  VaultView())
      ensures ok ==> count == |Poll(old(VaultView()), RevokeHash(hash), members, caller)|
    {
      if caller !in members {
        return false, 0;
      }
      var action := RevokeHash(hash);
      var voters := PollVoters(action, caller);
      count := |voters|;
      if count >= threshold {
        ballots := ballots - {action};
        hashes := hashes - {hash};
        versions := versions - {hash};
      } else {
        ballots := ballots[action := voters];
      }
      return true, count;
    }

    method DeprecateVaultVersion(caller: Account, hash: Hash) returns (ok: bool)
      modifies this`versions
      ensures Did(ok, old(View()), DeprecateVersion(old(View()), caller, hash), View())
    {
      if caller !in members || hash !in versions {
        return false;
      }
      versions := versions[hash := versions[hash].(deprecated := true)];
      return true;
    }
  }

  lemma CountOneMore(votes: map<(nat, Account), bool>, id: nat, seen: set<Account>, m: Account)
    requires m !in seen
    ensures |Approvers(votes, id, seen + {m})|
         == |Approvers(votes, id, seen)| + (if (id, m) in votes && votes[(id, m)] then 1 else 0)
    ensures |Rejecters(votes, id, seen + {m})|
         == |Rejecters(votes, id, seen)| + (if (id, m) in votes && !votes[(id, m)] then 1 else 0)
  {
    var yes, no := Approvers(votes, id, seen), Rejecters(votes, id, seen);
    assert Approvers(votes, id, seen + {m}) == if (id, m) in votes && votes[(id, m)] then yes + {m} else yes;
    assert Rejecters(votes, id, seen + {m}) == if (id, m) in votes && !votes[(id, m)] then no + {m} else no;
  }
}
