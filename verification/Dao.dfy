/** The keystore DAO as a state machine: registration and revocation proposals decided by votes of the
    current members, membership changes, and the two-list ballots over vault code versions. `None` is
    a panic, which changes nothing. */
module Dao {
  import opened Options

  type Account = string
  type Key = string
  type Hash = string

  const MAX_REVOKE_BATCH: nat := 16

  // ---- state ----

  datatype Status = Pending | Approved | Rejected | Executed

  datatype Proposal = Proposal(key: Key, votesFor: nat, votesAgainst: nat, status: Status)

  datatype RevokeProposal = RevokeProposal(keys: seq<Key>, votesFor: nat, votesAgainst: nat, status: Status)

  /** Who the members were and who of them had approved when a proposal executed; history. */
  datatype Quorum = Quorum(members: set<Account>, approvers: set<Account>)

  datatype Council = Council(owner: Account, initAccount: Account, members: set<Account>, threshold: nat)

  /** Proposals of both kinds share one id counter and one vote map. `quorums` and `order` are history: who
      carried each executed proposal, and in which order they executed. */
  datatype Register = Register(
    proposals: map<nat, Proposal>, revokes: map<nat, RevokeProposal>, nextId: nat,
    votes: map<(nat, Account), bool>, approved: set<Key>, quorums: map<nat, Quorum>, order: seq<nat>)

  datatype Action = ApproveHash(hash: Hash) | RevokeHash(hash: Hash)

  datatype Args = Args(title: string, auditUrl: Option<string>)

  datatype VersionInfo = VersionInfo(title: string, auditUrl: Option<string>, deprecated: bool, approvedAt: nat)

  /** Vault code versions and the open ballots over them; `cast` is history: what each voter passed
      since the ballot opened. */
  datatype Vault = Vault(
    hashes: set<Hash>, versions: map<Hash, VersionInfo>,
    ballots: map<Action, seq<Account>>, locked: map<Hash, Args>,
    cast: map<Hash, map<Account, Args>>)

  datatype State = State(council: Council, register: Register, vault: Vault)

  function Majority(n: nat): nat {
    n / 2 + 1
  }

  function AsSet(list: seq<Account>): set<Account> {
    set a | a in list
  }

  /** `new`: the threshold is computed from the length of the list it is given. */
  function New(owner: Account, initAccount: Account, members: seq<Account>): Option<State> {
    if members == [] then None
    else Some(State(Council(owner, initAccount, AsSet(members), Majority(|members|)),
                    Register(map[], map[], 1, map[], {}, map[], []),
                    Vault({}, map[], map[], map[], map[])))
  }

  // ---- votes ----

  function Approvers(votes: map<(nat, Account), bool>, id: nat, members: set<Account>): set<Account> {
    set m | m in members && (id, m) in votes && votes[(id, m)]
  }

  function Rejecters(votes: map<(nat, Account), bool>, id: nat, members: set<Account>): set<Account> {
    set m | m in members && (id, m) in votes && !votes[(id, m)]
  }

  /** What a vote decides, counting only the votes of current members; `None` when the unsigned
      subtraction in the rejection test underflows. */
  function Verdict(c: Council, votes: map<(nat, Account), bool>, id: nat): Option<Status> {
    if |Approvers(votes, id, c.members)| >= c.threshold then Some(Executed)
    else if |c.members| < c.threshold then None
    else if |Rejecters(votes, id, c.members)| > |c.members| - c.threshold then Some(Rejected)
    else Some(Pending)
  }

  function KeySet(keys: seq<Key>): set<Key> {
    set k | k in keys
  }

  /** A vote on a registration proposal, counted and decided. */
  function RegistrationAfterVote(c: Council, r: Register, voter: Account, id: nat, approve: bool): Option<Register> {
    if id !in r.proposals || r.proposals[id].status != Pending || (id, voter) in r.votes then None
    else
      var votes := r.votes[(id, voter) := approve];
      var p := r.proposals[id];
      var counted := if approve then p.(votesFor := p.votesFor + 1) else p.(votesAgainst := p.votesAgainst + 1);
      var verdict := Verdict(c, votes, id);
      if verdict.None? then None
      else
        Some(RegistrationDecided(c, r.(votes := votes), id, counted.(status := verdict.value)))
  }

  /** Record the proposal as decided; an executed one puts its key in. */
  function RegistrationDecided(c: Council, r: Register, id: nat, p: Proposal): Register {
    var t := r.(proposals := r.proposals[id := p]);
    if p.status.Executed?
    then t.(approved := r.approved + {p.key},
            quorums := r.quorums[id := Quorum(c.members, Approvers(r.votes, id, c.members))],
            order := r.order + [id])
    else t
  }

  /** A vote on a revocation proposal, counted and decided. */
  function RevokeAfterVote(c: Council, r: Register, voter: Account, id: nat, approve: bool): Option<Register> {
    if id !in r.revokes || r.revokes[id].status != Pending || (id, voter) in r.votes then None
    else
      var votes := r.votes[(id, voter) := approve];
      var p := r.revokes[id];
      var counted := if approve then p.(votesFor := p.votesFor + 1) else p.(votesAgainst := p.votesAgainst + 1);
      var verdict := Verdict(c, votes, id);
      if verdict.None? then None
      else
        Some(RevokeDecided(c, r.(votes := votes), id, counted.(status := verdict.value)))
  }

  /** Record the proposal as decided; an executed one takes its keys out. */
  function RevokeDecided(c: Council, r: Register, id: nat, p: RevokeProposal): Register {
    var t := r.(revokes := r.revokes[id := p]);
    if p.status.Executed?
    then t.(approved := r.approved - KeySet(p.keys),
            quorums := r.quorums[id := Quorum(c.members, Approvers(r.votes, id, c.members))],
            order := r.order + [id])
    else t
  }

  function WithRegister(s: State, r: Option<Register>): Option<State> {
    if r.None? then None else Some(s.(register := r.value))
  }

  function VoteRegistration(s: State, voter: Account, id: nat, approve: bool): Option<State> {
    WithRegister(s, RegistrationAfterVote(s.council, s.register, voter, id, approve))
  }

  function VoteRevoke(s: State, voter: Account, id: nat, approve: bool): Option<State> {
    WithRegister(s, RevokeAfterVote(s.council, s.register, voter, id, approve))
  }

  function Vote(s: State, caller: Account, id: nat, approve: bool): Option<State> {
    if caller !in s.council.members then None
    else if id in s.register.revokes then VoteRevoke(s, caller, id, approve)
    else VoteRegistration(s, caller, id, approve)
  }

  /** `submit_keystore_registration`; `attested` is the verdict of the quote, measurement and binding
      checks. */
  function Submit(s: State, caller: Account, key: Key, attested: bool): Option<State> {
    var r := s.register;
    if caller != s.council.initAccount || key in r.approved || !attested then None
    else Some(s.(register := r.(proposals := r.proposals[r.nextId := Proposal(key, 0, 0, Pending)],
                                nextId := r.nextId + 1)))
  }

  predicate Revocable(r: Register, keys: seq<Key>) {
    && 1 <= |keys| <= MAX_REVOKE_BATCH
    && (forall i :: 0 <= i < |keys| ==> keys[i] in r.approved)
    && (forall i, j :: 0 <= i < j < |keys| ==> keys[i] != keys[j])
  }

  function OpenRevoke(r: Register, keys: seq<Key>): Register {
    r.(revokes := r.revokes[r.nextId := RevokeProposal(keys, 0, 0, Pending)], nextId := r.nextId + 1)
  }

  /** The proposer's own approval is recorded in the same call. */
  function RegisterAfterProposal(c: Council, r: Register, caller: Account, keys: seq<Key>): Option<Register> {
    if caller !in c.members || !Revocable(r, keys) then None
    else RevokeAfterVote(c, OpenRevoke(r, keys), caller, r.nextId, true)
  }

  function ProposeRevoke(s: State, caller: Account, keys: seq<Key>): Option<State> {
    WithRegister(s, RegisterAfterProposal(s.council, s.register, caller, keys))
  }

  // ---- members ----

  function Reseat(c: Council, members: set<Account>): Council {
    c.(members := members, threshold := Majority(|members|))
  }

  function AddMember(s: State, caller: Account, member: Account): Option<State> {
    if caller != s.council.owner then None
    else Some(s.(council := Reseat(s.council, s.council.members + {member})))
  }

  function RemoveMember(s: State, caller: Account, member: Account): Option<State> {
    if caller != s.council.owner || |s.council.members| <= 1 then None
    else Some(s.(council := Reseat(s.council, s.council.members - {member})))
  }

  // ---- vault versions ----

  /** The voters that are still members, in order. */
  function Retain(voters: seq<Account>, members: set<Account>): seq<Account> {
    if voters == [] then []
    else if voters[0] in members then [voters[0]] + Retain(voters[1..], members)
    else Retain(voters[1..], members)
  }

  /** A ballot's voters after `voter` votes: stale ones dropped, `voter` added once. */
  function Poll(v: Vault, action: Action, members: set<Account>, voter: Account): seq<Account> {
    var kept := Retain(if action in v.ballots then v.ballots[action] else [], members);
    if voter in kept then kept else kept + [voter]
  }

  function CastBy(v: Vault, hash: Hash): map<Account, Args> {
    if hash in v.cast then v.cast[hash] else map[]
  }

  function VaultAfterApproval(c: Council, v: Vault, caller: Account, hash: Hash, args: Args, now: nat): Option<Vault> {
    if caller !in c.members || |args.title| > 64 || |args.auditUrl.GetOr("")| > 256 then None
    else if hash in v.locked && v.locked[hash] != args then None
    else
      var action := ApproveHash(hash);
      var voters := Poll(v, action, c.members, caller);
      if |voters| >= c.threshold then
        Some(v.(ballots := v.ballots - {action}, locked := v.locked - {hash}, cast := v.cast - {hash},
                hashes := v.hashes + {hash},
                versions := v.versions[hash := VersionInfo(args.title, args.auditUrl, false, now)]))
      else
        Some(v.(ballots := v.ballots[action := voters], locked := v.locked[hash := args],
                cast := v.cast[hash := CastBy(v, hash)[caller := args]]))
  }

  function VaultAfterRevocation(c: Council, v: Vault, caller: Account, hash: Hash): Option<Vault> {
    if caller !in c.members then None
    else
      var action := RevokeHash(hash);
      var voters := Poll(v, action, c.members, caller);
      if |voters| >= c.threshold then
        Some(v.(ballots := v.ballots - {action}, hashes := v.hashes - {hash}, versions := v.versions - {hash}))
      else
        Some(v.(ballots := v.ballots[action := voters]))
  }

  function WithVault(s: State, v: Option<Vault>): Option<State> {
    if v.None? then None else Some(s.(vault := v.value))
  }

  function ApproveVersion(s: State, caller: Account, hash: Hash, args: Args, now: nat): Option<State> {
    WithVault(s, VaultAfterApproval(s.council, s.vault, caller, hash, args, now))
  }

  function RevokeVersion(s: State, caller: Account, hash: Hash): Option<State> {
    WithVault(s, VaultAfterRevocation(s.council, s.vault, caller, hash))
  }

  function DeprecateVersion(s: State, caller: Account, hash: Hash): Option<State> {
    var v := s.vault;
    if caller !in s.council.members || hash !in v.versions then None
    else Some(s.(vault := v.(versions := v.versions[hash := v.versions[hash].(deprecated := true)])))
  }

  // ---- steps and runs ----

  datatype Call =
    | CallSubmit(caller: Account, key: Key, attested: bool)
    | CallVote(caller: Account, id: nat, approve: bool)
    | CallProposeRevoke(caller: Account, keys: seq<Key>)
    | CallAddMember(caller: Account, member: Account)
    | CallRemoveMember(caller: Account, member: Account)
    | CallApproveVersion(caller: Account, hash: Hash, args: Args, now: nat)
    | CallRevokeVersion(caller: Account, hash: Hash)
    | CallDeprecateVersion(caller: Account, hash: Hash)

  function Step(s: State, c: Call): Option<State> {
    match c
    case CallSubmit(caller, key, attested) => Submit(s, caller, key, attested)
    case CallVote(caller, id, approve) => Vote(s, caller, id, approve)
    case CallProposeRevoke(caller, keys) => ProposeRevoke(s, caller, keys)
    case CallAddMember(caller, member) => AddMember(s, caller, member)
    case CallRemoveMember(caller, member) => RemoveMember(s, caller, member)
    case CallApproveVersion(caller, hash, args, now) => ApproveVersion(s, caller, hash, args, now)
    case CallRevokeVersion(caller, hash) => RevokeVersion(s, caller, hash)
    case CallDeprecateVersion(caller, hash) => DeprecateVersion(s, caller, hash)
  }

  function After(s: State, c: Call): State {
    Step(s, c).GetOr(s)
  }

  function Run(s: State, calls: seq<Call>): State
    decreases |calls|
  {
    if calls == [] then s else Run(After(s, calls[0]), calls[1..])
  }
}
