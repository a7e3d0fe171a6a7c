/** Projects as a state machine: the projects by id, their versions by uuid, the owners' index, and the
    acceptances a transfer needs. `None` is a panic, which changes nothing. */
module Projects {
  import opened Options
  import opened Numerals
  import opened Charges
  import opened WalletKeys
  import opened Indexes
  import opened Purses
  import opened CodeSources

  /** `pricedFor` is history: the owner whose name the deposit was computed with. */
  datatype Project = Project(
    uuid: string, owner: Account, name: string, active: string, deposit: nat, pricedFor: Account)

  datatype Version = Version(source: Source, deposit: nat)

  type Versions = map<string, Version>

  datatype Acceptance = Acceptance(newOwner: Account, source: Account, name: string)

  datatype Board = Board(
    projects: map<string, Project>, versions: map<string, Versions>, index: Index<string>,
    acceptances: map<Acceptance, nat>, nextId: nat)

  datatype Event = Accepted(a: Acceptance) | Revoked(a: Acceptance) | Transferred(a: Acceptance)

  /** The versions a deleted project left behind, whose deposits nobody gets back, and what happened to
      acceptances. */
  datatype History = History(orphans: map<string, Versions>, events: multiset<Event>)

  datatype State = State(paused: bool, priced: set<string>, board: Board, purse: Purse, history: History)

  function Init(): State {
    State(false, {}, Board(map[], map[], map[], map[], 0), Purse(0, map[]), History(map[], multiset{}))
  }

  // ---- names ----

  /** Lower-case hex, padded with zeros to `width`. */
  function LowerHex(n: nat, width: nat): string
    decreases n + width
  {
    if n < 16 && width <= 1 then [HexDigit(n)]
    else LowerHex(n / 16, if width == 0 then 0 else width - 1) + [HexDigit(n % 16)]
  }

  /** The digits denote the number, and there are at least `width` of them. */
  lemma {:induction false} LowerHexDenotes(n: nat, width: nat)
    ensures AllHex(LowerHex(n, width)) && HexValue(LowerHex(n, width)) == n && |LowerHex(n, width)| >= width
    decreases n + width
  {
    var s := LowerHex(n, width);
    if n < 16 && width <= 1 {
      assert s[..0] == [] && HexValue(s) == HexValue([]) * 16 + n;
    } else {
      var w := if width == 0 then 0 else width - 1;
      LowerHexDenotes(n / 16, w);
      assert s[..|s| - 1] == LowerHex(n / 16, w);
    }
  }

  /** `format!("p{:016x}", n)`. */
  function Uuid(n: nat): string {
    "p" + LowerHex(n, 16)
  }

  lemma UuidIsInjective(m: nat, n: nat)
    requires Uuid(m) == Uuid(n)
    ensures m == n
  {
    LowerHexDenotes(m, 16);
    LowerHexDenotes(n, 16);
    assert Uuid(m)[1..] == LowerHex(m, 16) && Uuid(n)[1..] == LowerHex(n, 16);
  }

  function ProjectId(owner: Account, name: string): string {
    owner + "/" + name
  }

  predicate IsProjectName(name: string) {
    0 < |name| <= 64 && MadeOf(name, "-_")
  }

  // ---- prices ----

  function ProjectPrice(id: string, uuid: string): nat {
    (200 + |id| + |uuid| + 8 + 16) * STORAGE_PRICE_PER_BYTE
  }

  /** What the chain counts for an acceptance record. */
  function AcceptancePrice(a: Acceptance): nat {
    (40 + 1 + (4 + |a.newOwner| + 4 + |a.source| + 4 + |a.name|) + 16) * STORAGE_PRICE_PER_BYTE
  }

  // ---- create_project ----

  function CreateAt(b: Board, caller: Account, name: string, source: Source): Board {
    var id, uuid := ProjectId(caller, name), Uuid(b.nextId + 1);
    Board(b.projects[id := Project(uuid, caller, name, VersionKey(source), ProjectPrice(id, uuid), caller)],
          b.versions[uuid := map[VersionKey(source) := Version(source, VersionPrice(source))]],
          Added(b.index, caller, id), b.acceptances, b.nextId + 1)
  }

  /** For the project and its first version. */
  function CreatePrice(b: Board, caller: Account, name: string, source: Source): nat {
    ProjectPrice(ProjectId(caller, name), Uuid(b.nextId + 1)) + VersionPrice(source)
  }

  /** Take the deposit, file the project, repay what is over. */
  function Found(s: State, caller: Account, name: string, source: Source, attached: nat): State
    requires attached >= CreatePrice(s.board, caller, name, source)
  {
    s.(board := CreateAt(s.board, caller, name, source),
       purse := Move(s.purse, attached, caller, attached - CreatePrice(s.board, caller, name, source)))
  }

  function Create(s: State, caller: Account, name: string, source: Source, attached: nat): Option<State> {
    if s.paused || !IsProjectName(name) || ProjectId(caller, name) in s.board.projects || !WellFormed(source)
       || attached < CreatePrice(s.board, caller, name, source)
    then None
    else Some(Found(s, caller, name, source, attached))
  }

  // ---- add_version, set_active_version, remove_version ----

  /** The caller's project of that name, with its versions. */
  predicate Owns(b: Board, caller: Account, name: string) {
    var id := ProjectId(caller, name);
    id in b.projects && b.projects[id].owner == caller && b.projects[id].uuid in b.versions
  }

  /** Replace a live project's versions and say which of them is active. */
  function EditAt(b: Board, id: string, active: string, vs: Versions): Board
    requires id in b.projects
  {
    b.(projects := b.projects[id := b.projects[id].(active := active)],
       versions := b.versions[b.projects[id].uuid := vs])
  }

  /** Take the deposit for one more version, file it, repay what is over. */
  function Extend(s: State, id: string, caller: Account, source: Source, setActive: bool, attached: nat): State
    requires id in s.board.projects && s.board.projects[id].uuid in s.board.versions
    requires attached >= VersionPrice(source)
  {
    var b, key := s.board, VersionKey(source);
    var vs := b.versions[b.projects[id].uuid][key := Version(source, VersionPrice(source))];
    s.(board := EditAt(b, id, if setActive then key else b.projects[id].active, vs),
       purse := Move(s.purse, attached, caller, attached - VersionPrice(source)))
  }

  function AddVersion(s: State, caller: Account, name: string, source: Source, setActive: bool,
                      attached: nat): Option<State> {
    var b, id := s.board, ProjectId(caller, name);
    if s.paused || !Owns(b, caller, name) || !WellFormed(source) || attached < VersionPrice(source) then None
    else if VersionKey(source) in b.versions[b.projects[id].uuid] then None
    else Some(Extend(s, id, caller, source, setActive, attached))
  }

  function SetActive(s: State, caller: Account, name: string, key: string): Option<State> {
    var b, id := s.board, ProjectId(caller, name);
    if !Owns(b, caller, name) || key !in b.versions[b.projects[id].uuid] then None
    else Some(s.(board := EditAt(b, id, key, b.versions[b.projects[id].uuid])))
  }

  function RemoveVersion(s: State, caller: Account, name: string, key: string): Option<State> {
    var b, id := s.board, ProjectId(caller, name);
    if !Owns(b, caller, name) || b.projects[id].active == key || key !in b.versions[b.projects[id].uuid] then None
    else
      var vs := b.versions[b.projects[id].uuid];
      Some(s.(board := EditAt(b, id, b.projects[id].active, vs - {key}),
              purse := Move(s.purse, 0, caller, vs[key].deposit)))
  }

  // ---- delete_project ----

  function DeleteAt(b: Board, caller: Account, id: string): Board
    requires id in b.projects
  {
    b.(projects := b.projects - {id}, versions := b.versions - {b.projects[id].uuid},
       index := Removed(b.index, caller, id))
  }

  /** Only the project's own deposit is repaid. */
  function Delete(s: State, caller: Account, name: string): Option<State> {
    var b, id := s.board, ProjectId(caller, name);
    if id !in b.projects || b.projects[id].owner != caller then None
    else
      var uuid := b.projects[id].uuid;
      var orphans := if uuid in b.versions then s.history.orphans[uuid := b.versions[uuid]] else s.history.orphans;
      Some(s.(board := DeleteAt(b, caller, id),
              purse := Move(s.purse, 0, caller, b.projects[id].deposit),
              history := s.history.(orphans := orphans)))
  }

  // ---- transfer ----

  function Accept(s: State, caller: Account, source: Account, name: string, attached: nat): Option<State> {
    var a := Acceptance(caller, source, name);
    if s.paused || !IsProjectName(name) || ProjectId(caller, name) in s.board.projects
       || a in s.board.acceptances || attached < AcceptancePrice(a)
    then None
    else Some(s.(board := s.board.(acceptances := s.board.acceptances[a := AcceptancePrice(a)]),
                 purse := Move(s.purse, attached, caller, attached - AcceptancePrice(a)),
                 history := s.history.(events := s.history.events + multiset{Accepted(a)})))
  }

  function Revoke(s: State, caller: Account, source: Account, name: string): Option<State> {
    var a := Acceptance(caller, source, name);
    if a !in s.board.acceptances then None
    else Some(s.(board := s.board.(acceptances := s.board.acceptances - {a}),
                 purse := Move(s.purse, 0, caller, s.board.acceptances[a]),
                 history := s.history.(events := s.history.events + multiset{Revoked(a)})))
  }

  function TransferAt(b: Board, a: Acceptance): Board
    requires ProjectId(a.source, a.name) in b.projects
  {
    var gone, id := ProjectId(a.source, a.name), ProjectId(a.newOwner, a.name);
    b.(projects := (b.projects - {gone})[id := b.projects[gone].(owner := a.newOwner)],
       index := Added(Removed(b.index, a.source, gone), a.newOwner, id),
       acceptances := b.acceptances - {a})
  }

  /** A priced project does not move, and nothing moves onto an account that has not accepted it. */
  function Transfer(s: State, caller: Account, name: string, newOwner: Account): Option<State> {
    var b, gone, id := s.board, ProjectId(caller, name), ProjectId(newOwner, name);
    var a := Acceptance(newOwner, caller, name);
    if gone in s.priced || a !in b.acceptances || gone !in b.projects || b.projects[gone].owner != caller then None
    else if id in b.projects - {gone} then None
    else Some(s.(board := TransferAt(b, a),
                 purse := Move(s.purse, 0, newOwner, b.acceptances[a]),
                 history := s.history.(events := s.history.events + multiset{Transferred(a)})))
  }

  // ---- resolve_execution_source ----

  datatype Resolved = Resolved(source: Source, uuid: string)

  /** A request names a version, or takes the active one. */
  function Resolve(b: Board, id: string, version: Option<string>): Option<Resolved> {
    if id !in b.projects || (version.None? && b.projects[id].active == []) then None
    else
      var uuid, key := b.projects[id].uuid, version.GetOr(b.projects[id].active);
      if uuid !in b.versions || key !in b.versions[uuid] then None
      else Some(Resolved(b.versions[uuid][key].source, uuid))
  }

  // ---- steps and runs ----

  datatype Call =
    | CallCreate(caller: Account, name: string, source: Source, attached: nat)
    | CallAddVersion(caller: Account, name: string, source: Source, setActive: bool, attached: nat)
    | CallSetActive(caller: Account, name: string, key: string)
    | CallRemoveVersion(caller: Account, name: string, key: string)
    | CallDelete(caller: Account, name: string)
    | CallAccept(caller: Account, giver: Account, name: string, attached: nat)
    | CallRevoke(caller: Account, giver: Account, name: string)
    | CallTransfer(caller: Account, name: string, newOwner: Account)
    | SetPaused(paused: bool)
    | PricingChanged(priced: set<string>)

  function Step(s: State, c: Call): Option<State> {
    match c
    case CallCreate(caller, name, source, attached) => Create(s, caller, name, source, attached)
    case CallAddVersion(caller, name, source, setActive, attached) =>
      AddVersion(s, caller, name, source, setActive, attached)
    case CallSetActive(caller, name, key) => SetActive(s, caller, name, key)
    case CallRemoveVersion(caller, name, key) => RemoveVersion(s, caller, name, key)
    case CallDelete(caller, name) => Delete(s, caller, name)
    case CallAccept(caller, giver, name, attached) => Accept(s, caller, giver, name, attached)
    case CallRevoke(caller, giver, name) => Revoke(s, caller, giver, name)
    case CallTransfer(caller, name, newOwner) => Transfer(s, caller, name, newOwner)
    case SetPaused(paused) => Some(s.(paused := paused))
    case PricingChanged(priced) => Some(s.(priced := priced))
  }

  function After(s: State, c: Call): State {
    Step(s, c).GetOr(s)
  }

  function Run(s: State, calls: seq<Call>): State
    decreases |calls|
  {
    if calls == [] then s else Run(After(s, calls[0]), calls[1..])
  }
}
