/** Project deposits and acceptances over every run, and the results about whole runs: a live project
    always resolves, uuids are never reused, and what moves a project. */
module ProjectLedger {
  import opened Options
  import opened Sums
  import opened Charges
  import opened Purses
  import opened CodeSources
  import opened Projects
  import opened ProjectRegistry

  // ---- deposits ----

  ghost function ProjectDeposits(projects: map<string, Project>): map<string, nat> {
    map id | id in projects :: projects[id].deposit
  }

  ghost function VersionDeposits(vs: Versions): map<string, nat> {
    map key | key in vs :: vs[key].deposit
  }

  ghost function Total(vs: Versions): nat {
    Sum(VersionDeposits(vs))
  }

  ghost function Totals(versions: map<string, Versions>): map<string, nat> {
    map uuid | uuid in versions :: Total(versions[uuid])
  }

  ghost function Held(b: Board): nat {
    Sum(ProjectDeposits(b.projects)) + Sum(Totals(b.versions)) + Sum(b.acceptances)
  }

  /** All NEAR taken in is held against the board, was paid out, or was left behind with the versions of
      deleted projects. */
  ghost predicate Accounted(b: Board, orphans: map<string, Versions>, p: Purse) {
    Held(b) + Sum(Totals(orphans)) + Sum(p.paid) == p.paidIn
  }

  lemma WriteTotal(versions: map<string, Versions>, uuid: string, vs: Versions)
    ensures Sum(Totals(versions[uuid := vs])) == Sum(Totals(versions)) - Get(Totals(versions), uuid) + Total(vs)
  {
    assert Totals(versions[uuid := vs]) == Totals(versions)[uuid := Total(vs)];
    SumUpdate(Totals(versions), uuid, Total(vs));
  }

  lemma DropTotal(versions: map<string, Versions>, uuid: string)
    ensures Sum(Totals(versions - {uuid})) == Sum(Totals(versions)) - Get(Totals(versions), uuid)
  {
    assert Totals(versions - {uuid}) == Totals(versions) - {uuid};
    SumWithout(Totals(versions), uuid);
  }

  lemma WriteProject(projects: map<string, Project>, id: string, p: Project)
    ensures Sum(ProjectDeposits(projects[id := p]))
         == Sum(ProjectDeposits(projects)) - Get(ProjectDeposits(projects), id) + p.deposit
  {
    assert ProjectDeposits(projects[id := p]) == ProjectDeposits(projects)[id := p.deposit];
    SumUpdate(ProjectDeposits(projects), id, p.deposit);
  }

  lemma DropProject(projects: map<string, Project>, id: string)
    requires id in projects
    ensures Sum(ProjectDeposits(projects - {id})) == Sum(ProjectDeposits(projects)) - projects[id].deposit
  {
    assert ProjectDeposits(projects - {id}) == ProjectDeposits(projects) - {id};
    SumWithout(ProjectDeposits(projects), id);
  }

  lemma AddedVersion(vs: Versions, key: string, v: Version)
    requires key !in vs
    ensures Total(vs[key := v]) == Total(vs) + v.deposit
  {
    assert VersionDeposits(vs[key := v]) == VersionDeposits(vs)[key := v.deposit];
    SumUpdate(VersionDeposits(vs), key, v.deposit);
  }

  lemma RemovedVersion(vs: Versions, key: string)
    requires key in vs
    ensures Total(vs - {key}) == Total(vs) - vs[key].deposit
  {
    assert VersionDeposits(vs - {key}) == VersionDeposits(vs) - {key};
    SumWithout(VersionDeposits(vs), key);
  }

  lemma EditHeld(b: Board, id: string, active: string, vs: Versions)
    requires id in b.projects && b.projects[id].uuid in b.versions
    ensures Held(EditAt(b, id, active, vs)) == Held(b) - Total(b.versions[b.projects[id].uuid]) + Total(vs)
  {
    WriteProject(b.projects, id, b.projects[id].(active := active));
    WriteTotal(b.versions, b.projects[id].uuid, vs);
  }

  lemma CreateHeld(b: Board, caller: Account, name: string, source: Source)
    requires ProjectId(caller, name) !in b.projects && Uuid(b.nextId + 1) !in b.versions
    ensures Held(CreateAt(b, caller, name, source)) == Held(b) + CreatePrice(b, caller, name, source)
  {
    var t, id, uuid := CreateAt(b, caller, name, source), ProjectId(caller, name), Uuid(b.nextId + 1);
    WriteProject(b.projects, id, t.projects[id]);
    WriteTotal(b.versions, uuid, t.versions[uuid]);
    FirstVersion(VersionKey(source), Version(source, VersionPrice(source)));
  }

  lemma FirstVersion(key: string, v: Version)
    ensures Total(map[key := v]) == v.deposit
  {
    var none: Versions := map[];
    AddedVersion(none, key, v);
    assert VersionDeposits(none) == map[] && none[key := v] == map[key := v];
  }

  lemma NextIsUnused(b: Board, orphans: map<string, Versions>)
    requires UuidsOnce(b, orphans)
    ensures Uuid(b.nextId + 1) !in b.versions
  {
    NextIsNotIssued(b.nextId);
  }

  lemma FoundAccounts(s: State, caller: Account, name: string, source: Source, attached: nat)
    requires Accounted(s.board, s.history.orphans, s.purse) && attached >= CreatePrice(s.board, caller, name, source)
    requires ProjectId(caller, name) !in s.board.projects && Uuid(s.board.nextId + 1) !in s.board.versions
    ensures var t := Found(s, caller, name, source, attached); Accounted(t.board, t.history.orphans, t.purse)
  {
    CreateHeld(s.board, caller, name, source);
    MovePays(s.purse, attached, caller, attached - CreatePrice(s.board, caller, name, source));
  }

  lemma CreateAccounts(s: State, caller: Account, name: string, source: Source, attached: nat)
    requires Accounted(s.board, s.history.orphans, s.purse) && UuidsOnce(s.board, s.history.orphans)
    requires Create(s, caller, name, source, attached).Some?
    ensures var t := Create(s, caller, name, source, attached).value; Accounted(t.board, t.history.orphans, t.purse)
  {
    NextIsUnused(s.board, s.history.orphans);
    FoundAccounts(s, caller, name, source, attached);
  }

  lemma AddVersionAccounts(s: State, caller: Account, name: string, source: Source, setActive: bool, attached: nat)
    requires Accounted(s.board, s.history.orphans, s.purse)
    requires AddVersion(s, caller, name, source, setActive, attached).Some?
    ensures var t := AddVersion(s, caller, name, source, setActive, attached).value;
            Accounted(t.board, t.history.orphans, t.purse)
  {
    ExtendAccounts(s, ProjectId(caller, name), caller, source, setActive, attached);
  }

  lemma ExtendAccounts(s: State, id: string, caller: Account, source: Source, setActive: bool, attached: nat)
    requires Accounted(s.board, s.history.orphans, s.purse) && id in s.board.projects
    requires s.board.projects[id].uuid in s.board.versions && attached >= VersionPrice(source)
    requires VersionKey(source) !in s.board.versions[s.board.projects[id].uuid]
    ensures var t := Extend(s, id, caller, source, setActive, attached);
            Accounted(t.board, t.history.orphans, t.purse)
  {
    var b := s.board;
    var key, vs, v := VersionKey(source), b.versions[b.projects[id].uuid], Version(source, VersionPrice(source));
    EditHeld(b, id, if setActive then key else b.projects[id].active, vs[key := v]);
    AddedVersion(vs, key, v);
    MovePays(s.purse, attached, caller, attached - VersionPrice(source));
  }

  lemma SetActiveAccounts(s: State, caller: Account, name: string, key: string)
    requires Accounted(s.board, s.history.orphans, s.purse) && SetActive(s, caller, name, key).Some?
    ensures var t := SetActive(s, caller, name, key).value; Accounted(t.board, t.history.orphans, t.purse)
  {
    var b, id := s.board, ProjectId(caller, name);
    EditHeld(b, id, key, b.versions[b.projects[id].uuid]);
  }

  lemma RemoveVersionAccounts(s: State, caller: Account, name: string, key: string)
    requires Accounted(s.board, s.history.orphans, s.purse) && RemoveVersion(s, caller, name, key).Some?
    ensures var t := RemoveVersion(s, caller, name, key).value; Accounted(t.board, t.history.orphans, t.purse)
  {
    var b, id := s.board, ProjectId(caller, name);
    var vs := b.versions[b.projects[id].uuid];
    EditHeld(b, id, b.projects[id].active, vs - {key});
    RemovedVersion(vs, key);
    MovePays(s.purse, 0, caller, vs[key].deposit);
  }

  lemma DeleteAccounts(s: State, caller: Account, name: string)
    requires Accounted(s.board, s.history.orphans, s.purse) && UuidsOnce(s.board, s.history.orphans)
    requires Delete(s, caller, name).Some?
    ensures var t := Delete(s, caller, name).value; Accounted(t.board, t.history.orphans, t.purse)
  {
    var b, id := s.board, ProjectId(caller, name);
    var uuid := b.projects[id].uuid;
    DropProject(b.projects, id);
    DropTotal(b.versions, uuid);
    if uuid in b.versions {
      WriteTotal(s.history.orphans, uuid, b.versions[uuid]);
    }
    MovePays(s.purse, 0, caller, b.projects[id].deposit);
  }

  lemma AcceptAccounts(s: State, caller: Account, giver: Account, name: string, attached: nat)
    requires Accounted(s.board, s.history.orphans, s.purse) && Accept(s, caller, giver, name, attached).Some?
    ensures var t := Accept(s, caller, giver, name, attached).value; Accounted(t.board, t.history.orphans, t.purse)
  {
    var a := Acceptance(caller, giver, name);
    SumUpdate(s.board.acceptances, a, AcceptancePrice(a));
    MovePays(s.purse, attached, caller, attached - AcceptancePrice(a));
  }

  lemma RevokeAccounts(s: State, caller: Account, giver: Account, name: string)
    requires Accounted(s.board, s.history.orphans, s.purse) && Revoke(s, caller, giver, name).Some?
    ensures var t := Revoke(s, caller, giver, name).value; Accounted(t.board, t.history.orphans, t.purse)
  {
    var a := Acceptance(caller, giver, name);
    SumWithout(s.board.acceptances, a);
    MovePays(s.purse, 0, caller, s.board.acceptances[a]);
  }

  lemma TransferHeld(b: Board, a: Acceptance)
    requires MayTransfer(b, a) && a in b.acceptances
    ensures Held(TransferAt(b, a)) == Held(b) - b.acceptances[a]
  {
    var gone, id := ProjectId(a.source, a.name), ProjectId(a.newOwner, a.name);
    DropProject(b.projects, gone);
    WriteProject(b.projects - {gone}, id, b.projects[gone].(owner := a.newOwner));
    SumWithout(b.acceptances, a);
  }

  lemma TransferAccounts(s: State, caller: Account, name: string, newOwner: Account)
    requires Accounted(s.board, s.history.orphans, s.purse) && Transfer(s, caller, name, newOwner).Some?
    ensures var t := Transfer(s, caller, name, newOwner).value; Accounted(t.board, t.history.orphans, t.purse)
  {
    var a := Acceptance(newOwner, caller, name);
    TransferHeld(s.board, a);
    MovePays(s.purse, 0, newOwner, s.board.acceptances[a]);
  }

  lemma AccountedStep(s: State, c: Call)
    requires Accounted(s.board, s.history.orphans, s.purse) && UuidsOnce(s.board, s.history.orphans)
    ensures var t := After(s, c); Accounted(t.board, t.history.orphans, t.purse)
  {
    if Step(s, c).None? {
      return;
    }
    match c
    case CallCreate(caller, name, source, attached) => CreateAccounts(s, caller, name, source, attached);
    case CallAddVersion(caller, name, source, setActive, attached) =>
      AddVersionAccounts(s, caller, name, source, setActive, attached);
    case CallSetActive(caller, name, key) => SetActiveAccounts(s, caller, name, key);
    case CallRemoveVersion(caller, name, key) => RemoveVersionAccounts(s, caller, name, key);
    case CallDelete(caller, name) => DeleteAccounts(s, caller, name);
    case CallAccept(caller, giver, name, attached) => AcceptAccounts(s, caller, giver, name, attached);
    case CallRevoke(caller, giver, name) => RevokeAccounts(s, caller, giver, name);
    case CallTransfer(caller, name, newOwner) => TransferAccounts(s, caller, name, newOwner);
    case _ =>
  }

  // ---- acceptances ----

  /** Each acceptance given was revoked, was used by one transfer, or still stands. */
  ghost predicate Consumed(acceptances: map<Acceptance, nat>, events: multiset<Event>) {
    forall a :: events[Accepted(a)] ==
                events[Revoked(a)] + events[Transferred(a)] + (if a in acceptances then 1 else 0)
  }

  lemma AddEvent(events: multiset<Event>, e: Event, f: Event)
    ensures (events + multiset{e})[f] == events[f] + (if e == f then 1 else 0)
  {
  }

  lemma ConsumedByEvent(before: map<Acceptance, nat>, events: multiset<Event>, after: map<Acceptance, nat>, e: Event)
    requires Consumed(before, events)
    requires if e.Accepted? then e.a !in before && after.Keys == before.Keys + {e.a}
             else e.a in before && after.Keys == before.Keys - {e.a}
    ensures Consumed(after, events + multiset{e})
  {
    var t := events + multiset{e};
    forall a
      ensures t[Accepted(a)] == t[Revoked(a)] + t[Transferred(a)] + (if a in after then 1 else 0)
    {
      AddEvent(events, e, Accepted(a));
      AddEvent(events, e, Revoked(a));
      AddEvent(events, e, Transferred(a));
      assert a in after <==> a in after.Keys;
    }
  }

  lemma ConsumedStep(s: State, c: Call)
    requires Consumed(s.board.acceptances, s.history.events)
    ensures Consumed(After(s, c).board.acceptances, After(s, c).history.events)
  {
    if Step(s, c).None? {
      return;
    }
    var before, after := s.board.acceptances, After(s, c).board.acceptances;
    match c
    case CallAccept(caller, giver, name, _) =>
      ConsumedByEvent(before, s.history.events, after, Accepted(Acceptance(caller, giver, name)));
    case CallRevoke(caller, giver, name) =>
      ConsumedByEvent(before, s.history.events, after, Revoked(Acceptance(caller, giver, name)));
    case CallTransfer(caller, name, newOwner) =>
      ConsumedByEvent(before, s.history.events, after, Transferred(Acceptance(newOwner, caller, name)));
    case _ => OthersConsumeNothing(s, c);
  }

  lemma OthersConsumeNothing(s: State, c: Call)
    requires !c.CallAccept? && !c.CallRevoke? && !c.CallTransfer?
    ensures After(s, c).board.acceptances == s.board.acceptances && After(s, c).history.events == s.history.events
  {
  }

  // ---- every run ----

  ghost predicate Inv(s: State) {
    && BoardSound(s.board) && UuidsOnce(s.board, s.history.orphans)
    && Accounted(s.board, s.history.orphans, s.purse) && Consumed(s.board.acceptances, s.history.events)
  }

  /** On every run: each project's id is its owner and name and is indexed under exactly that owner, the
      versions map's keys are exactly the live uuids, the active version exists, all NEAR is accounted
      for, and every acceptance is consumed at most once. */
  lemma {:induction false} RunInv(s: State, calls: seq<Call>)
    requires Inv(s)
    ensures Inv(Run(s, calls))
    decreases |calls|
  {
    if calls != [] {
      BoardStep(s, calls[0]);
      AccountedStep(s, calls[0]);
      ConsumedStep(s, calls[0]);
      RunInv(After(s, calls[0]), calls[1..]);
    }
  }

  lemma InitInv(s: State)
    requires s == Init()
    ensures Inv(s)
  {
    assert OwnersOf(s.board.projects) == map[] && ProjectDeposits(s.board.projects) == map[];
    assert UuidsOf(s.board.projects) == {};
    assert Totals(s.board.versions) == map[] && Totals(s.history.orphans) == map[];
  }

  /** A request that names a live project and no version always resolves, to a well-formed source filed
      under the active version's key. */
  lemma LiveProjectResolves(s: State, calls: seq<Call>, id: string)
    requires s == Init() && id in Run(s, calls).board.projects
    ensures var b := Run(s, calls).board;
            var r := Resolve(b, id, None);
            && r.Some? && r.value.uuid == b.projects[id].uuid
            && WellFormed(r.value.source) && VersionKey(r.value.source) == b.projects[id].active
  {
    InitInv(s);
    RunInv(s, calls);
    ActiveResolves(Run(s, calls).board, id);
  }

  lemma ActiveResolves(b: Board, id: string)
    requires BoardSound(b) && id in b.projects
    ensures var r := Resolve(b, id, None);
            && r.Some? && r.value.uuid == b.projects[id].uuid
            && WellFormed(r.value.source) && VersionKey(r.value.source) == b.projects[id].active
  {
    var p := b.projects[id];
    assert ProjectSound(b.versions, id, p) && EachSound(b.versions[p.uuid]);
    assert VersionSound(p.active, b.versions[p.uuid][p.active]);
    VersionKeyNamesTheCode(b.versions[p.uuid][p.active].source, b.versions[p.uuid][p.active].source);
  }

  lemma NumberStays(s: State, c: Call)
    ensures After(s, c).board.nextId >= s.board.nextId
  {
  }

  /** A call adds at most the next uuid. */
  lemma UuidsStep(s: State, c: Call)
    ensures After(s, c).board.versions.Keys <= s.board.versions.Keys + {Uuid(s.board.nextId + 1)}
  {
  }

  lemma DeadStep(s: State, c: Call, n: nat)
    requires 1 <= n <= s.board.nextId && Uuid(n) !in s.board.versions
    ensures Uuid(n) !in After(s, c).board.versions
  {
    UuidsStep(s, c);
    if Uuid(n) == Uuid(s.board.nextId + 1) {
      UuidIsInjective(n, s.board.nextId + 1);
    }
  }

  /** A uuid that was handed out and is no longer live is gone for good. */
  lemma {:induction false} UuidsAreNeverReused(s: State, calls: seq<Call>, n: nat)
    requires 1 <= n <= s.board.nextId && Uuid(n) !in s.board.versions
    ensures Uuid(n) !in Run(s, calls).board.versions
    decreases |calls|
  {
    if calls != [] {
      DeadStep(s, calls[0], n);
      NumberStays(s, calls[0]);
      UuidsAreNeverReused(After(s, calls[0]), calls[1..], n);
    }
  }

  /** In every reachable state a project's deposit covers it under its present id exactly when its owner's
      name is no longer than the one it was created under. */
  lemma DepositCoversProject(s: State, id: string)
    requires Inv(s) && id in s.board.projects
    ensures var p := s.board.projects[id];
            p.deposit >= ProjectPrice(id, p.uuid) <==> |p.owner| <= |p.pricedFor|
  {
    assert ProjectSound(s.board.versions, id, s.board.projects[id]);
  }

  // ---- what a delete keeps ----

  lemma EveryProjectHasADeposit(b: Board, id: string)
    requires BoardSound(b) && id in b.projects
    ensures b.projects[id].uuid in b.versions && Total(b.versions[b.projects[id].uuid]) > 0
  {
    var p := b.projects[id];
    assert ProjectSound(b.versions, id, p) && EachSound(b.versions[p.uuid]);
    assert VersionSound(p.active, b.versions[p.uuid][p.active]);
    SumIsAtLeast(VersionDeposits(b.versions[p.uuid]), p.active);
  }

  /** A delete repays the project's own deposit and nothing else: the deposits of all its versions, the
      active one at least, stay behind for good. No delete repays everything. */
  lemma DeleteKeepsVersionDeposits(s: State, caller: Account, name: string)
    requires Inv(s) && Delete(s, caller, name).Some?
    ensures var t, p := Delete(s, caller, name).value, s.board.projects[ProjectId(caller, name)];
            && p.uuid in s.board.versions && Total(s.board.versions[p.uuid]) > 0
            && Sum(Totals(t.history.orphans)) == Sum(Totals(s.history.orphans)) + Total(s.board.versions[p.uuid])
            && t.purse == Move(s.purse, 0, caller, p.deposit)
            && Held(t.board) == Held(s.board) - p.deposit - Total(s.board.versions[p.uuid])
  {
    var b, id := s.board, ProjectId(caller, name);
    EveryProjectHasADeposit(b, id);
    var uuid := b.projects[id].uuid;
    WriteTotal(s.history.orphans, uuid, b.versions[uuid]);
    DropProject(b.projects, id);
    DropTotal(b.versions, uuid);
  }

  // ---- transfers ----

  /** The acceptance the call used was there, is gone, and was repaid to the new owner. */
  predicate PaidByAcceptance(s: State, c: Call, t: State, id: string, id': string) {
    && c.CallTransfer? && id == ProjectId(c.caller, c.name) && id' == ProjectId(c.newOwner, c.name) && id !in s.priced
    && var a := Acceptance(c.newOwner, c.caller, c.name);
       && a in s.board.acceptances && t.board.acceptances == s.board.acceptances - {a}
       && t.purse == Move(s.purse, 0, c.newOwner, s.board.acceptances[a])
  }

  /** Apart from transfers, a project found after a call was there before it or was just created. */
  lemma OldOrNew(s: State, c: Call, id: string)
    requires id in After(s, c).board.projects && (Step(s, c).None? || !c.CallTransfer?)
    ensures (id in s.board.projects && After(s, c).board.projects[id].uuid == s.board.projects[id].uuid)
            || After(s, c).board.projects[id].uuid == Uuid(s.board.nextId + 1)
  {
  }

  lemma NothingElseMoves(s: State, c: Call, id: string, id': string)
    requires UuidsExact(s.board) && UuidsOnce(s.board, s.history.orphans)
    requires id in s.board.projects && id' in After(s, c).board.projects
    requires s.board.projects[id].uuid == After(s, c).board.projects[id'].uuid
    requires Step(s, c).None? || !c.CallTransfer?
    ensures id == id'
  {
    OldOrNew(s, c, id');
    SameUuidSameId(s.board, s.history.orphans, id, id');
  }

  lemma SameUuidSameId(b: Board, orphans: map<string, Versions>, id: string, id': string)
    requires UuidsExact(b) && UuidsOnce(b, orphans) && id in b.projects
    ensures b.projects[id].uuid != Uuid(b.nextId + 1)
    ensures id' in b.projects && b.projects[id'].uuid == b.projects[id].uuid ==> id == id'
  {
    NextIsNotIssued(b.nextId);
    assert b.projects[id].uuid in UuidsOf(b.projects);
  }

  lemma TransferMovesOne(b: Board, a: Acceptance, id: string, id': string)
    requires UuidsExact(b) && MayTransfer(b, a) && id in b.projects && id' in TransferAt(b, a).projects && id != id'
    requires b.projects[id].uuid == TransferAt(b, a).projects[id'].uuid
    ensures id == ProjectId(a.source, a.name) && id' == ProjectId(a.newOwner, a.name)
  {
  }

  /** A live project changes its id only by a transfer from its owner to an account that accepted this
      very project from that owner: the acceptance is used up and its deposit repaid to the new owner,
      and the project keeps its uuid, versions and active version. */
  lemma OnlyAcceptedTransfersMove(s: State, c: Call, id: string, id': string)
    requires UuidsExact(s.board) && UuidsOnce(s.board, s.history.orphans)
    requires id in s.board.projects && id' in After(s, c).board.projects && id != id'
    requires s.board.projects[id].uuid == After(s, c).board.projects[id'].uuid
    ensures PaidByAcceptance(s, c, After(s, c), id, id')
    ensures c.caller == s.board.projects[id].owner
    ensures After(s, c).board.projects[id'] == s.board.projects[id].(owner := c.newOwner)
    ensures After(s, c).board.versions == s.board.versions
  {
    if Step(s, c).None? || !c.CallTransfer? {
      NothingElseMoves(s, c, id, id');
    } else {
      TransferMovesOne(s.board, Acceptance(c.newOwner, c.caller, c.name), id, id');
    }
  }
}
