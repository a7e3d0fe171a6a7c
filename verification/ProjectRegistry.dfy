/** What every run of the project methods keeps of the maps: ids, uuids, versions, the active version and
    the owners' index agree. */
module ProjectRegistry {
  import opened Charges
  import opened Indexes
  import opened CodeSources
  import opened Projects

  // ---- ids, uuids and versions ----

  /** Uuids handed out so far. */
  ghost predicate Issued(nextId: nat, uuid: string) {
    exists n: nat :: 1 <= n <= nextId && uuid == Uuid(n)
  }

  lemma NextIsNotIssued(nextId: nat)
    ensures !Issued(nextId, Uuid(nextId + 1))
    ensures Issued(nextId + 1, Uuid(nextId + 1))
  {
    forall n: nat | 1 <= n <= nextId && Uuid(nextId + 1) == Uuid(n)
      ensures false
    {
      UuidIsInjective(n, nextId + 1);
    }
  }

  lemma StaysIssued(nextId: nat, uuid: string)
    requires Issued(nextId, uuid)
    ensures Issued(nextId + 1, uuid)
  {
  }

  /** An id is its owner and name, the active version exists, and the deposit is the price under the name
      the project was created with. */
  predicate ProjectSound(versions: map<string, Versions>, id: string, p: Project) {
    && id == ProjectId(p.owner, p.name) && IsProjectName(p.name)
    && p.uuid in versions && p.active in versions[p.uuid]
    && p.deposit == ProjectPrice(ProjectId(p.pricedFor, p.name), p.uuid)
  }

  ghost predicate ProjectsSound(b: Board) {
    forall id :: id in b.projects ==> ProjectSound(b.versions, id, b.projects[id])
  }

  ghost function UuidsOf(projects: map<string, Project>): set<string> {
    set id | id in projects :: projects[id].uuid
  }

  /** The versions map's keys are exactly the live projects' uuids, one project each. */
  ghost predicate UuidsExact(b: Board) {
    && b.versions.Keys == UuidsOf(b.projects)
    && (forall id, id' ::
          id in b.projects && id' in b.projects && b.projects[id].uuid == b.projects[id'].uuid ==> id == id')
  }

  /** A version is filed under the key of a well-formed source and holds exactly its price. */
  predicate VersionSound(key: string, v: Version) {
    WellFormed(v.source) && key == VersionKey(v.source) && v.deposit == VersionPrice(v.source)
  }

  ghost predicate EachSound(vs: Versions) {
    forall key :: key in vs ==> VersionSound(key, vs[key])
  }

  ghost predicate VersionsSound(versions: map<string, Versions>) {
    forall uuid :: uuid in versions ==> EachSound(versions[uuid])
  }

  /** Every uuid in use or left behind was handed out, and none is both. */
  ghost predicate UuidsOnce(b: Board, orphans: map<string, Versions>) {
    && (forall uuid :: uuid in b.versions || uuid in orphans ==> Issued(b.nextId, uuid))
    && b.versions.Keys !! orphans.Keys
  }

  ghost function OwnersOf(projects: map<string, Project>): map<string, Account> {
    map id | id in projects :: projects[id].owner
  }

  ghost predicate BoardSound(b: Board) {
    ProjectsSound(b) && UuidsExact(b) && VersionsSound(b.versions) && Exact(b.index, OwnersOf(b.projects))
  }

  // ---- create ----

  lemma CreateUuids(b: Board, caller: Account, name: string, source: Source)
    requires UuidsExact(b) && ProjectId(caller, name) !in b.projects && Uuid(b.nextId + 1) !in b.versions
    ensures UuidsExact(CreateAt(b, caller, name, source))
  {
    var t, id := CreateAt(b, caller, name, source), ProjectId(caller, name);
    assert UuidsOf(t.projects) == UuidsOf(b.projects) + {Uuid(b.nextId + 1)} by {
      assert forall i :: i in b.projects ==> t.projects[i] == b.projects[i];
      assert t.projects[id].uuid == Uuid(b.nextId + 1);
    }
    forall i | i in b.projects
      ensures b.projects[i].uuid != Uuid(b.nextId + 1)
    {
      assert b.projects[i].uuid in UuidsOf(b.projects);
    }
  }

  lemma CreateProjects(b: Board, caller: Account, name: string, source: Source)
    requires ProjectsSound(b) && IsProjectName(name) && Uuid(b.nextId + 1) !in b.versions
    ensures ProjectsSound(CreateAt(b, caller, name, source))
  {
    var t := CreateAt(b, caller, name, source);
    forall id | id in t.projects
      ensures ProjectSound(t.versions, id, t.projects[id])
    {
      assert id in b.projects ==> ProjectSound(b.versions, id, b.projects[id]);
    }
  }

  lemma CreateVersions(b: Board, caller: Account, name: string, source: Source)
    requires VersionsSound(b.versions) && WellFormed(source)
    ensures VersionsSound(CreateAt(b, caller, name, source).versions)
  {
  }

  lemma CreateIndex(b: Board, caller: Account, name: string, source: Source)
    requires Exact(b.index, OwnersOf(b.projects)) && ProjectId(caller, name) !in b.projects
    ensures var t := CreateAt(b, caller, name, source); Exact(t.index, OwnersOf(t.projects))
  {
    var t, id := CreateAt(b, caller, name, source), ProjectId(caller, name);
    AddedIsExact(b.index, OwnersOf(b.projects), caller, id);
    assert OwnersOf(t.projects) == OwnersOf(b.projects)[id := caller];
  }

  lemma CreateIsSound(s: State, caller: Account, name: string, source: Source, attached: nat)
    requires BoardSound(s.board) && UuidsOnce(s.board, s.history.orphans)
    requires Create(s, caller, name, source, attached).Some?
    ensures var t := Create(s, caller, name, source, attached).value;
            BoardSound(t.board) && UuidsOnce(t.board, t.history.orphans)
  {
    var b := s.board;
    NextIsNotIssued(b.nextId);
    CreateUuids(b, caller, name, source);
    CreateProjects(b, caller, name, source);
    CreateVersions(b, caller, name, source);
    CreateIndex(b, caller, name, source);
    CreateOnce(b, s.history.orphans, caller, name, source);
  }

  lemma CreateOnce(b: Board, orphans: map<string, Versions>, caller: Account, name: string, source: Source)
    requires UuidsOnce(b, orphans)
    ensures UuidsOnce(CreateAt(b, caller, name, source), orphans)
  {
    var t := CreateAt(b, caller, name, source);
    NextIsNotIssued(b.nextId);
    forall uuid | uuid in t.versions || uuid in orphans
      ensures Issued(t.nextId, uuid)
    {
      if uuid != Uuid(b.nextId + 1) {
        StaysIssued(b.nextId, uuid);
      }
    }
  }

  // ---- versions ----

  lemma EditUuids(b: Board, id: string, active: string, vs: Versions)
    requires UuidsExact(b) && id in b.projects && b.projects[id].uuid in b.versions
    ensures EditAt(b, id, active, vs).versions.Keys == b.versions.Keys && UuidsExact(EditAt(b, id, active, vs))
  {
    var t := EditAt(b, id, active, vs);
    assert UuidsOf(t.projects) == UuidsOf(b.projects) by {
      assert forall i :: i in b.projects ==> t.projects[i].uuid == b.projects[i].uuid;
    }
  }

  lemma EditProjects(b: Board, id: string, active: string, vs: Versions)
    requires ProjectsSound(b) && UuidsExact(b) && id in b.projects && active in vs
    ensures ProjectsSound(EditAt(b, id, active, vs))
  {
    var t := EditAt(b, id, active, vs);
    forall i | i in t.projects
      ensures ProjectSound(t.versions, i, t.projects[i])
    {
      assert ProjectSound(b.versions, i, b.projects[i]);
      assert i != id ==> b.projects[i].uuid != b.projects[id].uuid;
    }
  }

  lemma EditOwners(b: Board, id: string, active: string, vs: Versions)
    requires id in b.projects
    ensures OwnersOf(EditAt(b, id, active, vs).projects) == OwnersOf(b.projects)
  {
  }

  lemma EditVersions(versions: map<string, Versions>, uuid: string, vs: Versions)
    requires VersionsSound(versions) && EachSound(vs)
    ensures VersionsSound(versions[uuid := vs])
  {
  }

  /** Changing a live project's versions, and which of them is active, keeps the rest in place. */
  lemma EditIsSound(b: Board, orphans: map<string, Versions>, id: string, active: string, vs: Versions)
    requires BoardSound(b) && UuidsOnce(b, orphans) && id in b.projects && active in vs
    requires EachSound(vs)
    ensures BoardSound(EditAt(b, id, active, vs)) && UuidsOnce(EditAt(b, id, active, vs), orphans)
  {
    var t := EditAt(b, id, active, vs);
    assert ProjectSound(b.versions, id, b.projects[id]);
    EditUuids(b, id, active, vs);
    EditProjects(b, id, active, vs);
    EditVersions(b.versions, b.projects[id].uuid, vs);
    EditOwners(b, id, active, vs);
    EditOnce(b, orphans, t);
  }

  lemma EditOnce(b: Board, orphans: map<string, Versions>, t: Board)
    requires UuidsOnce(b, orphans) && t.versions.Keys == b.versions.Keys && t.nextId == b.nextId
    ensures UuidsOnce(t, orphans)
  {
    forall uuid | uuid in t.versions || uuid in orphans
      ensures Issued(t.nextId, uuid)
    {
      assert uuid in t.versions ==> uuid in b.versions.Keys;
    }
  }

  lemma AddVersionIsSound(s: State, caller: Account, name: string, source: Source, setActive: bool, attached: nat)
    requires BoardSound(s.board) && UuidsOnce(s.board, s.history.orphans)
    requires AddVersion(s, caller, name, source, setActive, attached).Some?
    ensures var t := AddVersion(s, caller, name, source, setActive, attached).value;
            BoardSound(t.board) && UuidsOnce(t.board, t.history.orphans)
  {
    var b, id := s.board, ProjectId(caller, name);
    var key, vs := VersionKey(source), b.versions[b.projects[id].uuid];
    assert ProjectSound(b.versions, id, b.projects[id]);
    EditIsSound(b, s.history.orphans, id, if setActive then key else b.projects[id].active,
                vs[key := Version(source, VersionPrice(source))]);
  }

  lemma SetActiveIsSound(s: State, caller: Account, name: string, key: string)
    requires BoardSound(s.board) && UuidsOnce(s.board, s.history.orphans)
    requires SetActive(s, caller, name, key).Some?
    ensures var t := SetActive(s, caller, name, key).value;
            BoardSound(t.board) && UuidsOnce(t.board, t.history.orphans)
  {
    var b, id := s.board, ProjectId(caller, name);
    EditIsSound(b, s.history.orphans, id, key, b.versions[b.projects[id].uuid]);
  }

  lemma RemoveVersionIsSound(s: State, caller: Account, name: string, key: string)
    requires BoardSound(s.board) && UuidsOnce(s.board, s.history.orphans)
    requires RemoveVersion(s, caller, name, key).Some?
    ensures var t := RemoveVersion(s, caller, name, key).value;
            BoardSound(t.board) && UuidsOnce(t.board, t.history.orphans)
  {
    var b, id := s.board, ProjectId(caller, name);
    assert ProjectSound(b.versions, id, b.projects[id]);
    EditIsSound(b, s.history.orphans, id, b.projects[id].active, b.versions[b.projects[id].uuid] - {key});
  }

  // ---- delete ----

  lemma DeleteUuids(b: Board, id: string)
    requires UuidsExact(b) && id in b.projects
    ensures UuidsExact(DeleteAt(b, b.projects[id].owner, id))
  {
    var t := DeleteAt(b, b.projects[id].owner, id);
    var uuid := b.projects[id].uuid;
    forall u
      ensures u in UuidsOf(t.projects) <==> u in UuidsOf(b.projects) - {uuid}
    {
      if u in UuidsOf(b.projects) && u != uuid {
        var i :| i in b.projects && b.projects[i].uuid == u;
        assert i in t.projects && t.projects[i].uuid == u;
      }
    }
  }

  lemma DeleteProjects(b: Board, id: string)
    requires ProjectsSound(b) && UuidsExact(b) && id in b.projects
    ensures ProjectsSound(DeleteAt(b, b.projects[id].owner, id))
  {
    var t := DeleteAt(b, b.projects[id].owner, id);
    forall i | i in t.projects
      ensures ProjectSound(t.versions, i, t.projects[i])
    {
      assert ProjectSound(b.versions, i, b.projects[i]);
    }
  }

  lemma DeleteIndex(b: Board, id: string)
    requires Exact(b.index, OwnersOf(b.projects)) && id in b.projects
    ensures var t := DeleteAt(b, b.projects[id].owner, id); Exact(t.index, OwnersOf(t.projects))
  {
    var t := DeleteAt(b, b.projects[id].owner, id);
    RemovedIsExact(b.index, OwnersOf(b.projects), id);
    assert OwnersOf(t.projects) == OwnersOf(b.projects) - {id};
  }

  lemma DeleteIsSound(s: State, caller: Account, name: string)
    requires BoardSound(s.board) && UuidsOnce(s.board, s.history.orphans) && Delete(s, caller, name).Some?
    ensures var t := Delete(s, caller, name).value; BoardSound(t.board) && UuidsOnce(t.board, t.history.orphans)
  {
    var id := ProjectId(caller, name);
    DeleteUuids(s.board, id);
    DeleteProjects(s.board, id);
    DeleteIndex(s.board, id);
  }

  // ---- transfer ----

  lemma SameName(owner: Account, name: string, name': string)
    requires ProjectId(owner, name) == ProjectId(owner, name')
    ensures name == name'
  {
    assert ProjectId(owner, name)[|owner| + 1..] == name && ProjectId(owner, name')[|owner| + 1..] == name';
  }

  predicate MayTransfer(b: Board, a: Acceptance) {
    var gone := ProjectId(a.source, a.name);
    && gone in b.projects && b.projects[gone].owner == a.source
    && ProjectId(a.newOwner, a.name) !in b.projects - {gone}
  }

  lemma TransferUuids(b: Board, a: Acceptance)
    requires UuidsExact(b) && MayTransfer(b, a)
    ensures UuidsExact(TransferAt(b, a))
  {
    var t, gone, id := TransferAt(b, a), ProjectId(a.source, a.name), ProjectId(a.newOwner, a.name);
    forall u
      ensures u in UuidsOf(t.projects) <==> u in UuidsOf(b.projects)
    {
      if u in UuidsOf(b.projects) {
        var i :| i in b.projects && b.projects[i].uuid == u;
        var j := if i == gone then id else i;
        assert j in t.projects && t.projects[j].uuid == u;
      }
      if u in UuidsOf(t.projects) {
        var i :| i in t.projects && t.projects[i].uuid == u;
        var j := if i == id then gone else i;
        assert j in b.projects && b.projects[j].uuid == u;
      }
    }
  }

  lemma TransferProjects(b: Board, a: Acceptance)
    requires ProjectsSound(b) && MayTransfer(b, a)
    ensures ProjectsSound(TransferAt(b, a))
  {
    var t, gone := TransferAt(b, a), ProjectId(a.source, a.name);
    assert ProjectSound(b.versions, gone, b.projects[gone]);
    SameName(a.source, a.name, b.projects[gone].name);
    forall i | i in t.projects
      ensures ProjectSound(t.versions, i, t.projects[i])
    {
      assert i in b.projects ==> ProjectSound(b.versions, i, b.projects[i]);
    }
  }

  lemma TransferIndex(b: Board, a: Acceptance)
    requires Exact(b.index, OwnersOf(b.projects)) && MayTransfer(b, a)
    ensures var t := TransferAt(b, a); Exact(t.index, OwnersOf(t.projects))
  {
    var t, gone, id := TransferAt(b, a), ProjectId(a.source, a.name), ProjectId(a.newOwner, a.name);
    var owners := OwnersOf(b.projects);
    RemovedIsExact(b.index, owners, gone);
    AddedIsExact(Removed(b.index, a.source, gone), owners - {gone}, a.newOwner, id);
    assert OwnersOf(t.projects) == (owners - {gone})[id := a.newOwner];
  }

  lemma TransferIsSound(s: State, caller: Account, name: string, newOwner: Account)
    requires BoardSound(s.board) && UuidsOnce(s.board, s.history.orphans) && Transfer(s, caller, name, newOwner).Some?
    ensures var t := Transfer(s, caller, name, newOwner).value;
            BoardSound(t.board) && UuidsOnce(t.board, t.history.orphans)
  {
    var a := Acceptance(newOwner, caller, name);
    TransferUuids(s.board, a);
    TransferProjects(s.board, a);
    TransferIndex(s.board, a);
  }

  /** Acceptances live beside the board. */
  lemma AcceptancesAreApart(b: Board, orphans: map<string, Versions>, acceptances: map<Acceptance, nat>)
    requires BoardSound(b) && UuidsOnce(b, orphans)
    ensures BoardSound(b.(acceptances := acceptances)) && UuidsOnce(b.(acceptances := acceptances), orphans)
  {
  }

  lemma BoardStep(s: State, c: Call)
    requires BoardSound(s.board) && UuidsOnce(s.board, s.history.orphans)
    ensures BoardSound(After(s, c).board) && UuidsOnce(After(s, c).board, After(s, c).history.orphans)
  {
    if Step(s, c).None? {
      return;
    }
    match c
    case CallCreate(caller, name, source, attached) => CreateIsSound(s, caller, name, source, attached);
    case CallAddVersion(caller, name, source, setActive, attached) =>
      AddVersionIsSound(s, caller, name, source, setActive, attached);
    case CallSetActive(caller, name, key) => SetActiveIsSound(s, caller, name, key);
    case CallRemoveVersion(caller, name, key) => RemoveVersionIsSound(s, caller, name, key);
    case CallDelete(caller, name) => DeleteIsSound(s, caller, name);
    case CallAccept(caller, giver, name, attached) =>
      AcceptancesAreApart(s.board, s.history.orphans, After(s, c).board.acceptances);
    case CallRevoke(caller, giver, name) =>
      AcceptancesAreApart(s.board, s.history.orphans, After(s, c).board.acceptances);
    case CallTransfer(caller, name, newOwner) => TransferIsSound(s, caller, name, newOwner);
    case _ =>
  }
}
