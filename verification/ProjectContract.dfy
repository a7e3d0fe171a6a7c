/** The part of the contract object that keeps projects, each method proved against the state machine of
    module `Projects`. A call that panics answers `false` and changes nothing. */
module ProjectContract {
  import opened Options
  import opened Charges
  import opened Indexes
  import opened Purses
  import opened CodeSources
  import opened Projects

  class ProjectBoard {
    var paused: bool
    var priced: set<string>
    var projects: map<string, Project>
    var versions: map<string, Versions>
    var index: Index<string>
    var acceptances: map<Acceptance, nat>
    var nextId: nat

    // transfers, acceptances and what deleted projects left behind, for the proofs
    ghost var purse: Purse
    ghost var history: History

    ghost function BoardView(): Board
      reads this
    {
      Board(projects, versions, index, acceptances, nextId)
    }

    ghost function View(): State
      reads this
    {
      State(paused, priced, BoardView(), purse, history)
    }

    constructor ()
      ensures View() == Init()
    {
      paused, priced, nextId := false, {}, 0;
      projects, versions, index, acceptances := map[], map[], map[], map[];
      purse, history := Purse(0, map[]), History(map[], multiset{});
    }

    method Note(e: Event)
      modifies this`history
      ensures history == old(history).(events := old(history).events + multiset{e})
    {
      history := history.(events := history.events + multiset{e});
    }

    method FileProject(caller: Account, name: string, source: Source)
      modifies this`projects, this`versions, this`index, this`nextId
      ensures BoardView() == CreateAt(old(BoardView()), caller, name, source)
    {
      var id := ProjectId(caller, name);
      nextId := nextId + 1;
      var uuid := Uuid(nextId);
      var key := VersionKey(source);
      projects := projects[id := Project(uuid, caller, name, key, ProjectPrice(id, uuid), caller)];
      versions := versions[uuid := map[key := Version(source, VersionPrice(source))]];
      index := Added(index, caller, id);
    }

    /** Charge for the project and its first version, file both, repay what is over. */
    method FoundProject(caller: Account, name: string, source: Source, attached: nat) returns (ok: bool)
      modifies this`projects, this`versions, this`index, this`nextId, this`purse
      ensures ok == (attached >= CreatePrice(old(BoardView()), caller, name, source))
      ensures View() == if ok then Found(old(View()), caller, name, source, attached) else old(View())
    {
      var price := ProjectPrice(ProjectId(caller, name), Uuid(nextId + 1)) + VersionPrice(source);
      if attached < price {
        return false;
      }
      FileProject(caller, name, source);
      purse := Move(purse, attached, caller, attached - price);
      ok := true;
    }

    method CreateProject(caller: Account, name: string, source: Source, attached: nat) returns (ok: bool)
      modifies this`projects, this`versions, this`index, this`nextId, this`purse
      ensures Did(ok, old(View()), Create(old(View()), caller, name, source, attached), View())
    {
      var id := ProjectId(caller, name);
      if paused || !IsProjectName(name) || id in projects || !WellFormed(source) {
        return false;
      }
      ok := FoundProject(caller, name, source, attached);
    }

    /** Write a live project's versions back and, if asked to, its active version. */
    method WriteVersions(id: string, active: string, vs: Versions)
      requires id in projects
      modifies this`projects, this`versions
      ensures BoardView() == EditAt(old(BoardView()), id, active, vs)
    {
      versions := versions[projects[id].uuid := vs];
      projects := projects[id := projects[id].(active := active)];
    }

    method AddVersion(caller: Account, name: string, source: Source, setActive: bool, attached: nat)
      returns (ok: bool)
      modifies this`projects, this`versions, this`purse
      ensures Did(ok, old(View()), Projects.AddVersion(old(View()), caller, name, source, setActive, attached), View())
    {
      var id, key := ProjectId(caller, name), VersionKey(source);
      if paused || id !in projects || projects[id].owner != caller || !WellFormed(source) {
        return false;
      }
      var project, price := projects[id], VersionPrice(source);
      if attached < price || project.uuid !in versions || key in versions[project.uuid] {
        return false;
      }
      var active := if setActive then key else project.active;
      WriteVersions(id, active, versions[project.uuid][key := Version(source, price)]);
      purse := Move(purse, attached, caller, attached - price);
      ok := true;
    }

    method SetActiveVersion(caller: Account, name: string, key: string) returns (ok: bool)
      modifies this`projects, this`versions
      ensures Did(ok, old(View()), SetActive(old(View()), caller, name, key), View())
    {
      var id := ProjectId(caller, name);
      if id !in projects || projects[id].owner != caller || projects[id].uuid !in versions {
        return false;
      }
      if key !in versions[projects[id].uuid] {
        return false;
      }
      WriteVersions(id, key, versions[projects[id].uuid]);
      ok := true;
    }

    method RemoveVersion(caller: Account, name: string, key: string) returns (ok: bool)
      modifies this`projects, this`versions, this`purse
      ensures Did(ok, old(View()), Projects.RemoveVersion(old(View()), caller, name, key), View())
    {
      var id := ProjectId(caller, name);
      if id !in projects || projects[id].owner != caller || projects[id].active == key {
        return false;
      }
      var project := projects[id];
      if project.uuid !in versions || key !in versions[project.uuid] {
        return false;
      }
      var vs := versions[project.uuid];
      WriteVersions(id, project.active, vs - {key});
      purse := Move(purse, 0, caller, vs[key].deposit);
      ok := true;
    }

    method DeleteProject(caller: Account, name: string) returns (ok: bool)
      modifies this`projects, this`versions, this`index, this`purse, this`history
      ensures Did(ok, old(View()), Delete(old(View()), caller, name), View())
    {
      var id := ProjectId(caller, name);
      if id !in projects || projects[id].owner != caller {
        return false;
      }
      var project := projects[id];
      projects := projects - {id};
      if project.uuid in versions {
        history := history.(orphans := history.orphans[project.uuid := versions[project.uuid]]);
      }
      versions := versions - {project.uuid};
      index := Removed(index, caller, id);
      purse := Move(purse, 0, caller, project.deposit);
      ok := true;
    }

    method AcceptProjectTransfer(caller: Account, giver: Account, name: string, attached: nat) returns (ok: bool)
      modifies this`acceptances, this`purse, this`history
      ensures Did(ok, old(View()), Accept(old(View()), caller, giver, name, attached), View())
    {
      var a := Acceptance(caller, giver, name);
      if paused || !IsProjectName(name) || ProjectId(caller, name) in projects || a in acceptances {
        return false;
      }
      var price := AcceptancePrice(a);
      if attached < price {
        return false;
      }
      acceptances := acceptances[a := price];
      purse := Move(purse, attached, caller, attached - price);
      Note(Accepted(a));
      ok := true;
    }

    method RevokeProjectTransfer(caller: Account, giver: Account, name: string) returns (ok: bool)
      modifies this`acceptances, this`purse, this`history
      ensures Did(ok, old(View()), Revoke(old(View()), caller, giver, name), View())
    {
      var a := Acceptance(caller, giver, name);
      if a !in acceptances {
        return false;
      }
      var deposit := acceptances[a];
      acceptances := acceptances - {a};
      purse := Move(purse, 0, caller, deposit);
      Note(Revoked(a));
      ok := true;
    }

    /** Move the project to its new id, the index with it, and use the acceptance up. */
    method MoveProject(a: Acceptance)
      requires ProjectId(a.source, a.name) in projects
      modifies this`projects, this`index, this`acceptances
      ensures BoardView() == TransferAt(old(BoardView()), a)
    {
      var gone, id := ProjectId(a.source, a.name), ProjectId(a.newOwner, a.name);
      var project := projects[gone];
      acceptances := acceptances - {a};
      projects := projects - {gone};
      projects := projects[id := project.(owner := a.newOwner)];
      index := Removed(index, a.source, gone);
      index := Added(index, a.newOwner, id);
    }

    method TransferProject(caller: Account, name: string, newOwner: Account) returns (ok: bool)
      modifies this`projects, this`index, this`acceptances, this`purse, this`history
      ensures Did(ok, old(View()), Transfer(old(View()), caller, name, newOwner), View())
    {
      var gone, id := ProjectId(caller, name), ProjectId(newOwner, name);
      var a := Acceptance(newOwner, caller, name);
      if gone in priced || a !in acceptances || gone !in projects || projects[gone].owner != caller {
        return false;
      }
      if id in projects && id != gone {
        return false;
      }
      var deposit := acceptances[a];
      MoveProject(a);
      purse := Move(purse, 0, newOwner, deposit);
      Note(Transferred(a));
      ok := true;
    }
  }
}
