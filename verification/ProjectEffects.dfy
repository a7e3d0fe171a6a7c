/** What each call on the projects does, in its caller's terms: when it is accepted, which code every request
    resolves to afterwards, and who is paid how much. */
module ProjectEffects {
  import opened Options
  import opened Numerals
  import opened Charges
  import opened Indexes
  import opened Purses
  import opened CodeSources
  import opened Projects
  import opened ProjectRegistry
  import opened ProjectLedger

  // ---- prices and names ----

  /** Every byte of a project's id and uuid, of a version's source and of an acceptance's names is charged
      once, on top of a fixed part. */
  lemma PriceLaws(id: string, uuid: string, a: Acceptance)
    ensures ProjectPrice(id, uuid) == (224 + |id| + |uuid|) * 10_000_000_000_000_000_000
    ensures AcceptancePrice(a) == (69 + |a.newOwner| + |a.source| + |a.name|) * 10_000_000_000_000_000_000
  {
  }

  lemma VersionPriceLaws(repo: string, commit: string, url: string, hash: string, target: string)
    ensures VersionPrice(GitHub(repo, commit, None)) == (238 + |repo| + |commit|) * 10_000_000_000_000_000_000
    ensures VersionPrice(WasmUrl(url, hash, None)) == (238 + |url| + |hash|) * 10_000_000_000_000_000_000
    ensures VersionPrice(GitHub(repo, commit, Some(target))) ==
            VersionPrice(GitHub(repo, commit, None)) + |target| * 10_000_000_000_000_000_000
    ensures VersionPrice(WasmUrl(url, hash, Some(target))) ==
            VersionPrice(WasmUrl(url, hash, None)) + |target| * 10_000_000_000_000_000_000
  {
  }

  function SixteenTo(k: nat): (r: nat)
    ensures r >= 1
  {
    if k == 0 then 1 else 16 * SixteenTo(k - 1)
  }

  /** A number that fits its width is printed in exactly that many digits. */
  lemma {:induction false} LowerHexPads(n: nat, width: nat)
    requires 1 <= width && n < SixteenTo(width)
    ensures |LowerHex(n, width)| == width
    decreases width
  {
    if width > 1 {
      assert n / 16 < SixteenTo(width - 1);
      LowerHexPads(n / 16, width - 1);
    } else {
      assert SixteenTo(width) == 16 * SixteenTo(0);
    }
  }

  /** The uuid of the n-th project is a p and n in hex, 16 digits of it while n is a 64-bit number. */
  lemma UuidShape(n: nat, digits: nat)
    requires digits == 16
    ensures |Uuid(n)| >= 17 && Uuid(n)[0] == 'p' && AllHex(Uuid(n)[1..]) && HexValue(Uuid(n)[1..]) == n
    ensures n < SixteenTo(digits) ==> |Uuid(n)| == 17
  {
    LowerHexDenotes(n, digits);
    assert Uuid(n)[1..] == LowerHex(n, digits);
    if n < SixteenTo(digits) {
      LowerHexPads(n, digits);
    }
  }

  // ---- resolve_execution_source ----

  /** A request resolves exactly when the project is there with the version it names, or with the active one
      if it names none; it gets that version's source and the project's uuid. */
  lemma ResolvesExactly(b: Board, id: string, version: Option<string>)
    ensures Resolve(b, id, version).Some? <==>
            && id in b.projects && b.projects[id].uuid in b.versions
            && (version.Some? ==> version.value in b.versions[b.projects[id].uuid])
            && (version.None? ==>
                  b.projects[id].active != [] && b.projects[id].active in b.versions[b.projects[id].uuid])
    ensures Resolve(b, id, version).Some? ==>
              var p, r := b.projects[id], Resolve(b, id, version).value;
              && r.uuid == p.uuid
              && (version.Some? ==> r.source == b.versions[p.uuid][version.value].source)
              && (version.None? ==> r.source == b.versions[p.uuid][p.active].source)
  {
  }

  /** No other project has this one's uuid. */
  ghost predicate OwnUuid(b: Board, id: string) {
    id in b.projects ==>
      forall other :: other in b.projects && other != id ==> b.projects[other].uuid != b.projects[id].uuid
  }

  /** No project has the uuid that is next. */
  ghost predicate NextIsFree(b: Board) {
    forall other :: other in b.projects ==> b.projects[other].uuid != Uuid(b.nextId + 1)
  }

  /** The project's versions are there, the active one among them, and each stands for the code its name says. */
  ghost predicate Filed(b: Board, id: string) {
    id in b.projects ==>
      && b.projects[id].uuid in b.versions && b.projects[id].active in b.versions[b.projects[id].uuid]
      && forall key :: key in b.versions[b.projects[id].uuid] ==>
           key != [] && key == VersionKey(b.versions[b.projects[id].uuid][key].source)
  }

  lemma SoundIsOwn(b: Board, id: string)
    requires UuidsExact(b)
    ensures OwnUuid(b, id)
  {
  }

  lemma SoundIsFiled(b: Board, id: string)
    requires ProjectsSound(b) && VersionsSound(b.versions)
    ensures Filed(b, id)
  {
    if id in b.projects {
      assert ProjectSound(b.versions, id, b.projects[id]);
      var vs := b.versions[b.projects[id].uuid];
      assert EachSound(vs);
      forall key | key in vs
        ensures key != [] && key == VersionKey(vs[key].source)
      {
        assert VersionSound(key, vs[key]);
        VersionKeyNamesTheCode(vs[key].source, vs[key].source);
      }
    }
  }

  lemma SoundLeavesNextFree(b: Board, orphans: map<string, Versions>)
    requires ProjectsSound(b) && UuidsOnce(b, orphans)
    ensures NextIsFree(b)
  {
    NextIsNotIssued(b.nextId);
    forall other | other in b.projects
      ensures b.projects[other].uuid != Uuid(b.nextId + 1)
    {
      assert ProjectSound(b.versions, other, b.projects[other]);
    }
  }

  lemma InvIsFiled(s: State, id: string)
    requires Inv(s)
    ensures OwnUuid(s.board, id) && Filed(s.board, id)
  {
    SoundIsOwn(s.board, id);
    SoundIsFiled(s.board, id);
  }

  lemma InvLeavesNextFree(s: State)
    requires Inv(s)
    ensures NextIsFree(s.board)
  {
    SoundLeavesNextFree(s.board, s.history.orphans);
  }

  /** On every run from a state that satisfies the invariant, as the initial one does, uuids are apart, the next
      one is free, and each name a version is filed under is that of its code: the conditions under which the
      laws below are stated. */
  lemma ReachableIsFiled(s: State, calls: seq<Call>, id: string)
    requires Inv(s)
    ensures var b := Run(s, calls).board;
            OwnUuid(b, id) && NextIsFree(b) && Filed(b, id)
  {
    RunInv(s, calls);
    InvIsFiled(Run(s, calls), id);
    InvLeavesNextFree(Run(s, calls));
  }

  /** A named version that resolves is the code that name stands for. */
  lemma NamedVersionResolves(b: Board, id: string, key: string)
    requires Filed(b, id) && id in b.projects
    ensures var r := Resolve(b, id, Some(key));
            && (r.Some? <==> key in b.versions[b.projects[id].uuid])
            && (r.Some? ==> VersionKey(r.value.source) == key)
  {
  }

  /** Requests to every project but this one resolve as before. */
  ghost predicate OthersResolve(b: Board, t: Board, id: string) {
    forall other, v :: other != id ==> Resolve(t, other, v) == Resolve(b, other, v)
  }

  // ---- create_project ----

  lemma CreateNeeds(s: State, caller: Account, name: string, source: Source, attached: nat)
    ensures Create(s, caller, name, source, attached).Some? <==>
            && !s.paused && 1 <= |name| <= 64
            && (forall i :: 0 <= i < |name| ==> IsAlphanumeric(name[i]) || name[i] == '-' || name[i] == '_')
            && caller + "/" + name !in s.board.projects && WellFormed(source)
            && attached >= CreatePrice(s.board, caller, name, source)
  {
  }

  /** A new project belongs to its caller, under the next uuid, and its one version is active. */
  lemma FoundingFiles(s: State, caller: Account, name: string, source: Source, attached: nat)
    requires attached >= CreatePrice(s.board, caller, name, source)
    ensures var b, t := s.board, Found(s, caller, name, source, attached);
            var id, uuid := caller + "/" + name, Uuid(b.nextId + 1);
            && id in t.board.projects && t.board.projects[id].owner == caller && t.board.projects[id].name == name
            && t.board.projects[id].uuid == uuid && t.board.projects[id].active == VersionKey(source)
            && t.board.projects[id].deposit == ProjectPrice(id, uuid)
            && uuid in t.board.versions
            && t.board.versions[uuid] == map[VersionKey(source) := Version(source, VersionPrice(source))]
            && t.board.projects - {id} == b.projects - {id} && t.board.versions - {uuid} == b.versions - {uuid}
            && t.board.nextId == b.nextId + 1 && t.board.acceptances == b.acceptances
            && id in ItemsOf(t.board.index, caller)
            && Pays(s.purse, t.purse, attached, caller, attached - ProjectPrice(id, uuid) - VersionPrice(source))
            && t.history == s.history && t.priced == s.priced && t.paused == s.paused
  {
    MovePaysOne(s.purse, attached, caller, attached - CreatePrice(s.board, caller, name, source));
  }

  /** After a creation the project runs the source it was created with, and every other one what it ran. */
  lemma CreatedResolves(s: State, caller: Account, name: string, source: Source, attached: nat)
    requires NextIsFree(s.board) && Create(s, caller, name, source, attached).Some?
    ensures var t, id := Create(s, caller, name, source, attached).value.board, caller + "/" + name;
            && Resolve(t, id, None) == Some(Resolved(source, Uuid(s.board.nextId + 1)))
            && Resolve(t, id, Some(VersionKey(source))) == Some(Resolved(source, Uuid(s.board.nextId + 1)))
            && OthersResolve(s.board, t, id)
  {
    var b, t, id := s.board, Create(s, caller, name, source, attached).value.board, caller + "/" + name;
    FoundingFiles(s, caller, name, source, attached);
    VersionKeyNamesTheCode(source, source);
    FiledApart(b, t, id, Uuid(b.nextId + 1));
  }

  /** Filing one id and one uuid that no other project has leaves the others' requests alone. */
  lemma FiledApart(b: Board, t: Board, id: string, uuid: string)
    requires t.projects - {id} == b.projects - {id} && t.versions - {uuid} == b.versions - {uuid}
    requires forall other :: other in b.projects && other != id ==> b.projects[other].uuid != uuid
    ensures OthersResolve(b, t, id)
  {
    forall other, v: Option<string> | other != id
      ensures Resolve(t, other, v) == Resolve(b, other, v)
    {
      assert other in t.projects <==> other in b.projects - {id};
      if other in b.projects {
        assert (t.projects - {id})[other] == (b.projects - {id})[other];
        var of := b.projects[other].uuid;
        assert of in t.versions <==> of in t.versions - {uuid};
        assert of in b.versions <==> of in b.versions - {uuid};
        if of in b.versions {
          assert (t.versions - {uuid})[of] == (b.versions - {uuid})[of];
        }
      }
    }
  }

  // ---- add_version, set_active_version, remove_version ----

  /** A live project's versions and active one are replaced; requests to others resolve as before. */
  lemma EditApart(b: Board, id: string, active: string, vs: Versions)
    requires id in b.projects && OwnUuid(b, id)
    ensures OthersResolve(b, EditAt(b, id, active, vs), id)
  {
    FiledApart(b, EditAt(b, id, active, vs), id, b.projects[id].uuid);
  }

  lemma AddNeeds(s: State, caller: Account, name: string, source: Source, setActive: bool, attached: nat)
    ensures AddVersion(s, caller, name, source, setActive, attached).Some? <==>
            && !s.paused && Owns(s.board, caller, name) && WellFormed(source) && attached >= VersionPrice(source)
            && VersionKey(source) !in s.board.versions[s.board.projects[caller + "/" + name].uuid]
  {
  }

  /** One more version, active exactly when asked; owner, name, uuid and deposits stay. */
  lemma ExtensionFiles(s: State, id: string, caller: Account, source: Source, setActive: bool, attached: nat)
    requires id in s.board.projects && s.board.projects[id].uuid in s.board.versions
    requires attached >= VersionPrice(source)
    ensures var p, t := s.board.projects[id], Extend(s, id, caller, source, setActive, attached);
            && id in t.board.projects
            && t.board.projects[id] == p.(active := if setActive then VersionKey(source) else p.active)
            && p.uuid in t.board.versions
            && t.board.versions[p.uuid] ==
               s.board.versions[p.uuid][VersionKey(source) := Version(source, VersionPrice(source))]
            && t.board.index == s.board.index && t.board.acceptances == s.board.acceptances
            && t.board.nextId == s.board.nextId && t.history == s.history
            && Pays(s.purse, t.purse, attached, caller, attached - VersionPrice(source))
  {
    MovePaysOne(s.purse, attached, caller, attached - VersionPrice(source));
  }

  /** The new version can be named at once; it is what the project runs exactly when it was made active, and
      every other version and every other project runs as before. */
  lemma AddedResolves(s: State, caller: Account, name: string, source: Source, setActive: bool, attached: nat)
    requires OwnUuid(s.board, caller + "/" + name) && Filed(s.board, caller + "/" + name)
    requires AddVersion(s, caller, name, source, setActive, attached).Some?
    ensures var b, id := s.board, caller + "/" + name;
            var t := AddVersion(s, caller, name, source, setActive, attached).value.board;
            var made := Some(Resolved(source, b.projects[id].uuid));
            && Resolve(t, id, Some(VersionKey(source))) == made
            && Resolve(t, id, None) == (if setActive then made else Resolve(b, id, None))
            && (forall v :: v != VersionKey(source) ==> Resolve(t, id, Some(v)) == Resolve(b, id, Some(v)))
            && OthersResolve(b, t, id)
  {
    var b, id := s.board, caller + "/" + name;
    ExtensionFiles(s, id, caller, source, setActive, attached);
    VersionKeyNamesTheCode(source, source);
    EditApart(b, id, if setActive then VersionKey(source) else b.projects[id].active,
              b.versions[b.projects[id].uuid][VersionKey(source) := Version(source, VersionPrice(source))]);
  }

  /** A version made active is what the project runs from then on; what each name stands for stays, and no
      NEAR moves. */
  lemma ActiveIsResolved(s: State, caller: Account, name: string, key: string)
    requires OwnUuid(s.board, caller + "/" + name) && Filed(s.board, caller + "/" + name)
    ensures SetActive(s, caller, name, key).Some? <==>
            Owns(s.board, caller, name) && key in s.board.versions[s.board.projects[caller + "/" + name].uuid]
    ensures SetActive(s, caller, name, key).Some? ==>
              var b, id, t := s.board, caller + "/" + name, SetActive(s, caller, name, key).value;
              && id in t.board.projects && t.board.projects[id] == b.projects[id].(active := key)
              && Resolve(t.board, id, None) == Resolve(b, id, Some(key)) && Resolve(t.board, id, None).Some?
              && (forall v :: Resolve(t.board, id, Some(v)) == Resolve(b, id, Some(v)))
              && OthersResolve(b, t.board, id) && t.purse == s.purse && t.history == s.history
  {
    if SetActive(s, caller, name, key).Some? {
      var b, id := s.board, caller + "/" + name;
      var vs := b.versions[b.projects[id].uuid];
      EditApart(b, id, key, vs);
    }
  }

  lemma RemoveNeeds(s: State, caller: Account, name: string, key: string)
    ensures RemoveVersion(s, caller, name, key).Some? <==>
            && Owns(s.board, caller, name)
            && var p := s.board.projects[caller + "/" + name];
               p.active != key && key in s.board.versions[p.uuid]
  {
  }

  /** A removed version no longer resolves, everything else does as before, and the caller is paid exactly
      the removed version's deposit. */
  lemma RemovedIsUnresolved(s: State, caller: Account, name: string, key: string)
    requires OwnUuid(s.board, caller + "/" + name) && RemoveVersion(s, caller, name, key).Some?
    ensures var b, id, t := s.board, caller + "/" + name, RemoveVersion(s, caller, name, key).value;
            && id in t.board.projects && t.board.projects[id] == b.projects[id]
            && Resolve(t.board, id, Some(key)).None? && Resolve(t.board, id, None) == Resolve(b, id, None)
            && (forall v :: v != key ==> Resolve(t.board, id, Some(v)) == Resolve(b, id, Some(v)))
            && OthersResolve(b, t.board, id) && t.history == s.history
            && Pays(s.purse, t.purse, 0, caller, b.versions[b.projects[id].uuid][key].deposit)
  {
    var b, id := s.board, caller + "/" + name;
    var vs := b.versions[b.projects[id].uuid];
    EditApart(b, id, b.projects[id].active, vs - {key});
    MovePaysOne(s.purse, 0, caller, vs[key].deposit);
  }

  // ---- delete_project ----

  /** Nothing of a deleted project resolves, everything of the others does as before, and the caller is paid
      exactly the project's own deposit. */
  lemma DeletedIsUnresolved(s: State, caller: Account, name: string)
    requires OwnUuid(s.board, caller + "/" + name)
    ensures var id := caller + "/" + name;
            Delete(s, caller, name).Some? <==> id in s.board.projects && s.board.projects[id].owner == caller
    ensures Delete(s, caller, name).Some? ==>
              var b, id, t := s.board, caller + "/" + name, Delete(s, caller, name).value;
              && id !in t.board.projects && b.projects[id].uuid !in t.board.versions
              && id !in ItemsOf(t.board.index, caller)
              && (forall v :: Resolve(t.board, id, v).None?) && OthersResolve(b, t.board, id)
              && t.board.acceptances == b.acceptances && t.board.nextId == b.nextId
              && Pays(s.purse, t.purse, 0, caller, b.projects[id].deposit)
  {
    var b, id := s.board, caller + "/" + name;
    if id in b.projects && b.projects[id].owner == caller {
      FiledApart(b, DeleteAt(b, caller, id), id, b.projects[id].uuid);
      MovePaysOne(s.purse, 0, caller, b.projects[id].deposit);
    }
  }

  // ---- transfer ----

  /** An acceptance is recorded for its caller, from that owner, of that name, at its price; a project of the
      caller's own under the name, or the same acceptance, refuses it. */
  lemma AcceptRecords(s: State, caller: Account, giver: Account, name: string, attached: nat)
    ensures var a := Acceptance(caller, giver, name);
            Accept(s, caller, giver, name, attached).Some? <==>
            && !s.paused && IsProjectName(name) && caller + "/" + name !in s.board.projects
            && a !in s.board.acceptances && attached >= AcceptancePrice(a)
    ensures Accept(s, caller, giver, name, attached).Some? ==>
              var a, t := Acceptance(caller, giver, name), Accept(s, caller, giver, name, attached).value;
              && a in t.board.acceptances && t.board.acceptances[a] == AcceptancePrice(a)
              && t.board.acceptances - {a} == s.board.acceptances
              && t.board.projects == s.board.projects && t.board.versions == s.board.versions
              && t.board.index == s.board.index
              && Pays(s.purse, t.purse, attached, caller, attached - AcceptancePrice(a))
  {
    var a := Acceptance(caller, giver, name);
    if Accept(s, caller, giver, name, attached).Some? {
      MovePaysOne(s.purse, attached, caller, attached - AcceptancePrice(a));
    }
  }

  /** Only who accepted takes it back, and is paid exactly what was held for it. */
  lemma RevokeForgets(s: State, caller: Account, giver: Account, name: string)
    ensures var a := Acceptance(caller, giver, name);
            Revoke(s, caller, giver, name).Some? <==> a in s.board.acceptances
    ensures Revoke(s, caller, giver, name).Some? ==>
              var a, t := Acceptance(caller, giver, name), Revoke(s, caller, giver, name).value;
              && t.board == s.board.(acceptances := s.board.acceptances - {a})
              && Pays(s.purse, t.purse, 0, caller, s.board.acceptances[a])
  {
    var a := Acceptance(caller, giver, name);
    if a in s.board.acceptances {
      MovePaysOne(s.purse, 0, caller, s.board.acceptances[a]);
    }
  }

  lemma TransferNeeds(s: State, caller: Account, name: string, newOwner: Account)
    ensures var gone, id := caller + "/" + name, newOwner + "/" + name;
            Transfer(s, caller, name, newOwner).Some? <==>
            && gone !in s.priced && Acceptance(newOwner, caller, name) in s.board.acceptances
            && gone in s.board.projects && s.board.projects[gone].owner == caller
            && (id in s.board.projects ==> id == gone)
  {
  }

  /** A transfer moves the project to its new owner's name and changes nothing else of it: versions, active
      version, uuid and deposit stay. The acceptance is used up and its deposit goes to the new owner. */
  lemma TransferMoves(s: State, caller: Account, name: string, newOwner: Account)
    requires Transfer(s, caller, name, newOwner).Some?
    ensures var b, gone, id := s.board, caller + "/" + name, newOwner + "/" + name;
            var a, t := Acceptance(newOwner, caller, name), Transfer(s, caller, name, newOwner).value;
            && id in t.board.projects && t.board.projects[id] == b.projects[gone].(owner := newOwner)
            && (gone != id ==> gone !in t.board.projects)
            && t.board.projects - {gone, id} == b.projects - {gone, id} && t.board.versions == b.versions
            && t.board.acceptances == b.acceptances - {a} && id in ItemsOf(t.board.index, newOwner)
            && Pays(s.purse, t.purse, 0, newOwner, b.acceptances[a])
  {
    MovePaysOne(s.purse, 0, newOwner, s.board.acceptances[Acceptance(newOwner, caller, name)]);
  }

  /** Under its new name a project resolves, version by version, to what it did under the old one; the old
      name resolves to nothing and every other project as before. */
  lemma TransferredResolves(s: State, caller: Account, name: string, newOwner: Account, v: Option<string>,
                            other: string)
    requires Transfer(s, caller, name, newOwner).Some?
    ensures var b, gone, id := s.board, caller + "/" + name, newOwner + "/" + name;
            var t := Transfer(s, caller, name, newOwner).value.board;
            && Resolve(t, id, v) == Resolve(b, gone, v) && (gone != id ==> Resolve(t, gone, v).None?)
            && (other != gone && other != id ==> Resolve(t, other, v) == Resolve(b, other, v))
  {
    var b, gone, id := s.board, caller + "/" + name, newOwner + "/" + name;
    var t := Transfer(s, caller, name, newOwner).value.board;
    TransferMoves(s, caller, name, newOwner);
    if other != gone && other != id {
      assert other in t.projects <==> other in t.projects - {gone, id};
      assert other in b.projects <==> other in b.projects - {gone, id};
      if other in b.projects {
        assert (t.projects - {gone, id})[other] == (b.projects - {gone, id})[other];
      }
    }
  }
}
