/**
 The objects behind the Skirmish AI lifecycle: CSkirmishAIHandler, CSkirmishAIWrapper and
 CEngineOutHandler, each method tied to the function that says what it does. The source reaches
 the handler, the engine and the library manager as globals; here the engine is passed along.
 */
module EngineOut {
  import opened KeySelection
  import opened Libraries
  import opened Instances
  import opened Wrappers

  class CSkirmishAIHandler {
    const aiInstanceData: array<Option<AIData>>
    const aiKillFlags: array<int>

    ghost predicate Valid() {
      aiInstanceData.Length == MAX_AIS && aiKillFlags.Length == MAX_AIS
    }

    constructor ()
      ensures Valid() && fresh(aiInstanceData) && fresh(aiKillFlags)
      ensures forall id :: 0 <= id < MAX_AIS ==> aiInstanceData[id] == None && aiKillFlags[id] == -1
    {
      aiInstanceData := new Option<AIData>[MAX_AIS](_ => None);
      aiKillFlags := new int[MAX_AIS](_ => -1);
    }

    method AddSkirmishAI(data: AIData, id: nat) returns (added: bool)
      requires Valid() && id < MAX_AIS
      modifies aiInstanceData
      ensures added <==> old(aiInstanceData[id]).None?
      ensures aiInstanceData[..] == if added then old(aiInstanceData[..])[id := Some(data)] else old(aiInstanceData[..])
    {
      if aiInstanceData[id].Some? {
        return false;
      }
      aiInstanceData[id] := Some(data);
      return true;
    }

    method RemoveSkirmishAI(id: nat) returns (removed: bool)
      requires Valid() && id < MAX_AIS
      modifies aiInstanceData, aiKillFlags
      ensures removed <==> old(aiInstanceData[id]).Some?
      ensures aiInstanceData[..] == old(aiInstanceData[..])[id := None]
      ensures aiKillFlags[..] == if removed then old(aiKillFlags[..])[id := -1] else old(aiKillFlags[..])
    {
      if aiInstanceData[id].None? {
        return false;
      }
      aiKillFlags[id] := -1;
      aiInstanceData[id] := None;
      return true;
    }

    method SetLocalKillFlag(eoh: CEngineOutHandler, id: nat, reason: int)
      requires Valid() && eoh.Wired() && eoh.handler == this && id < MAX_AIS && aiInstanceData[id].Some?
      modifies aiKillFlags, eoh.hostSkirmishAIs[id]
      ensures aiKillFlags[..] == old(aiKillFlags[..])[id := reason]
      ensures eoh.hostSkirmishAIs[id].Value()
        == if aiInstanceData[id].value.isLua then old(eoh.hostSkirmishAIs[id].Value())
           else Blocked(old(eoh.hostSkirmishAIs[id].Value()), reason)
    {
      aiKillFlags[id] := reason;
      if !aiInstanceData[id].value.isLua {
        eoh.BlockSkirmishAIEvents(id, reason);
      }
    }
  }

  class CSkirmishAIWrapper {
    /** Its place in the array of the engine. */
    ghost const index: nat
    var skirmishAIId: int
    var teamId: int
    var key: Key
    var library: Option<Library>
    var libraryInit: bool
    var initialized: bool
    var released: bool
    var blockEvents: bool
    ghost var trace: seq<Event>

    ghost function Value(): Wrapper
      reads this
    {
      Wrapper(skirmishAIId, teamId, key, library, libraryInit, initialized, released, blockEvents, trace)
    }

    constructor (ghost index: nat)
      ensures Value() == UNUSED && this.index == index
    {
      this.index := index;
      skirmishAIId, teamId, key, library := -1, -1, UNSPECIFIED, None;
      libraryInit, initialized, released, blockEvents, trace := false, false, false, false, [];
    }

    method PreInit(id: int, team: int, resolved: Key)
      modifies this
      ensures Value() == PreInited(id, team, resolved)
    {
      key := resolved;
      skirmishAIId, teamId := id, team;
      initialized, released, libraryInit, blockEvents := false, false, false, false;
      library := None;
      trace := [];
    }

    /** The foreign function behind a non-null library pointer answers `answer`. */
    method HandleEvent(ghost e: Event, isRelease: bool, answer: int) returns (error: int)
      requires isRelease <==> e.ReleaseEvent?
      requires !blockEvents || isRelease ==> library.Some?
      modifies this`trace
      ensures Value() == Handled(old(Value()), e)
      ensures error == if !blockEvents || isRelease then (if library.value.empty then 0 else answer) else 0
    {
      error := 0;
      if !blockEvents || isRelease {
        trace := trace + [e];
        if !library.value.empty {
          error := answer;
        }
      }
    }

    method Adopt(fetched: Option<Library>, initOk: bool)
      modifies this
      ensures Value() == Adopted(old(Value()), fetched, initOk)
    {
      library := fetched;
      if library.Some? {
        libraryInit := library.value.empty || initOk;
        trace := trace + [LibraryInit(libraryInit)];
      }
    }

    /** Fetch the library and have it initialise the AI. */
    method TryLibrary(eoh: CEngineOutHandler, a: Answers)
      requires eoh.Ready(this) && eoh.libs.Value().Consistent()
      modifies this, eoh.libs, eoh.libs.owned
      ensures eoh.Wired() && fresh(eoh.libs.owned - old(eoh.libs.owned))
      ensures eoh.libs.Value() == old(eoh.libs.Value()).Fetched(old(key), a.interfaceStarts, a.libraryFound)
      ensures Value() == Adopted(old(Value()), eoh.libs.Value().Pointer(old(key)), a.initOk)
    {
      var fetched := eoh.libs.FetchSkirmishAILibrary(key, a.interfaceStarts, a.libraryFound);
      Adopt(fetched, a.initOk);
    }

    method Judge(eoh: CEngineOutHandler, ghost libs: Manager) returns (ok: bool)
      requires eoh.Ready(this)
      modifies this, eoh.handler.aiKillFlags
      ensures eoh.Local(libs, old(skirmishAIId)) == Judged(old(eoh.Local(libs, skirmishAIId)))
      ensures eoh.OnlyFlag(old(skirmishAIId), old(eoh.handler.aiKillFlags[..]))
      ensures ok <==> eoh.handler.aiKillFlags[old(skirmishAIId)] == -1
    {
      if library.None? || !libraryInit {
        eoh.handler.SetLocalKillFlag(eoh, skirmishAIId, INIT_FAILED);
      }
      if eoh.handler.aiKillFlags[skirmishAIId] != -1 {
        blockEvents := true;
        return false;
      }
      return true;
    }

    method InitLibrary(eoh: CEngineOutHandler, a: Answers) returns (ok: bool)
      requires eoh.Ready(this) && eoh.libs.Value().Consistent()
      modifies this, eoh.handler.aiKillFlags, eoh.libs, eoh.libs.owned
      ensures eoh.Wired() && fresh(eoh.libs.owned - old(eoh.libs.owned))
      ensures eoh.Local(eoh.libs.Value(), old(skirmishAIId))
        == LibraryInited(old(eoh.Local(eoh.libs.Value(), skirmishAIId)), a)
      ensures eoh.OnlyFlag(old(skirmishAIId), old(eoh.handler.aiKillFlags[..]))
      ensures ok <==> eoh.handler.aiKillFlags[old(skirmishAIId)] == -1
      ensures ok ==> eoh.Ready(this) && skirmishAIId == old(skirmishAIId) && library.Some?
    {
      TryLibrary(eoh, a);
      ok := Judge(eoh, eoh.libs.Value());
    }

    method SendInitEvent(eoh: CEngineOutHandler, ghost libs: Manager, a: Answers)
      requires eoh.Ready(this) && library.Some?
      modifies this, eoh.handler.aiKillFlags
      ensures eoh.Local(libs, old(skirmishAIId)) == InitEventSent(old(eoh.Local(libs, skirmishAIId)), a)
      ensures eoh.OnlyFlag(old(skirmishAIId), old(eoh.handler.aiKillFlags[..]))
    {
      ghost var expected := if blockEvents || library.value.empty then 0 else a.initError;
      var error := HandleEvent(InitEvent(expected), false, a.initError);
      if error == 0 {
        initialized := true;
        return;
      }
      eoh.handler.SetLocalKillFlag(eoh, skirmishAIId, INIT_FAILED);
    }

    method Init(eoh: CEngineOutHandler, a: Answers)
      requires eoh.Ready(this) && eoh.libs.Value().Consistent()
      modifies this, eoh.handler.aiKillFlags, eoh.libs, eoh.libs.owned
      ensures eoh.Wired() && fresh(eoh.libs.owned - old(eoh.libs.owned))
      ensures eoh.Local(eoh.libs.Value(), old(skirmishAIId))
        == Inited(old(eoh.Local(eoh.libs.Value(), skirmishAIId)), a)
      ensures eoh.OnlyFlag(old(skirmishAIId), old(eoh.handler.aiKillFlags[..]))
    {
      var ok := InitLibrary(eoh, a);
      if !ok {
        return;
      }
      SendInitEvent(eoh, eoh.libs.Value(), a);
    }

    /** Ordinary events, one after the other. */
    method SendEvents(times: nat)
      requires !blockEvents ==> library.Some?
      modifies this`trace
      ensures Value() == Notified(old(Value()), times)
    {
      var n := 0;
      while n < times
        invariant n <= times && Value() == Notified(old(Value()), n)
        invariant !blockEvents ==> library.Some?
      {
        var error := HandleEvent(Ordinary, false, 0);
        n := n + 1;
      }
    }

    method Release(reason: int)
      requires initialized ==> library.Some?
      modifies this
      ensures Value() == ReleaseSent(old(Value()), reason)
    {
      if !initialized || released {
        return;
      }
      var error := HandleEvent(ReleaseEvent(reason), true, 0);
      released := true;
    }

    method SignOff(reason: int)
      requires initialized || libraryInit ==> library.Some?
      modifies this
      ensures Value() == SignedOff(old(Value()), reason)
    {
      Release(reason);
      if libraryInit {
        trace := trace + [LibraryRelease];
      }
    }

    /** The end of Kill. */
    method Deactivate()
      modifies this
      ensures Value() == Deactivated(old(Value()))
    {
      library := None;
      skirmishAIId := -1;
      teamId := -1;
    }

    method Kill(eoh: CEngineOutHandler, interfaceStarts: bool)
      requires eoh.Ready(this) && eoh.libs.Value().Consistent()
      requires initialized || libraryInit ==> library.Some?
      modifies this, eoh.libs, eoh.libs.owned
      ensures eoh.Wired() && fresh(eoh.libs.owned - old(eoh.libs.owned))
      ensures eoh.Local(eoh.libs.Value(), old(skirmishAIId))
        == Killed(old(eoh.Local(eoh.libs.Value(), skirmishAIId)), interfaceStarts)
    {
      ghost var l := eoh.Local(eoh.libs.Value(), skirmishAIId);
      SignOff(eoh.handler.aiKillFlags[skirmishAIId]);
      assert Value() == SignedOff(l.host, l.flag) && eoh.libs.Value() == l.libs;
      LeaveLibrary(eoh, interfaceStarts);
    }

    /** The rest of Kill. */
    method LeaveLibrary(eoh: CEngineOutHandler, interfaceStarts: bool)
      requires eoh.Ready(this) && eoh.libs.Value().Consistent()
      modifies this, eoh.libs, eoh.libs.owned
      ensures eoh.Wired() && fresh(eoh.libs.owned - old(eoh.libs.owned))
      ensures eoh.libs.Value() == old(eoh.libs.Value()).Released(old(key), interfaceStarts)
      ensures Value() == Deactivated(old(Value()))
    {
      eoh.libs.ReleaseSkirmishAILibrary(key, interfaceStarts);
      Deactivate();
    }
  }

  class CEngineOutHandler {
    const handler: CSkirmishAIHandler
    const libs: AILibraryManager
    const hostSkirmishAIs: seq<CSkirmishAIWrapper>
    const teamSkirmishAIs: array<seq<nat>>
    var activeSkirmishAIs: seq<nat>

    ghost predicate Wired()
      reads libs, libs.owned
    {
      && handler.Valid()
      && libs.Valid()
      && teamSkirmishAIs.Length == MAX_TEAMS
      && |hostSkirmishAIs| == MAX_AIS
      && forall i :: 0 <= i < MAX_AIS ==> hostSkirmishAIs[i].index == i
    }

    constructor (libs: AILibraryManager)
      requires libs.Valid()
      ensures Wired() && this.libs == libs && Shows(NewEngine(libs.Value()))
    {
      var hosts: seq<CSkirmishAIWrapper> := [];
      while |hosts| < MAX_AIS
        invariant |hosts| <= MAX_AIS
        invariant forall i :: 0 <= i < |hosts| ==>
          fresh(hosts[i]) && hosts[i].Value() == UNUSED && hosts[i].index == i
      {
        var host := new CSkirmishAIWrapper(|hosts|);
        hosts := hosts + [host];
      }
      hostSkirmishAIs := hosts;
      handler := new CSkirmishAIHandler();
      this.libs := libs;
      teamSkirmishAIs := new seq<nat>[MAX_TEAMS](_ => []);
      activeSkirmishAIs := [];
    }

    /** The engine whose state these objects are in. */
    ghost predicate Shows(e: Engine)
      requires Wired()
      reads this, libs, libs.owned, hostSkirmishAIs
      reads handler.aiInstanceData, handler.aiKillFlags, teamSkirmishAIs
    {
      && e.libs == libs.Value()
      && e.data == handler.aiInstanceData[..]
      && e.flags == handler.aiKillFlags[..]
      && e.teams == teamSkirmishAIs[..]
      && e.active == activeSkirmishAIs
      && |e.hosts| == MAX_AIS
      && forall i :: 0 <= i < MAX_AIS ==> e.hosts[i] == hostSkirmishAIs[i].Value()
    }

    /** What one wrapper and its flag look like. */
    ghost function Local(m: Manager, id: int): Local
      requires handler.Valid() && |hostSkirmishAIs| == MAX_AIS && 0 <= id < MAX_AIS
      reads hostSkirmishAIs[id], handler.aiKillFlags
    {
      Instances.Local(m, hostSkirmishAIs[id].Value(), handler.aiKillFlags[id])
    }

    /** The wrapper of an AI that is about to call its library. */
    ghost predicate Ready(w: CSkirmishAIWrapper)
      reads w, libs, libs.owned, handler.aiInstanceData
    {
      && Wired()
      && 0 <= w.skirmishAIId < MAX_AIS
      && hostSkirmishAIs[w.skirmishAIId] == w
      && handler.aiInstanceData[w.skirmishAIId].Some?
      && !handler.aiInstanceData[w.skirmishAIId].value.isLua
    }

    ghost predicate OnlyFlag(id: int, before: seq<int>)
      requires handler.Valid()
      reads handler.aiKillFlags
    {
      && 0 <= id < |before| && |before| == MAX_AIS
      && handler.aiKillFlags[..] == before[id := handler.aiKillFlags[id]]
    }

    method BlockSkirmishAIEvents(id: nat, ghost reason: int)
      requires Wired() && id < MAX_AIS
      modifies hostSkirmishAIs[id]
      ensures hostSkirmishAIs[id].Value()
        == Blocked(old(hostSkirmishAIs[id].Value()), reason)
    {
      hostSkirmishAIs[id].blockEvents := true;
      hostSkirmishAIs[id].trace := hostSkirmishAIs[id].trace + [Flagged(reason)];
    }

    /** Init, and what CreateSkirmishAI does after it: the first update and the unit events. */
    method Start(id: nat, a: Answers)
      requires |hostSkirmishAIs| == MAX_AIS && id < MAX_AIS && Ready(hostSkirmishAIs[id]) && libs.Value().Consistent()
      requires hostSkirmishAIs[id].Value() == PreInited(id, hostSkirmishAIs[id].teamId, a.key)
      modifies hostSkirmishAIs[id], handler.aiKillFlags, libs, libs.owned
      ensures Wired() && fresh(libs.owned - old(libs.owned))
      ensures Local(libs.Value(), id) == Started(old(Local(libs.Value(), id)), a)
      ensures OnlyFlag(id, old(handler.aiKillFlags[..]))
    {
      ghost var l := Local(libs.Value(), id);
      InitedIsLive(l, a);
      hostSkirmishAIs[id].Init(this, a);
      assert Local(libs.Value(), id) == Inited(l, a);
      if handler.aiKillFlags[id] != -1 {
        return;
      }
      hostSkirmishAIs[id].SendEvents(a.ordinary);
    }

    method Enlist(id: nat, team: nat)
      requires teamSkirmishAIs.Length == MAX_TEAMS && team < MAX_TEAMS
      modifies this, teamSkirmishAIs
      ensures teamSkirmishAIs[..] == old(teamSkirmishAIs[..])[team := old(teamSkirmishAIs[team]) + [id]]
      ensures activeSkirmishAIs == old(activeSkirmishAIs) + [id]
    {
      teamSkirmishAIs[team] := teamSkirmishAIs[team] + [id];
      activeSkirmishAIs := activeSkirmishAIs + [id];
    }

    /** PreInit and the two lists. */
    method Register(id: nat, team: nat, key: Key)
      requires Wired() && id < MAX_AIS && team < MAX_TEAMS
      modifies this, hostSkirmishAIs[id], teamSkirmishAIs
      ensures Wired()
      ensures hostSkirmishAIs[id].Value() == PreInited(id, team, key)
      ensures teamSkirmishAIs[..] == old(teamSkirmishAIs[..])[team := old(teamSkirmishAIs[team]) + [id]]
      ensures activeSkirmishAIs == old(activeSkirmishAIs) + [id]
    {
      hostSkirmishAIs[id].PreInit(id, team, key);
      Enlist(id, team);
    }

    method Install(id: nat, team: nat, a: Answers)
      requires Wired() && libs.Value().Consistent() && id < MAX_AIS && team < MAX_TEAMS
      requires handler.aiInstanceData[id] == Some(AIData(team, false))
      modifies this, hostSkirmishAIs[id], handler.aiKillFlags, libs, libs.owned, teamSkirmishAIs
      ensures Wired() && fresh(libs.owned - old(libs.owned))
      ensures Local(libs.Value(), id) == Started(old(Local(libs.Value(), id)).(host := PreInited(id, team, a.key)), a)
      ensures OnlyFlag(id, old(handler.aiKillFlags[..]))
      ensures teamSkirmishAIs[..] == old(teamSkirmishAIs[..])[team := old(teamSkirmishAIs[team]) + [id]]
      ensures activeSkirmishAIs == old(activeSkirmishAIs) + [id]
    {
      ghost var l := Local(libs.Value(), id).(host := PreInited(id, team, a.key));
      Register(id, team, a.key);
      assert Local(libs.Value(), id) == l;
      Start(id, a);
    }

    method CreateSkirmishAI(ghost e: Engine, id: nat, a: Answers)
      requires Wired() && Shows(e) && e.libs.Consistent() && id < MAX_AIS
      requires e.data[id].Some? && e.data[id].value.team < MAX_TEAMS
      modifies this, hostSkirmishAIs[id], handler.aiKillFlags, libs, libs.owned, teamSkirmishAIs
      ensures Wired() && fresh(libs.owned - old(libs.owned))
      ensures Shows(Created(e, id, a))
    {
      var data := handler.aiInstanceData[id].value;
      if data.isLua {
        return;
      }
      Install(id, data.team, a);
    }

    /** An ordinary event for one AI, whatever it answers. */
    method SendEvent(ghost e: Engine, id: nat, answer: int)
      requires Wired() && Shows(e) && id < MAX_AIS
      requires !e.hosts[id].blocked ==> e.hosts[id].library.Some?
      modifies hostSkirmishAIs[id]
      ensures Wired() && Shows(EventSent(e, id))
    {
      var error := hostSkirmishAIs[id].HandleEvent(Ordinary, false, answer);
    }

    method Find(s: seq<nat>, x: nat) returns (i: nat)
      ensures i <= |s| && x !in s[..i] && (i < |s| ==> s[i] == x)
    {
      i := 0;
      while i < |s| && s[i] != x
        invariant i <= |s| && x !in s[..i]
      {
        i := i + 1;
      }
    }

    /** Both lists are searched before either is changed. */
    method Delist(id: nat, team: nat)
      requires teamSkirmishAIs.Length == MAX_TEAMS && team < MAX_TEAMS
      requires id in teamSkirmishAIs[team] && id in activeSkirmishAIs
      modifies this, teamSkirmishAIs
      ensures teamSkirmishAIs[..] == old(teamSkirmishAIs[..])[team := Erase(old(teamSkirmishAIs[team]), id)]
      ensures activeSkirmishAIs == Erase(old(activeSkirmishAIs), id)
    {
      var it := Find(teamSkirmishAIs[team], id);
      var jt := Find(activeSkirmishAIs, id);
      if it < |teamSkirmishAIs[team]| && jt < |activeSkirmishAIs| {
        EraseAt(teamSkirmishAIs[team], it);
        EraseAt(activeSkirmishAIs, jt);
        teamSkirmishAIs[team] := teamSkirmishAIs[team][..it] + teamSkirmishAIs[team][it + 1..];
        activeSkirmishAIs := activeSkirmishAIs[..jt] + activeSkirmishAIs[jt + 1..];
      } else {
        assert false;
      }
    }

    /** In a sound engine the team is in range exactly for a live AI; the list of a dead one would be looked up at
        index -1, where the model stops. */
    method DestroySkirmishAI(ghost e: Engine, id: nat, interfaceStarts: bool) returns (inRange: bool)
      requires Wired() && Shows(e) && e.libs.Consistent() && id < MAX_AIS
      requires 0 <= e.hosts[id].team < MAX_TEAMS ==> CanDestroy(e, id)
      modifies this, hostSkirmishAIs[id], libs, libs.owned, teamSkirmishAIs
      ensures Wired() && fresh(libs.owned - old(libs.owned))
      ensures inRange <==> 0 <= e.hosts[id].team < MAX_TEAMS
      ensures Shows(if inRange then Destroyed(e, id, interfaceStarts) else e)
    {
      var teamID := hostSkirmishAIs[id].teamId;
      if !(0 <= teamID < MAX_TEAMS) {
        return false;
      }
      DestroyListed(e, id, interfaceStarts);
      return true;
    }

    method DestroyListed(ghost e: Engine, id: nat, interfaceStarts: bool)
      requires Wired() && Shows(e) && e.libs.Consistent() && CanDestroy(e, id)
      modifies this, hostSkirmishAIs[id], libs, libs.owned, teamSkirmishAIs
      ensures Wired() && fresh(libs.owned - old(libs.owned))
      ensures Shows(Destroyed(e, id, interfaceStarts))
    {
      Uninstall(id, hostSkirmishAIs[id].teamId, interfaceStarts);
    }

    method Uninstall(id: nat, team: nat, interfaceStarts: bool)
      requires |hostSkirmishAIs| == MAX_AIS && id < MAX_AIS && Ready(hostSkirmishAIs[id]) && libs.Value().Consistent()
      requires hostSkirmishAIs[id].skirmishAIId == id
      requires var w := hostSkirmishAIs[id]; w.initialized || w.libraryInit ==> w.library.Some?
      requires team < MAX_TEAMS && id in teamSkirmishAIs[team] && id in activeSkirmishAIs
      modifies this, hostSkirmishAIs[id], libs, libs.owned, teamSkirmishAIs
      ensures Wired() && fresh(libs.owned - old(libs.owned))
      ensures Local(libs.Value(), id) == Killed(old(Local(libs.Value(), id)), interfaceStarts)
      ensures teamSkirmishAIs[..] == old(teamSkirmishAIs[..])[team := Erase(old(teamSkirmishAIs[team]), id)]
      ensures activeSkirmishAIs == Erase(old(activeSkirmishAIs), id)
    {
      Delist(id, team);
      hostSkirmishAIs[id].Kill(this, interfaceStarts);
    }

    /** One round of the drain loop. */
    method DestroyLast(ghost e: Engine, ghost next: Engine, starts: nat -> bool)
      requires Wired() && Shows(e) && DestroysLast(e, starts, next) && e.libs.Consistent()
      modifies this, hostSkirmishAIs, libs, libs.owned, teamSkirmishAIs
      ensures Wired() && fresh(libs.owned - old(libs.owned))
      ensures Shows(next)
    {
      var id := activeSkirmishAIs[|activeSkirmishAIs| - 1];
      var inRange := DestroySkirmishAI(e, id, starts(id));
    }

    /** The drain loop, along the engines that it goes through. */
    method DestroyActive(ghost path: seq<Engine>, starts: nat -> bool)
      requires Wired() && IsDrainPath(path, starts) && Shows(path[0])
      modifies this, hostSkirmishAIs, libs, libs.owned, teamSkirmishAIs
      ensures Wired() && fresh(libs.owned - old(libs.owned))
      ensures Shows(path[|path| - 1])
    {
      ghost var n := 0;
      while activeSkirmishAIs != []
        invariant Wired() && fresh(libs.owned - old(libs.owned))
        invariant n < |path| && Shows(path[n])
        decreases |path| - n
      {
        DrainPathGoesOn(path, starts, n);
        DestroyLast(path[n], path[n + 1], starts);
        n := n + 1;
      }
      DrainPathEnds(path, starts, n);
    }

    method Kill(ghost e: Engine, starts: nat -> bool)
      requires Wired() && Shows(e) && Drainable(e, starts)
      modifies this, hostSkirmishAIs, libs, libs.owned, teamSkirmishAIs
      ensures Wired() && fresh(libs.owned - old(libs.owned))
      ensures Shows(Drained(e, starts))
    {
      ghost var path := DrainPath(e, starts);
      DestroyActive(path, starts);
    }
  }
}
