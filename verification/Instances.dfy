/**
 The life of the local Skirmish AIs: CEngineOutHandler creates and destroys them, CSkirmishAIWrapper
 talks to their libraries, CSkirmishAIHandler flags them for killing. Every call is one step.
 */
module Instances {
  import opened KeySelection
  import opened Libraries
  import opened Wrappers

  const MAX_AIS := 255
  const MAX_TEAMS := 255
  const INIT_FAILED := 5

  datatype AIData = AIData(team: nat, isLua: bool)

  /** What happens to one wrapper: its calls through the library pointer, of which one through
      a null pointer would be a NullCall, and the kill flags set for it. */
  datatype Event =
    | LibraryInit(ok: bool)
    | InitEvent(error: int)
    | Ordinary
    | ReleaseEvent(reason: int)
    | LibraryRelease
    | Flagged(reason: int)
    | NullCall

  /** A CSkirmishAIWrapper, with its history since PreInit. */
  datatype Wrapper = Wrapper(
    id: int, team: int, key: Key,
    library: Option<Library>,
    libraryInit: bool, initialized: bool, released: bool, blocked: bool,
    trace: seq<Event>)

  const UNUSED := Wrapper(-1, -1, UNSPECIFIED, None, false, false, false, false, [])

  /** What the key lookup and the foreign code answer while an AI is created. */
  datatype Answers = Answers(
    key: Key, interfaceStarts: bool, libraryFound: bool, initOk: bool, initError: int, ordinary: nat)

  // ---------------------------------------------------------------- the protocol of a library

  datatype Phase = Fresh | Failed | Opened | Rejected | Running | Stopped | Leaving | Closed | Wrong

  /** What an AI library may see: an initialisation, one INIT event, ordinary events as long as it
      is wanted, one RELEASE event if INIT went well, and a release if the initialisation did. */
  function Follow(p: Phase, e: Event): Phase {
    match e
    case LibraryInit(ok) => if !p.Fresh? then Wrong else if ok then Opened else Failed
    case InitEvent(error) => if !p.Opened? then Wrong else if error == 0 then Running else Rejected
    case Ordinary => if p.Running? then Running else Wrong
    case ReleaseEvent(_) => if p.Running? || p.Stopped? then Leaving else Wrong
    case LibraryRelease => if p.Opened? || p.Rejected? || p.Leaving? then Closed else Wrong
    case Flagged(_) =>
      if p.Fresh? then Failed
      else if p.Opened? then Rejected
      else if p.Running? then Stopped
      else if p.Leaving? then Wrong
      else p
    case NullCall => Wrong
  }

  function PhaseOf(trace: seq<Event>): Phase {
    if trace == [] then Fresh else Follow(PhaseOf(trace[..|trace| - 1]), trace[|trace| - 1])
  }

  lemma OneMoreEvent(trace: seq<Event>, e: Event)
    ensures PhaseOf(trace + [e]) == Follow(PhaseOf(trace), e)
  {
    assert (trace + [e])[..|trace|] == trace;
  }

  // ---------------------------------------------------------------- one wrapper

  /** A wrapper with what its methods reach: the library manager and its kill flag. */
  datatype Local = Local(libs: Manager, host: Wrapper, flag: int)

  function Recorded(w: Wrapper, e: Event): Wrapper {
    w.(trace := w.trace + [e])
  }

  /** A call through the library pointer. */
  function Called(w: Wrapper, e: Event): Wrapper {
    Recorded(w, if w.library.Some? then e else NullCall)
  }

  /** HandleEvent. */
  function Handled(w: Wrapper, e: Event): Wrapper {
    if !w.blocked || e.ReleaseEvent? then Called(w, e) else w
  }

  function Blocked(w: Wrapper, reason: int): Wrapper {
    Recorded(w.(blocked := true), Flagged(reason))
  }

  /** SetLocalKillFlag, for an AI that is not a Lua AI. */
  function FlagSet(l: Local, reason: int): Local {
    l.(flag := reason, host := Blocked(l.host, reason))
  }

  function PreInited(id: int, team: int, key: Key): Wrapper {
    Wrapper(id, team, key, None, false, false, false, false, [])
  }

  /** The library that was fetched is told of the AI. */
  function Adopted(w: Wrapper, library: Option<Library>, initOk: bool): Wrapper {
    match library
    case None => w.(library := None)
    case Some(found) =>
      var ok := found.empty || initOk;
      Recorded(w.(library := library, libraryInit := ok), LibraryInit(ok))
  }

  /** The condition of InitLibrary. */
  function LibraryTried(l: Local, a: Answers): Local {
    var libs := l.libs.Fetched(l.host.key, a.interfaceStarts, a.libraryFound);
    l.(libs := libs, host := Adopted(l.host, libs.Pointer(l.host.key), a.initOk))
  }

  /** What InitLibrary makes of it. */
  function Judged(l: Local): Local {
    var n := if l.host.library.None? || !l.host.libraryInit then FlagSet(l, INIT_FAILED) else l;
    if n.flag != -1 then n.(host := n.host.(blocked := true)) else n
  }

  /** InitLibrary. */
  function LibraryInited(l: Local, a: Answers): Local {
    Judged(LibraryTried(l, a))
  }

  /** SendInitEvent. */
  function InitEventSent(l: Local, a: Answers): Local {
    var error := if l.host.blocked || l.host.library.None? || l.host.library.value.empty then 0 else a.initError;
    var sent := l.(host := Handled(l.host, InitEvent(error)));
    if error == 0 then sent.(host := sent.host.(initialized := true)) else FlagSet(sent, INIT_FAILED)
  }

  /** Init. */
  function Inited(l: Local, a: Answers): Local {
    var n := LibraryInited(l, a);
    if n.flag != -1 then n else InitEventSent(n, a)
  }

  function Notified(w: Wrapper, times: nat): Wrapper {
    if times == 0 then w else Handled(Notified(w, times - 1), Ordinary)
  }

  /** What CreateSkirmishAI does to a wrapper after PreInit. */
  function Started(l: Local, a: Answers): Local {
    var n := Inited(l, a);
    if n.flag != -1 then n else n.(host := Notified(n.host, a.ordinary))
  }

  /** Release. */
  function ReleaseSent(w: Wrapper, reason: int): Wrapper {
    if !w.initialized || w.released then w else Handled(w, ReleaseEvent(reason)).(released := true)
  }

  /** The first half of Kill: the AI is told, and its library if that was initialised. */
  function SignedOff(w: Wrapper, reason: int): Wrapper {
    var sent := ReleaseSent(w, reason);
    if sent.libraryInit then Called(sent, LibraryRelease) else sent
  }

  function Deactivated(w: Wrapper): Wrapper {
    w.(library := None, id := -1, team := -1)
  }

  /** The reason of the last kill flag in a history. */
  function LastReason(trace: seq<Event>): Option<int> {
    if trace == [] then None
    else
      var last := trace[|trace| - 1];
      if last.Flagged? then Some(last.reason) else LastReason(trace[..|trace| - 1])
  }

  lemma ReasonAfter(trace: seq<Event>, e: Event)
    ensures LastReason(trace + [e]) == if e.Flagged? then Some(e.reason) else LastReason(trace)
  {
    assert (trace + [e])[..|trace|] == trace;
  }

  /** Kill. */
  ghost function Killed(l: Local, interfaceStarts: bool): Local {
    l.(libs := l.libs.Released(l.host.key, interfaceStarts), host := Deactivated(SignedOff(l.host, l.flag)))
  }

  // ---------------------------------------------------------------- what a wrapper may look like

  /** The flags of a live wrapper say where its library stands. */
  predicate InPhase(w: Wrapper) {
    match PhaseOf(w.trace)
    case Failed => !w.libraryInit && !w.initialized && w.blocked
    case Opened => w.libraryInit && !w.initialized && w.blocked && w.library.Some?
    case Rejected => w.libraryInit && !w.initialized && w.blocked && w.library.Some?
    case Running => w.libraryInit && w.initialized && !w.released && !w.blocked && w.library.Some?
    case Stopped => w.libraryInit && w.initialized && !w.released && w.blocked && w.library.Some?
    case _ => false
  }

  /** The library pointer is the object the manager holds, or the fetch failed for good. */
  ghost predicate PointerOk(libs: Manager, w: Wrapper) {
    match w.library
    case Some(_) => libs.Pointer(w.key) == w.library
    case None => libs.Barred(w.key)
  }

  ghost predicate Live(l: Local) {
    && InPhase(l.host)
    && PointerOk(l.libs, l.host)
    && (l.flag != -1 ==> l.host.blocked)
    && (LastReason(l.host.trace).Some? ==> l.flag == LastReason(l.host.trace).value)
  }

  ghost predicate Dead(w: Wrapper) {
    && w.id == -1 && w.team == -1
    && w.library.None?
    && (PhaseOf(w.trace).Fresh? || PhaseOf(w.trace).Failed? || PhaseOf(w.trace).Closed?)
  }

  lemma TriedPhase(l: Local, a: Answers)
    requires l.host.trace == [] && !l.host.libraryInit
    ensures var h := LibraryTried(l, a).host;
      && PhaseOf(h.trace) == (if h.library.None? then Fresh else if h.libraryInit then Opened else Failed)
      && (h.library.None? ==> !h.libraryInit)
  {
    OneMoreEvent([], LibraryInit(LibraryTried(l, a).host.libraryInit));
  }

  lemma JudgedPhase(l: Local)
    requires PhaseOf(l.host.trace) ==
      if l.host.library.None? then Fresh else if l.host.libraryInit then Opened else Failed
    requires l.host.library.None? ==> !l.host.libraryInit
    requires !l.host.blocked && !l.host.initialized
    ensures var n := Judged(l);
      && n.libs == l.libs && n.host.library == l.host.library
      && (n.flag != -1 ==> InPhase(n.host))
      && (n.flag == -1 ==> PhaseOf(n.host.trace).Opened? && n.host.libraryInit && !n.host.blocked && n.host.library.Some?)
      && n.host.initialized == l.host.initialized && n.host.released == l.host.released
  {
    OneMoreEvent(l.host.trace, Flagged(INIT_FAILED));
  }

  lemma LibraryInitedPhase(l: Local, a: Answers)
    requires l.host == PreInited(l.host.id, l.host.team, l.host.key)
    ensures var n := LibraryInited(l, a);
      && n.libs == l.libs.Fetched(l.host.key, a.interfaceStarts, a.libraryFound)
      && n.host.library == n.libs.Pointer(l.host.key)
      && (n.flag != -1 ==> InPhase(n.host))
      && (n.flag == -1 ==> PhaseOf(n.host.trace).Opened? && n.host.libraryInit && !n.host.blocked && n.host.library.Some?)
      && !n.host.initialized && !n.host.released
  {
    TriedPhase(l, a);
    JudgedPhase(LibraryTried(l, a));
  }

  lemma InitEventSentPhase(l: Local, a: Answers)
    requires l.host.library.Some? && PhaseOf(l.host.trace).Opened? && !l.host.blocked
    requires l.host.libraryInit && !l.host.initialized && !l.host.released && l.flag == -1
    ensures InPhase(InitEventSent(l, a).host)
    ensures InitEventSent(l, a).flag != -1 ==> InitEventSent(l, a).host.blocked
  {
    var error := if l.host.library.value.empty then 0 else a.initError;
    OneMoreEvent(l.host.trace, InitEvent(error));
    OneMoreEvent(l.host.trace + [InitEvent(error)], Flagged(INIT_FAILED));
  }

  lemma HandledPhase(w: Wrapper)
    requires InPhase(w)
    ensures InPhase(Handled(w, Ordinary))
  {
    OneMoreEvent(w.trace, Ordinary);
  }

  /** What one ordinary event keeps, any number of them keeps. */
  lemma {:induction false} NotifiedKeeps(w: Wrapper, times: nat, p: Wrapper -> bool)
    requires p(w) && forall v :: p(v) ==> p(Handled(v, Ordinary))
    ensures p(Notified(w, times))
  {
    if times > 0 {
      NotifiedKeeps(w, times - 1, p);
    }
  }

  lemma NotifiedPhase(w: Wrapper, times: nat)
    requires InPhase(w)
    ensures InPhase(Notified(w, times))
    ensures Notified(w, times) == w.(trace := Notified(w, times).trace)
  {
    var p := (v: Wrapper) => InPhase(v) && v == w.(trace := v.trace);
    forall v | p(v) ensures p(Handled(v, Ordinary)) {
      HandledPhase(v);
    }
    NotifiedKeeps(w, times, p);
  }

  function Ordinaries(n: nat): seq<Event> {
    seq(n, _ => Ordinary)
  }

  lemma {:induction false} NotifiedTells(w: Wrapper, times: nat)
    requires !w.blocked && w.library.Some?
    ensures Notified(w, times) == w.(trace := w.trace + Ordinaries(times))
  {
    if times > 0 {
      NotifiedTells(w, times - 1);
      assert w.trace + Ordinaries(times - 1) + [Ordinary] == w.trace + Ordinaries(times);
    } else {
      assert w.trace + Ordinaries(0) == w.trace;
    }
  }

  /** What the answers of the manager and of the library make of an AI that is created. */
  datatype Start = NoLibrary | NotInitialised | HeldBack | Refused | Welcomed

  function StartOf(library: Option<Library>, flag: int, a: Answers): Start {
    if library.None? then NoLibrary
    else if !library.value.empty && !a.initOk then NotInitialised
    else if flag != -1 then HeldBack
    else if !library.value.empty && a.initError != 0 then Refused
    else Welcomed
  }

  /** The history of such an AI: the stand-in for a library that was not found agrees to everything. */
  function FirstEvents(start: Start, a: Answers): seq<Event> {
    match start
    case NoLibrary => [Flagged(5)]
    case NotInitialised => [LibraryInit(false), Flagged(5)]
    case HeldBack => [LibraryInit(true)]
    case Refused => [LibraryInit(true), InitEvent(a.initError), Flagged(5)]
    case Welcomed => [LibraryInit(true), InitEvent(0)] + Ordinaries(a.ordinary)
  }

  lemma LibraryInitedTells(l: Local, a: Answers)
    requires l.host == PreInited(l.host.id, l.host.team, a.key)
    ensures var n, library := LibraryInited(l, a), l.libs.Fetched(a.key, a.interfaceStarts, a.libraryFound).Pointer(a.key);
      var start := StartOf(library, l.flag, a);
      && n.host.library == library
      && n.host.trace == (if start.Refused? || start.Welcomed? then [LibraryInit(true)] else FirstEvents(start, a))
      && n.flag == (if start.NoLibrary? || start.NotInitialised? then 5 else l.flag)
      && n.host.blocked == (n.flag != -1)
      && n.host.libraryInit == !(start.NoLibrary? || start.NotInitialised?)
      && !n.host.initialized && !n.host.released
  {
  }

  lemma InitedTells(l: Local, a: Answers)
    requires l.host == PreInited(l.host.id, l.host.team, a.key)
    ensures var n, library := Inited(l, a), l.libs.Fetched(a.key, a.interfaceStarts, a.libraryFound).Pointer(a.key);
      var start := StartOf(library, l.flag, a);
      && n.host.library == library
      && n.host.trace == (if start.Welcomed? then [LibraryInit(true), InitEvent(0)] else FirstEvents(start, a))
      && n.flag == (if start.Welcomed? then -1 else if start.HeldBack? then l.flag else 5)
      && n.host.blocked == !start.Welcomed?
      && n.host.libraryInit == !(start.NoLibrary? || start.NotInitialised?)
      && n.host.initialized == start.Welcomed? && !n.host.released
  {
    LibraryInitedTells(l, a);
  }

  /** Exactly these events, flags and answers: an AI runs if its library was fetched, agreed to its
      initialisation and to INIT, and it was not flagged before; any other one is blocked and flagged. */
  lemma StartedTells(l: Local, a: Answers)
    requires l.host == PreInited(l.host.id, l.host.team, a.key)
    ensures var n, library := Started(l, a), l.libs.Fetched(a.key, a.interfaceStarts, a.libraryFound).Pointer(a.key);
      var start := StartOf(library, l.flag, a);
      && n.host.library == library
      && n.host.trace == FirstEvents(start, a)
      && n.flag == (if start.Welcomed? then -1 else if start.HeldBack? then l.flag else 5)
      && n.host.blocked == !start.Welcomed?
      && n.host.libraryInit == !(start.NoLibrary? || start.NotInitialised?)
      && n.host.initialized == start.Welcomed? && !n.host.released
  {
    InitedTells(l, a);
    if Inited(l, a).flag == -1 {
      NotifiedTells(Inited(l, a).host, a.ordinary);
    }
  }

  lemma FirstReason(start: Start, a: Answers)
    ensures LastReason(FirstEvents(start, a)) == if start.HeldBack? || start.Welcomed? then None else Some(5)
  {
    match start
    case NoLibrary => ReasonAfter([], Flagged(5));
    case NotInitialised => ReasonAfter([LibraryInit(false)], Flagged(5));
    case HeldBack => ReasonAfter([], LibraryInit(true));
    case Refused => ReasonAfter([LibraryInit(true), InitEvent(a.initError)], Flagged(5));
    case Welcomed =>
      ReasonAfter([], LibraryInit(true));
      ReasonAfter([LibraryInit(true)], InitEvent(0));
      NoReasonInOrdinaries([LibraryInit(true), InitEvent(0)], a.ordinary);
  }

  lemma {:induction false} NoReasonInOrdinaries(front: seq<Event>, n: nat)
    ensures LastReason(front + Ordinaries(n)) == LastReason(front)
  {
    if n == 0 {
      assert front + Ordinaries(0) == front;
    } else {
      NoReasonInOrdinaries(front, n - 1);
      ReasonAfter(front + Ordinaries(n - 1), Ordinary);
      assert front + Ordinaries(n - 1) + [Ordinary] == front + Ordinaries(n);
    }
  }

  lemma StartedReason(l: Local, a: Answers)
    requires l.host == PreInited(l.host.id, l.host.team, a.key)
    ensures var n := Started(l, a); LastReason(n.host.trace).Some? ==> n.flag == LastReason(n.host.trace).value
  {
    StartedTells(l, a);
    FirstReason(StartOf(l.libs.Fetched(a.key, a.interfaceStarts, a.libraryFound).Pointer(a.key), l.flag, a), a);
  }

  /** A wrapper that was just created is live whatever the foreign code answered, and its fetch is
      the only thing that happened to the manager. */
  lemma StartedIsLive(l: Local, a: Answers)
    requires l.libs.Consistent() && l.host == PreInited(l.host.id, l.host.team, a.key)
    ensures var n := Started(l, a);
      && Live(n)
      && n.libs == l.libs.Fetched(a.key, a.interfaceStarts, a.libraryFound)
      && n.host.library == n.libs.Pointer(a.key)
      && n.host.id == l.host.id && n.host.team == l.host.team && n.host.key == a.key
  {
    LibraryInitedPhase(l, a);
    FetchCounts(l.libs, a.key, a.interfaceStarts, a.libraryFound, a.key);
    StartedReason(l, a);
    var n := LibraryInited(l, a);
    if n.flag == -1 {
      InitEventSentPhase(n, a);
      if Inited(l, a).flag == -1 {
        NotifiedPhase(Inited(l, a).host, a.ordinary);
      }
    }
  }

  lemma InitedIsLive(l: Local, a: Answers)
    requires l.host == PreInited(l.host.id, l.host.team, a.key)
    ensures Inited(l, a).flag == -1 ==> Inited(l, a).host.library.Some?
  {
    LibraryInitedPhase(l, a);
  }

  lemma ReleaseSentPhase(w: Wrapper, reason: int)
    requires InPhase(w)
    ensures var sent := ReleaseSent(w, reason);
      && PhaseOf(sent.trace) == (if w.initialized then Leaving else PhaseOf(w.trace))
      && sent == w.(released := sent.released, trace := sent.trace)
  {
    OneMoreEvent(w.trace, ReleaseEvent(reason));
  }

  lemma SignedOffPhase(w: Wrapper, reason: int)
    requires InPhase(w)
    ensures var p := PhaseOf(SignedOff(w, reason).trace); p.Failed? || p.Closed?
  {
    ReleaseSentPhase(w, reason);
    OneMoreEvent(ReleaseSent(w, reason).trace, LibraryRelease);
  }

  /** RELEASE is sent once. */
  lemma ReleasedOnce(w: Wrapper, reason: int, again: int)
    ensures ReleaseSent(ReleaseSent(w, reason), again) == ReleaseSent(w, reason)
  {
  }

  /** Kill adds these events: the reason is that of the kill flag, the last one that was set if any was. */
  lemma KilledTells(l: Local, interfaceStarts: bool)
    requires Live(l)
    ensures var t := l.host.trace;
      Killed(l, interfaceStarts).host.trace ==
        if l.host.initialized then t + [ReleaseEvent(l.flag), LibraryRelease]
        else if l.host.libraryInit then t + [LibraryRelease]
        else t
    ensures LastReason(l.host.trace).Some? ==> l.flag == LastReason(l.host.trace).value
  {
    var t := l.host.trace;
    assert t + [ReleaseEvent(l.flag)] + [LibraryRelease] == t + [ReleaseEvent(l.flag), LibraryRelease];
  }

  lemma KilledIsDead(l: Local, interfaceStarts: bool)
    requires Live(l)
    ensures Dead(Killed(l, interfaceStarts).host)
    ensures Killed(l, interfaceStarts).libs == l.libs.Released(l.host.key, interfaceStarts)
  {
    SignedOffPhase(l.host, l.flag);
  }

  lemma FlagSetIsLive(l: Local, reason: int)
    requires Live(l)
    ensures Live(FlagSet(l, reason))
  {
    OneMoreEvent(l.host.trace, Flagged(reason));
  }

  lemma FlagSetIsDead(l: Local, reason: int)
    requires Dead(l.host)
    ensures Dead(FlagSet(l, reason).host)
  {
    OneMoreEvent(l.host.trace, Flagged(reason));
  }

  // ---------------------------------------------------------------- lists of ids

  /** The sequence without the first x. */
  function Erase(s: seq<nat>, x: nat): seq<nat> {
    if s == [] then [] else if s[0] == x then s[1..] else [s[0]] + Erase(s[1..], x)
  }

  lemma {:induction false} EraseCounts(s: seq<nat>, x: nat)
    ensures multiset(Erase(s, x)) == multiset(s) - multiset{x}
  {
    if s != [] {
      assert s == [s[0]] + s[1..];
      if s[0] != x {
        EraseCounts(s[1..], x);
      }
    }
  }

  ghost predicate Once(s: seq<nat>) {
    forall x :: multiset(s)[x] <= 1
  }

  lemma EraseOnce(s: seq<nat>, x: nat)
    requires Once(s)
    ensures Once(Erase(s, x))
    ensures forall y :: y in Erase(s, x) <==> y in s && y != x
  {
    EraseCounts(s, x);
    forall y ensures y in Erase(s, x) <==> y in s && y != x {
      assert y in Erase(s, x) <==> multiset(Erase(s, x))[y] > 0;
      assert y in s <==> multiset(s)[y] > 0;
    }
  }

  lemma {:induction false} EraseAt(s: seq<nat>, i: nat)
    requires i < |s| && s[i] !in s[..i]
    ensures Erase(s, s[i]) == s[..i] + s[i + 1..]
  {
    if i > 0 {
      assert s[1..][..i - 1] == s[..i][1..];
      assert s[0] == s[..i][0];
      EraseAt(s[1..], i - 1);
    }
  }

  lemma AppendOnce(s: seq<nat>, x: nat)
    requires Once(s) && x !in s
    ensures Once(s + [x])
  {
    assert multiset(s)[x] == 0;
  }

  // ---------------------------------------------------------------- the engine

  datatype Engine = Engine(
    libs: Manager,
    hosts: seq<Wrapper>,
    data: seq<Option<AIData>>,
    flags: seq<int>,
    teams: seq<seq<nat>>,
    active: seq<nat>)
  {
    ghost predicate Sized() {
      |hosts| == MAX_AIS && |data| == MAX_AIS && |flags| == MAX_AIS && |teams| == MAX_TEAMS
    }

    function At(id: nat): Local
      requires id < |hosts| && id < |flags|
    {
      Local(libs, hosts[id], flags[id])
    }

    function Put(id: nat, l: Local): Engine
      requires id < |hosts| && id < |flags|
    {
      this.(libs := l.libs, hosts := hosts[id := l.host], flags := flags[id := l.flag])
    }

    predicate IsActive(id: nat)
      requires id < |hosts|
    {
      hosts[id].id != -1
    }

    /** The active list holds the live wrappers once each, and the team lists split it by team. */
    ghost predicate Listed()
      requires Sized()
    {
      && Once(active)
      && (forall id: nat :: id in active <==> id < MAX_AIS && IsActive(id))
      && forall t :: 0 <= t < MAX_TEAMS ==> ListedIn(t)
    }

    ghost predicate ListedIn(t: int)
      requires Sized() && 0 <= t < MAX_TEAMS
    {
      && Once(teams[t])
      && forall id: nat :: id in teams[t] <==> id < MAX_AIS && IsActive(id) && hosts[id].team == t
    }

    ghost predicate HostOk(id: nat)
      requires Sized() && id < MAX_AIS
    {
      if !IsActive(id) then Dead(hosts[id])
      else
        && hosts[id].id == id
        && 0 <= hosts[id].team < MAX_TEAMS
        && data[id].Some? && !data[id].value.isLua
        && Live(At(id))
    }

    /** Load counts are exactly the numbers of wrappers that hold the library. */
    ghost predicate Counted() {
      forall key :: libs.Count(key) == Holders(hosts, key)
    }

    ghost predicate Sound() {
      && Sized()
      && libs.Consistent()
      && Listed()
      && (forall id: nat :: id < MAX_AIS ==> HostOk(id))
      && Counted()
    }
  }

  function Holds(w: Wrapper, key: Key): nat {
    if w.library.Some? && w.key == key then 1 else 0
  }

  function Holders(hosts: seq<Wrapper>, key: Key): nat {
    if hosts == [] then 0
    else Holders(hosts[..|hosts| - 1], key) + Holds(hosts[|hosts| - 1], key)
  }

  lemma {:induction false} HoldersChange(hosts: seq<Wrapper>, id: nat, w: Wrapper, key: Key)
    requires id < |hosts|
    ensures Holders(hosts[id := w], key) == Holders(hosts, key) - Holds(hosts[id], key) + Holds(w, key)
  {
    var k := |hosts| - 1;
    if id == k {
      assert hosts[id := w][..k] == hosts[..k];
    } else {
      assert hosts[id := w][..k] == hosts[..k][id := w];
      HoldersChange(hosts[..k], id, w, key);
    }
  }

  lemma {:induction false} HolderCounts(hosts: seq<Wrapper>, id: nat, key: Key)
    requires id < |hosts| && Holds(hosts[id], key) == 1
    ensures Holders(hosts, key) > 0
  {
    if id < |hosts| - 1 {
      HolderCounts(hosts[..|hosts| - 1], id, key);
    }
  }

  // ---------------------------------------------------------------- the calls

  /** CreateSkirmishAI; nothing is to be done for a Lua AI. */
  function Created(e: Engine, id: nat, a: Answers): Engine
    requires e.Sized() && id < MAX_AIS && e.data[id].Some? && e.data[id].value.team < MAX_TEAMS
  {
    var data := e.data[id].value;
    if data.isLua then e
    else
      var l := e.At(id).(host := PreInited(id, data.team, a.key));
      e.Put(id, Started(l, a)).(
        teams := e.teams[data.team := e.teams[data.team] + [id]],
        active := e.active + [id])
  }

  /** DestroySkirmishAI; an id that is missing in one of its lists is left alone. */
  ghost function Destroyed(e: Engine, id: nat, interfaceStarts: bool): Engine
    requires e.Sized() && id < MAX_AIS && e.IsActive(id)
  {
    var team := e.hosts[id].team;
    if 0 <= team < MAX_TEAMS && id in e.teams[team] && id in e.active then
      e.Put(id, Killed(e.At(id), interfaceStarts)).(
        teams := e.teams[team := Erase(e.teams[team], id)],
        active := Erase(e.active, id))
    else e
  }

  /** SetLocalKillFlag, which blocks the events of an AI that is not a Lua AI. */
  function FlaggedForKill(e: Engine, id: nat, reason: int): Engine
    requires e.Sized() && id < MAX_AIS && e.data[id].Some?
  {
    if e.data[id].value.isLua then e.(flags := e.flags[id := reason])
    else e.Put(id, FlagSet(e.At(id), reason))
  }

  /** An event for one AI of the active list. */
  function EventSent(e: Engine, id: nat): Engine
    requires |e.hosts| == MAX_AIS && id < MAX_AIS
  {
    e.(hosts := e.hosts[id := Handled(e.hosts[id], Ordinary)])
  }

  /** AddSkirmishAI, which leaves an id that is taken alone. */
  function DataAdded(e: Engine, id: nat, data: AIData): Engine
    requires e.Sized() && id < MAX_AIS
  {
    if e.data[id].Some? then e else e.(data := e.data[id := Some(data)])
  }

  /** RemoveSkirmishAI. */
  function DataRemoved(e: Engine, id: nat): Engine
    requires e.Sized() && id < MAX_AIS
  {
    if e.data[id].None? then e else e.(data := e.data[id := None], flags := e.flags[id := -1])
  }

  /** Data that was removed is gone with its kill flag, and adding to a taken id changes nothing. */
  lemma DataComesAndGoes(e: Engine, id: nat, data: AIData, other: AIData)
    requires e.Sized() && id < MAX_AIS && e.data[id].None?
    ensures var added := DataAdded(e, id, data);
      && added.data[id] == Some(data) && DataAdded(added, id, other) == added
      && DataRemoved(added, id) == e.(flags := e.flags[id := -1])
  {
    assert e.data[id := Some(data)][id := None] == e.data;
  }

  // ---------------------------------------------------------------- creating keeps everything in order

  lemma PointerAfterFetch(e: Engine, a: Answers, j: nat)
    requires e.Sound() && j < MAX_AIS && e.IsActive(j)
    ensures PointerOk(e.libs.Fetched(a.key, a.interfaceStarts, a.libraryFound), e.hosts[j])
  {
    assert e.HostOk(j);
    var key := e.hosts[j].key;
    FetchCounts(e.libs, a.key, a.interfaceStarts, a.libraryFound, key);
    if e.hosts[j].library.Some? {
      HolderCounts(e.hosts, j, key);
    }
  }

  lemma CountsAfterFetch(e: Engine, id: nat, a: Answers, w: Wrapper, key: Key)
    requires e.Sound() && id < MAX_AIS && !e.IsActive(id)
    requires w.key == a.key && w.library == e.libs.Fetched(a.key, a.interfaceStarts, a.libraryFound).Pointer(a.key)
    ensures e.libs.Fetched(a.key, a.interfaceStarts, a.libraryFound).Count(key) == Holders(e.hosts[id := w], key)
  {
    assert e.HostOk(id);
    FetchCounts(e.libs, a.key, a.interfaceStarts, a.libraryFound, key);
    HoldersChange(e.hosts, id, w, key);
  }

  lemma CreatedLists(e: Engine, id: nat, team: nat, n: Engine)
    requires e.Sized() && e.Listed() && id < MAX_AIS && !e.IsActive(id) && team < MAX_TEAMS
    requires n.Sized() && n.hosts == e.hosts[id := n.hosts[id]] && n.hosts[id].id != -1 && n.hosts[id].team == team
    requires n.teams == e.teams[team := e.teams[team] + [id]] && n.active == e.active + [id]
    ensures n.Listed()
  {
    AppendOnce(e.active, id);
    forall t | 0 <= t < MAX_TEAMS ensures n.ListedIn(t) {
      assert e.ListedIn(t);
      if t == team {
        AppendOnce(e.teams[t], id);
      }
    }
  }

  lemma HostUntouched(e: Engine, n: Engine, j: nat)
    requires e.Sized() && n.Sized() && j < MAX_AIS && e.HostOk(j)
    requires n.hosts[j] == e.hosts[j] && n.data[j] == e.data[j] && n.flags[j] == e.flags[j]
    requires e.IsActive(j) ==> PointerOk(n.libs, e.hosts[j])
    ensures n.HostOk(j)
  {
  }

  lemma CreatedHost(e: Engine, id: nat, a: Answers, j: nat)
    requires e.Sound() && id < MAX_AIS && !e.IsActive(id)
    requires e.data[id].Some? && e.data[id].value.team < MAX_TEAMS && !e.data[id].value.isLua
    requires j < MAX_AIS
    ensures Created(e, id, a).HostOk(j)
  {
    StartedIsLive(e.At(id).(host := PreInited(id, e.data[id].value.team, a.key)), a);
    if j != id {
      assert e.HostOk(j);
      if e.IsActive(j) {
        PointerAfterFetch(e, a, j);
      }
      HostUntouched(e, Created(e, id, a), j);
    }
  }

  lemma CreatedStaysSound(e: Engine, id: nat, a: Answers)
    requires e.Sound() && id < MAX_AIS && !e.IsActive(id)
    requires e.data[id].Some? && e.data[id].value.team < MAX_TEAMS
    ensures Created(e, id, a).Sound()
  {
    var data := e.data[id].value;
    if !data.isLua {
      var n := Created(e, id, a);
      forall j: nat | j < MAX_AIS ensures n.HostOk(j) {
        CreatedHost(e, id, a, j);
      }
      StartedIsLive(e.At(id).(host := PreInited(id, data.team, a.key)), a);
      FetchedStays(e.libs, a.key, a.interfaceStarts, a.libraryFound);
      CreatedLists(e, id, data.team, n);
      forall key ensures n.libs.Count(key) == Holders(n.hosts, key) {
        CountsAfterFetch(e, id, a, n.hosts[id], key);
      }
    }
  }

  /** A new AI runs exactly if its library is fetched and agrees to both initialisations; else it is flagged
      with reason 5 and gets no more events. */
  lemma CreatedRunsExactly(e: Engine, id: nat, a: Answers)
    requires e.Sound() && id < MAX_AIS && !e.IsActive(id) && e.flags[id] == -1
    requires e.data[id].Some? && e.data[id].value.team < MAX_TEAMS && !e.data[id].value.isLua
    ensures var n, library := Created(e, id, a), e.libs.Fetched(a.key, a.interfaceStarts, a.libraryFound).Pointer(a.key);
      var runs := library.Some? && (library.value.empty || (a.initOk && a.initError == 0));
      && (PhaseOf(n.hosts[id].trace).Running? <==> runs)
      && n.hosts[id].blocked == !runs && n.hosts[id].library == library
      && n.flags == e.flags[id := if runs then -1 else 5]
  {
    var l := e.At(id).(host := PreInited(id, e.data[id].value.team, a.key));
    StartedIsLive(l, a);
    StartedTells(l, a);
  }

  /** Creating an AI that is live already is the one thing that must not happen: it is listed twice. */
  lemma CreateStaysSoundExactly(e: Engine, id: nat, a: Answers)
    requires e.Sound() && id < MAX_AIS && e.data[id].Some? && e.data[id].value.team < MAX_TEAMS
    ensures Created(e, id, a).Sound() <==> !e.IsActive(id)
  {
    if e.IsActive(id) {
      assert e.HostOk(id);
      assert multiset(e.active)[id] >= 1;
      assert multiset(Created(e, id, a).active)[id] >= 2;
    } else {
      CreatedStaysSound(e, id, a);
    }
  }

  // ---------------------------------------------------------------- so does destroying

  lemma PointerAfterRelease(e: Engine, id: nat, interfaceStarts: bool, w: Wrapper, j: nat)
    requires e.Sound() && id < MAX_AIS && e.IsActive(id) && w.library.None?
    requires j < MAX_AIS && e.IsActive(j) && j != id
    ensures PointerOk(e.libs.Released(e.hosts[id].key, interfaceStarts), e.hosts[j])
  {
    assert e.HostOk(id) && e.HostOk(j);
    var released, key := e.hosts[id].key, e.hosts[j].key;
    if e.hosts[id].library.None? {
      ReleaseOfFailedFetch(e.libs, released, interfaceStarts);
    } else {
      HolderCounts(e.hosts, id, released);
      ReleaseCounts(e.libs, released, interfaceStarts, key);
      if e.hosts[j].library.Some? {
        HoldersChange(e.hosts, id, w, key);
        HolderCounts(e.hosts[id := w], j, key);
      }
    }
  }

  lemma CountsAfterRelease(e: Engine, id: nat, interfaceStarts: bool, w: Wrapper, key: Key)
    requires e.Sound() && id < MAX_AIS && e.IsActive(id) && w.library.None?
    ensures e.libs.Released(e.hosts[id].key, interfaceStarts).Count(key) == Holders(e.hosts[id := w], key)
  {
    assert e.HostOk(id);
    HoldersChange(e.hosts, id, w, key);
    if e.hosts[id].library.None? {
      ReleaseOfFailedFetch(e.libs, e.hosts[id].key, interfaceStarts);
    } else {
      HolderCounts(e.hosts, id, e.hosts[id].key);
      ReleaseCounts(e.libs, e.hosts[id].key, interfaceStarts, key);
    }
  }

  lemma LibsAfterRelease(e: Engine, id: nat, interfaceStarts: bool)
    requires e.Sound() && id < MAX_AIS && e.IsActive(id)
    ensures e.libs.Released(e.hosts[id].key, interfaceStarts).Consistent()
  {
    assert e.HostOk(id);
    if e.hosts[id].library.None? {
      ReleaseOfFailedFetch(e.libs, e.hosts[id].key, interfaceStarts);
    } else {
      HolderCounts(e.hosts, id, e.hosts[id].key);
      ReleasedStays(e.libs, e.hosts[id].key, interfaceStarts);
    }
  }

  lemma DestroyedLists(e: Engine, id: nat, n: Engine)
    requires e.Sized() && e.Listed() && id < MAX_AIS && e.IsActive(id) && 0 <= e.hosts[id].team < MAX_TEAMS
    requires n.Sized() && n.hosts == e.hosts[id := n.hosts[id]] && n.hosts[id].id == -1
    requires var team := e.hosts[id].team;
      n.teams == e.teams[team := Erase(e.teams[team], id)] && n.active == Erase(e.active, id)
    ensures n.Listed() && |n.active| == |e.active| - 1
  {
    EraseOnce(e.active, id);
    EraseShrinks(e.active, id);
    forall t | 0 <= t < MAX_TEAMS ensures n.ListedIn(t) {
      assert e.ListedIn(t);
      EraseOnce(e.teams[t], id);
    }
  }

  lemma {:induction false} EraseShrinks(s: seq<nat>, x: nat)
    requires x in s
    ensures |Erase(s, x)| == |s| - 1
  {
    if s[0] != x {
      EraseShrinks(s[1..], x);
    }
  }

  lemma DestroyedHost(e: Engine, id: nat, interfaceStarts: bool, j: nat)
    requires e.Sound() && id < MAX_AIS && e.IsActive(id) && e.HostOk(id) && j < MAX_AIS
    ensures Destroyed(e, id, interfaceStarts).HostOk(j)
  {
    assert e.ListedIn(e.hosts[id].team);
    KilledIsDead(e.At(id), interfaceStarts);
    if j != id {
      assert e.HostOk(j);
      if e.IsActive(j) {
        PointerAfterRelease(e, id, interfaceStarts, Killed(e.At(id), interfaceStarts).host, j);
      }
      HostUntouched(e, Destroyed(e, id, interfaceStarts), j);
    }
  }

  lemma DestroyedCounts(e: Engine, id: nat, interfaceStarts: bool)
    requires e.Sound() && id < MAX_AIS && e.IsActive(id) && e.HostOk(id)
    ensures Destroyed(e, id, interfaceStarts).Counted()
    ensures Destroyed(e, id, interfaceStarts).libs.Consistent()
  {
    assert e.ListedIn(e.hosts[id].team);
    KilledIsDead(e.At(id), interfaceStarts);
    LibsAfterRelease(e, id, interfaceStarts);
    var n := Destroyed(e, id, interfaceStarts);
    forall key ensures n.libs.Count(key) == Holders(n.hosts, key) {
      CountsAfterRelease(e, id, interfaceStarts, n.hosts[id], key);
    }
  }

  lemma DestroyedStaysSound(e: Engine, id: nat, interfaceStarts: bool)
    requires e.Sound() && id < MAX_AIS && e.IsActive(id)
    ensures e.HostOk(id)
    ensures Destroyed(e, id, interfaceStarts).Sound()
    ensures |Destroyed(e, id, interfaceStarts).active| == |e.active| - 1
  {
    assert e.HostOk(id) && e.ListedIn(e.hosts[id].team);
    var n := Destroyed(e, id, interfaceStarts);
    DestroyedLists(e, id, n);
    DestroyedCounts(e, id, interfaceStarts);
    forall j: nat | j < MAX_AIS ensures n.HostOk(j) {
      DestroyedHost(e, id, interfaceStarts, j);
    }
  }

  lemma EraseLast(s: seq<nat>, x: nat)
    requires x !in s
    ensures Erase(s + [x], x) == s
  {
    assert (s + [x])[..|s|] == s;
    EraseAt(s + [x], |s|);
    assert (s + [x])[|s| + 1..] == [];
  }

  // ---------------------------------------------------------------- and every other call

  /** A wrapper may change where neither its library nor its place in the lists is concerned. */
  lemma ReplacedStaysSound(e: Engine, id: nat, l: Local)
    requires e.Sound() && id < MAX_AIS && l.libs == e.libs
    requires var w := e.hosts[id];
      l.host.id == w.id && l.host.team == w.team && l.host.key == w.key && l.host.library == w.library
    requires if e.IsActive(id) then Live(l) else Dead(l.host)
    ensures e.Put(id, l).Sound()
  {
    var n := e.Put(id, l);
    forall j: nat | j < MAX_AIS ensures n.HostOk(j) {
      assert e.HostOk(j);
    }
    forall t | 0 <= t < MAX_TEAMS ensures n.ListedIn(t) {
      assert e.ListedIn(t);
    }
    forall key ensures n.libs.Count(key) == Holders(n.hosts, key) {
      HoldersChange(e.hosts, id, l.host, key);
    }
  }

  lemma FlaggedStaysSound(e: Engine, id: nat, reason: int)
    requires e.Sound() && id < MAX_AIS && e.data[id].Some?
    ensures FlaggedForKill(e, id, reason).Sound()
  {
    assert e.HostOk(id);
    var l := if e.data[id].value.isLua then e.At(id).(flag := reason) else FlagSet(e.At(id), reason);
    if !e.data[id].value.isLua {
      if e.IsActive(id) {
        FlagSetIsLive(e.At(id), reason);
      } else {
        FlagSetIsDead(e.At(id), reason);
      }
    }
    ReplacedStaysSound(e, id, l);
    assert FlaggedForKill(e, id, reason) == e.Put(id, l);
  }

  lemma EventSentStaysSound(e: Engine, id: nat)
    requires e.Sound() && id < MAX_AIS && e.IsActive(id)
    ensures EventSent(e, id).Sound()
  {
    assert e.HostOk(id);
    HandledPhase(e.hosts[id]);
    var l := e.At(id).(host := Handled(e.hosts[id], Ordinary));
    ReplacedStaysSound(e, id, l);
    assert EventSent(e, id) == e.Put(id, l);
  }

  /** An event reaches exactly the AIs that run; nothing else changes. */
  lemma EventReachesRunning(e: Engine, id: nat)
    requires e.Sound() && id < MAX_AIS && e.IsActive(id)
    ensures var w := e.hosts[id];
      var runs := PhaseOf(w.trace).Running?;
      EventSent(e, id) == e.(hosts := e.hosts[id := w.(trace := if runs then w.trace + [Ordinary] else w.trace)])
  {
    assert e.HostOk(id);
  }

  lemma NewDataStaysSound(e: Engine, n: Engine, id: nat)
    requires e.Sound() && id < MAX_AIS && n.Sized()
    requires n == e.(data := e.data[id := n.data[id]], flags := e.flags[id := n.flags[id]])
    requires e.IsActive(id) ==> n.data[id] == e.data[id] && n.flags[id] == e.flags[id]
    ensures n.Sound()
  {
    forall j: nat | j < MAX_AIS ensures n.HostOk(j) {
      assert e.HostOk(j);
    }
    forall t | 0 <= t < MAX_TEAMS ensures n.ListedIn(t) {
      assert e.ListedIn(t);
    }
  }

  // ---------------------------------------------------------------- whole runs

  datatype Call =
    | Create(id: nat, answers: Answers)
    | Destroy(id: nat, interfaceStarts: bool)
    | SetKillFlag(id: nat, reason: int)
    | SendEvent(id: nat)
    | AddData(id: nat, data: AIData)
    | RemoveData(id: nat)

  /** An id is in range, an AI is created with its data present and not while it is live, only live wrappers
      are destroyed and addressed, and their data stays. The callers do not see to all of this: see KillFlags. */
  ghost predicate Permitted(e: Engine, call: Call)
    requires e.Sized()
  {
    && call.id < MAX_AIS
    && match call
       case Create(id, _) => !e.IsActive(id) && e.data[id].Some? && e.data[id].value.team < MAX_TEAMS
       case Destroy(id, _) => e.IsActive(id)
       case SetKillFlag(id, _) => e.data[id].Some?
       case SendEvent(id) => e.IsActive(id)
       case AddData(_, _) => true
       case RemoveData(id) => !e.IsActive(id)
  }

  ghost function Step(e: Engine, call: Call): Engine
    requires e.Sized() && Permitted(e, call)
  {
    match call
    case Create(id, answers) => Created(e, id, answers)
    case Destroy(id, interfaceStarts) => Destroyed(e, id, interfaceStarts)
    case SetKillFlag(id, reason) => FlaggedForKill(e, id, reason)
    case SendEvent(id) => EventSent(e, id)
    case AddData(id, data) => DataAdded(e, id, data)
    case RemoveData(id) => DataRemoved(e, id)
  }

  /** No AI yet. */
  function NewEngine(libs: Manager): (e: Engine)
    ensures e.Sized()
    ensures forall id :: 0 <= id < MAX_AIS ==> e.hosts[id] == UNUSED && e.data[id] == None && e.flags[id] == -1
    ensures forall t :: 0 <= t < MAX_TEAMS ==> e.teams[t] == []
  {
    Engine(libs, seq(MAX_AIS, _ => UNUSED), seq(MAX_AIS, _ => None), seq(MAX_AIS, _ => -1),
           seq(MAX_TEAMS, _ => []), [])
  }

  /** Looking up AIs through the interfaces may have started some of these before the first AI. */
  ghost predicate Initial(e: Engine) {
    && e == NewEngine(e.libs)
    && e.libs.Consistent() && forall key :: e.libs.Count(key) == 0
  }

  ghost predicate Follows(before: Engine, call: Call, e: Engine) {
    before.Sized() && Permitted(before, call) && e == Step(before, call)
  }

  /** A run: the states before and after every call. */
  ghost predicate IsRun(calls: seq<Call>, states: seq<Engine>) {
    && |states| == |calls| + 1
    && Initial(states[0])
    && forall i :: 0 <= i < |calls| ==> Follows(states[i], calls[i], states[i + 1])
  }

  lemma {:induction false} NobodyHolds(hosts: seq<Wrapper>, key: Key)
    requires forall i :: 0 <= i < |hosts| ==> hosts[i].library.None?
    ensures Holders(hosts, key) == 0
  {
    if hosts != [] {
      NobodyHolds(hosts[..|hosts| - 1], key);
    }
  }

  lemma InitialIsSound(e: Engine)
    requires Initial(e)
    ensures e.Sound()
  {
    forall key ensures e.libs.Count(key) == Holders(e.hosts, key) {
      NobodyHolds(e.hosts, key);
    }
    forall t: int | 0 <= t < MAX_TEAMS ensures e.ListedIn(t) {
      assert e.teams[t] == [];
    }
  }

  lemma StepStaysSound(e: Engine, call: Call)
    requires e.Sound() && Permitted(e, call)
    ensures Step(e, call).Sound()
  {
    match call
    case Create(id, answers) => CreatedStaysSound(e, id, answers);
    case Destroy(id, interfaceStarts) => DestroyedStaysSound(e, id, interfaceStarts);
    case SetKillFlag(id, reason) => FlaggedStaysSound(e, id, reason);
    case SendEvent(id) => EventSentStaysSound(e, id);
    case AddData(id, _) =>
      assert e.HostOk(id);
      NewDataStaysSound(e, Step(e, call), id);
    case RemoveData(id) =>
      NewDataStaysSound(e, Step(e, call), id);
  }

  lemma {:induction false} RunIsSound(calls: seq<Call>, states: seq<Engine>, n: nat)
    requires IsRun(calls, states) && n < |states|
    ensures states[n].Sound()
  {
    if n == 0 {
      InitialIsSound(states[0]);
    } else {
      RunIsSound(calls, states, n - 1);
      assert Follows(states[n - 1], calls[n - 1], states[n]);
      StepStaysSound(states[n - 1], calls[n - 1]);
    }
  }

  /** Throughout every run, whatever the foreign code answers, the load count of a key is the
      number of wrappers that hold its library, the library is there exactly if this is positive,
      and what a wrapper holds is that very object. */
  lemma CountsAreHolders(calls: seq<Call>, states: seq<Engine>, n: nat, key: Key)
    requires IsRun(calls, states) && n < |states|
    ensures var e := states[n];
      && e.libs.Count(key) == Holders(e.hosts, key)
      && (e.libs.Pointer(key).Some? <==> Holders(e.hosts, key) > 0)
      && forall id: nat :: id < |e.hosts| && Holds(e.hosts[id], key) == 1 ==> e.hosts[id].library == e.libs.Pointer(key)
  {
    RunIsSound(calls, states, n);
    var e := states[n];
    var name := e.libs.config.InterfaceOf(key);
    if e.libs.At(name).Some? {
      assert e.libs.ConsistentAt(name, e.libs.At(name).value);
    }
    forall id: nat | id < |e.hosts| && Holds(e.hosts[id], key) == 1 ensures e.hosts[id].library == e.libs.Pointer(key) {
      assert e.HostOk(id);
    }
  }

  /** Throughout every run an interface has loaded and unloaded each library in turns, and has it
      loaded exactly while some wrapper holds it: it loads on 0 -> 1 and unloads on 1 -> 0 only. */
  lemma LoadedExactlyWhileHeld(calls: seq<Call>, states: seq<Engine>, n: nat, name: Key, key: Key)
    requires IsRun(calls, states) && n < |states|
    requires name in states[n].libs.slots && states[n].libs.slots[name].Some?
    ensures var i := states[n].libs.slots[name].value;
      && Alternating(i.natives)
      && (Open(i.natives, key) <==> states[n].libs.config.InterfaceOf(key) == name && Holders(states[n].hosts, key) > 0)
  {
    RunIsSound(calls, states, n);
    var e := states[n];
    assert e.libs.ConsistentAt(name, e.libs.slots[name].value);
    assert e.libs.Count(key) == Holders(e.hosts, key);
  }

  /** Throughout every run no wrapper leaves the protocol of its library, so none calls through a
      null pointer; and a wrapper at rest has taken its protocol to an end. */
  lemma ProtocolIsKept(calls: seq<Call>, states: seq<Engine>, n: nat, id: nat)
    requires IsRun(calls, states) && n < |states| && id < MAX_AIS
    ensures |states[n].hosts| == MAX_AIS && |states[n].flags| == MAX_AIS
    ensures var w := states[n].hosts[id];
      && !PhaseOf(w.trace).Wrong?
      && (w.id == -1 ==> PhaseOf(w.trace).Fresh? || PhaseOf(w.trace).Failed? || PhaseOf(w.trace).Closed?)
      && (w.id != -1 && states[n].flags[id] != -1 ==> !PhaseOf(w.trace).Running?)
  {
    RunIsSound(calls, states, n);
    assert states[n].HostOk(id);
  }

  /** Throughout every run the active list holds the live wrappers once each, and each of them is
      in the list of its own team, once, and in no other. */
  lemma TeamsPartitionActive(calls: seq<Call>, states: seq<Engine>, n: nat, id: nat, t: nat)
    requires IsRun(calls, states) && n < |states| && t < MAX_TEAMS
    ensures states[n].Sized()
    ensures var e := states[n];
      && multiset(e.active)[id] == (if id < MAX_AIS && e.IsActive(id) then 1 else 0)
      && multiset(e.teams[t])[id] == (if id in e.active && e.hosts[id].team == t then 1 else 0)
      && (id in e.active ==> 0 <= e.hosts[id].team < MAX_TEAMS)
  {
    RunIsSound(calls, states, n);
    var e := states[n];
    assert e.ListedIn(t);
    assert id in e.active <==> multiset(e.active)[id] > 0;
    assert id in e.teams[t] <==> multiset(e.teams[t])[id] > 0;
    if id < MAX_AIS {
      assert e.HostOk(id);
    }
  }

  // ---------------------------------------------------------------- what the protocol says about a history

  /** The start of a history in which the AI is wanted: INIT went well and nothing else came but
      ordinary events. */
  ghost predicate Welcome(trace: seq<Event>) {
    && |trace| >= 2
    && trace[0] == LibraryInit(true) && trace[1] == InitEvent(0)
    && forall i :: 2 <= i < |trace| ==> trace[i].Ordinary?
  }

  lemma {:induction false} NoWayBack(trace: seq<Event>, n: nat)
    requires n <= |trace| && !PhaseOf(trace).Wrong?
    ensures !PhaseOf(trace[..n]).Wrong?
    decreases |trace|
  {
    var k := |trace| - 1;
    if n <= k {
      assert trace[..k][..n] == trace[..n];
      NoWayBack(trace[..k], n);
    } else {
      assert trace[..n] == trace;
    }
  }

  lemma OneMoreWelcome(trace: seq<Event>, front: seq<Event>)
    requires |trace| > 0 && front == trace[..|trace| - 1]
    ensures Welcome(trace)
      <==> if |trace| == 2 then trace[0] == LibraryInit(true) && trace[1] == InitEvent(0)
           else Welcome(front) && trace[|trace| - 1].Ordinary?
  {
    assert forall i :: 0 <= i < |front| ==> front[i] == trace[i];
  }

  ghost predicate PhasesTell(trace: seq<Event>) {
    && (PhaseOf(trace).Fresh? <==> |trace| == 0)
    && (PhaseOf(trace).Opened? <==> |trace| == 1 && trace[0] == LibraryInit(true))
    && (PhaseOf(trace).Running? <==> Welcome(trace))
  }

  lemma {:induction false} WhenRunning(trace: seq<Event>)
    ensures PhasesTell(trace)
  {
    if |trace| > 0 {
      var front := trace[..|trace| - 1];
      WhenRunning(front);
      OneMoreWelcome(trace, front);
    }
  }

  /** An ordinary event comes right after a successful INIT and other ordinary events only: never
      after a kill flag, a failure or a release. */
  lemma OrdinaryOnlyWhileWanted(trace: seq<Event>, i: nat)
    requires !PhaseOf(trace).Wrong? && i < |trace| && trace[i].Ordinary?
    ensures Welcome(trace[..i])
  {
    NoWayBack(trace, i + 1);
    assert trace[..i + 1][..i] == trace[..i];
    WhenRunning(trace[..i]);
  }

  function Number(trace: seq<Event>, kind: Event -> bool): nat {
    if trace == [] then 0
    else Number(trace[..|trace| - 1], kind) + if kind(trace[|trace| - 1]) then 1 else 0
  }

  const OPENS := (e: Event) => e.LibraryInit? && e.ok
  const CLOSES := (e: Event) => e.LibraryRelease?
  const STARTS := (e: Event) => e.InitEvent? && e.error == 0
  const STOPS := (e: Event) => e.ReleaseEvent?

  predicate IsUp(p: Phase) {
    p.Opened? || p.Rejected? || p.Running? || p.Stopped? || p.Leaving?
  }

  predicate IsGreeted(p: Phase) {
    p.Running? || p.Stopped?
  }

  /** A library is released exactly as often as it was initialised, and told of its release exactly
      as often as INIT succeeded, up to what is still owed to a wrapper that is live. */
  lemma {:induction false} NothingIsOwed(trace: seq<Event>)
    requires !PhaseOf(trace).Wrong?
    ensures Number(trace, OPENS) == Number(trace, CLOSES) + if IsUp(PhaseOf(trace)) then 1 else 0
    ensures Number(trace, STARTS) == Number(trace, STOPS) + if IsGreeted(PhaseOf(trace)) then 1 else 0
    ensures Number(trace, OPENS) <= 1 && (PhaseOf(trace).Fresh? || PhaseOf(trace).Failed? ==> Number(trace, OPENS) == 0)
  {
    if trace != [] {
      NothingIsOwed(trace[..|trace| - 1]);
    }
  }

  // ---------------------------------------------------------------- the drain loop

  /** What DestroySkirmishAI takes for granted: a live wrapper that stands in both of its lists. */
  ghost predicate CanDestroy(e: Engine, id: nat) {
    && e.Sized() && id < MAX_AIS
    && var w := e.hosts[id];
       && w.id == id && 0 <= w.team < MAX_TEAMS
       && id in e.teams[w.team] && id in e.active
       && e.data[id].Some? && !e.data[id].value.isLua
       && (w.initialized || w.libraryInit ==> w.library.Some?)
  }

  /** The drain loop can always destroy the next AI, and comes to an end. */
  ghost predicate Drainable(e: Engine, starts: nat -> bool)
    decreases |e.active|
  {
    e.active != [] ==>
      var id := e.active[|e.active| - 1];
      && CanDestroy(e, id) && e.libs.Consistent()
      && |Destroyed(e, id, starts(id)).active| < |e.active|
      && Drainable(Destroyed(e, id, starts(id)), starts)
  }

  /** The loop of Kill: the last of the active list is destroyed until there is none. */
  ghost function Drained(e: Engine, starts: nat -> bool): Engine
    requires Drainable(e, starts)
    decreases |e.active|
  {
    if e.active == [] then e
    else
      var id := e.active[|e.active| - 1];
      Drained(Destroyed(e, id, starts(id)), starts)
  }

  lemma SoundCanDestroy(e: Engine, id: nat)
    requires e.Sound() && id in e.active
    ensures id < MAX_AIS && e.IsActive(id) && CanDestroy(e, id)
  {
    assert e.HostOk(id);
    assert e.ListedIn(e.hosts[id].team);
  }

  /** Exactly the live AIs can be destroyed: for a dead one the list of team -1 would be looked up. */
  lemma CanDestroyExactly(e: Engine, id: nat)
    requires e.Sound() && id < MAX_AIS
    ensures 0 <= e.hosts[id].team < MAX_TEAMS <==> e.IsActive(id)
    ensures CanDestroy(e, id) <==> e.IsActive(id)
  {
    assert e.HostOk(id);
    if e.IsActive(id) {
      SoundCanDestroy(e, id);
    }
  }

  lemma DestroyedFields(e: Engine, id: nat, interfaceStarts: bool, n: Engine)
    requires e.Sound() && id < MAX_AIS && e.IsActive(id) && n == Destroyed(e, id, interfaceStarts)
    ensures 0 <= e.hosts[id].team < MAX_TEAMS && n.Sound() && !n.IsActive(id)
    ensures var team := e.hosts[id].team;
      n.teams == e.teams[team := Erase(e.teams[team], id)] && n.active == Erase(e.active, id)
    ensures n.data == e.data && n.hosts == e.hosts[id := n.hosts[id]]
  {
    CanDestroyExactly(e, id);
    DestroyedStaysSound(e, id, interfaceStarts);
    KilledIsDead(e.At(id), interfaceStarts);
  }

  /** Only because the lists agree with the wrappers does the loop come to an end. */
  lemma {:induction false} SoundIsDrainable(e: Engine, starts: nat -> bool)
    requires e.Sound()
    ensures Drainable(e, starts)
    decreases |e.active|
  {
    if e.active != [] {
      var id := e.active[|e.active| - 1];
      SoundCanDestroy(e, id);
      DestroyedStaysSound(e, id, starts(id));
      SoundIsDrainable(Destroyed(e, id, starts(id)), starts);
    }
  }

  /** The last of the active list can be destroyed, and that leads to the next engine. */
  ghost predicate DestroysLast(e: Engine, starts: nat -> bool, next: Engine) {
    && e.active != []
    && var id := e.active[|e.active| - 1];
       CanDestroy(e, id) && next == Destroyed(e, id, starts(id))
  }

  /** The engines that the drain loop goes through. */
  ghost predicate IsDrainPath(path: seq<Engine>, starts: nat -> bool) {
    && path != [] && path[|path| - 1].active == []
    && forall n :: 0 <= n < |path| - 1 ==> DrainsAt(path, starts, n)
  }

  ghost predicate DrainsAt(path: seq<Engine>, starts: nat -> bool, n: nat)
    requires n < |path| - 1
  {
    path[n].libs.Consistent() && DestroysLast(path[n], starts, path[n + 1])
  }

  lemma {:induction false} DrainPath(e: Engine, starts: nat -> bool) returns (path: seq<Engine>)
    requires Drainable(e, starts)
    ensures IsDrainPath(path, starts) && path[0] == e && path[|path| - 1] == Drained(e, starts)
    decreases |e.active|
  {
    if e.active == [] {
      path := [e];
    } else {
      var id := e.active[|e.active| - 1];
      var next := Destroyed(e, id, starts(id));
      DrainOnce(e, starts, next);
      var rest := DrainPath(next, starts);
      path := [e] + rest;
      LongerDrainPath(e, next, rest, path, starts);
    }
  }

  lemma LongerDrainPath(e: Engine, next: Engine, rest: seq<Engine>, path: seq<Engine>, starts: nat -> bool)
    requires IsDrainPath(rest, starts) && rest[0] == next && path == [e] + rest
    requires e.libs.Consistent() && DestroysLast(e, starts, next)
    ensures IsDrainPath(path, starts)
  {
    forall n | 0 <= n < |path| - 1 ensures DrainsAt(path, starts, n) {
      assert n > 0 ==> DrainsAt(rest, starts, n - 1);
    }
  }

  lemma DrainPathGoesOn(path: seq<Engine>, starts: nat -> bool, n: nat)
    requires IsDrainPath(path, starts) && n < |path| && path[n].active != []
    ensures n + 1 < |path| && path[n].libs.Consistent() && DestroysLast(path[n], starts, path[n + 1])
  {
    assert n + 1 < |path| ==> DrainsAt(path, starts, n);
  }

  lemma DrainPathEnds(path: seq<Engine>, starts: nat -> bool, n: nat)
    requires IsDrainPath(path, starts) && n < |path| && path[n].active == []
    ensures n == |path| - 1
  {
    assert n + 1 < |path| ==> DrainsAt(path, starts, n);
  }

  lemma DrainableOnce(e: Engine, starts: nat -> bool, next: Engine)
    requires Drainable(e, starts) && DestroysLast(e, starts, next)
    ensures Drainable(next, starts) && |next.active| < |e.active|
  {
  }

  lemma DrainOnce(e: Engine, starts: nat -> bool, next: Engine)
    requires Drainable(e, starts) && DestroysLast(e, starts, next)
    ensures Drainable(next, starts) && Drained(e, starts) == Drained(next, starts) && |next.active| < |e.active|
  {
    DrainableOnce(e, starts, next);
  }

  lemma SoundNext(e: Engine, starts: nat -> bool) returns (next: Engine)
    requires e.Sound() && e.active != []
    ensures DestroysLast(e, starts, next) && next.Sound()
  {
    var id := e.active[|e.active| - 1];
    SoundCanDestroy(e, id);
    DestroyedStaysSound(e, id, starts(id));
    next := Destroyed(e, id, starts(id));
  }

  lemma {:induction false} DrainedIsEmpty(e: Engine, starts: nat -> bool)
    requires e.Sound() && Drainable(e, starts)
    ensures Drained(e, starts).Sound() && Drained(e, starts).active == []
    decreases |e.active|
  {
    if e.active != [] {
      var next := SoundNext(e, starts);
      DrainOnce(e, starts, next);
      DrainedIsEmpty(next, starts);
    }
  }

  lemma LastErased(s: seq<nat>)
    requires Once(s) && s != []
    ensures Erase(s, s[|s| - 1]) == s[..|s| - 1]
  {
    var k := |s| - 1;
    assert s == s[..k] + [s[k]];
    assert multiset(s)[s[k]] == multiset(s[..k])[s[k]] + 1;
    EraseLast(s[..k], s[k]);
  }

  lemma LastGoes(e: Engine, starts: nat -> bool, next: Engine)
    requires e.Sound() && DestroysLast(e, starts, next)
    ensures next.Sound() && next.active == e.active[..|e.active| - 1]
  {
    var id := e.active[|e.active| - 1];
    SoundCanDestroy(e, id);
    DestroyedFields(e, id, starts(id), next);
    LastErased(e.active);
  }

  /** The AIs go in the reverse order of the active list, and the rest is in order all the way. */
  lemma {:induction false} DrainGoesBackwards(path: seq<Engine>, starts: nat -> bool, n: nat)
    requires IsDrainPath(path, starts) && path[0].Sound() && n < |path|
    ensures path[n].Sound() && n <= |path[0].active| && path[n].active == path[0].active[..|path[0].active| - n]
  {
    if n > 0 {
      DrainGoesBackwards(path, starts, n - 1);
      assert DrainsAt(path, starts, n - 1);
      LastGoes(path[n - 1], starts, path[n]);
    }
  }

  lemma HeadIsIn(s: seq<nat>)
    ensures s != [] ==> s[0] in s
  {
  }

  /** At the end of any run the drain loop leaves no AI, no team with an AI, no load count and no
      library behind, so the library manager that is destroyed next is not in use. */
  lemma DrainLeavesNothing(calls: seq<Call>, states: seq<Engine>, n: nat, starts: nat -> bool)
    requires IsRun(calls, states) && n < |states|
    ensures Drainable(states[n], starts)
    ensures var e := Drained(states[n], starts);
      && e.active == [] && e.Sized()
      && (forall id: nat :: id < MAX_AIS ==> Dead(e.hosts[id]))
      && (forall t: nat :: t < MAX_TEAMS ==> e.teams[t] == [])
      && (forall key :: e.libs.Count(key) == 0)
      && forall name :: name in e.libs.slots && e.libs.slots[name].Some? ==> e.libs.slots[name].value.loaded == map[]
  {
    RunIsSound(calls, states, n);
    SoundIsDrainable(states[n], starts);
    DrainedIsEmpty(states[n], starts);
    var e := Drained(states[n], starts);
    forall id: nat | id < MAX_AIS ensures Dead(e.hosts[id]) {
      assert e.HostOk(id) && id !in e.active;
    }
    forall t: nat | t < MAX_TEAMS ensures e.teams[t] == [] {
      assert e.ListedIn(t);
      HeadIsIn(e.teams[t]);
    }
    forall key ensures e.libs.Count(key) == 0 {
      NobodyHolds(e.hosts, key);
    }
    forall name | name in e.libs.slots && e.libs.slots[name].Some? ensures e.libs.slots[name].value.loaded == map[] {
      var i := e.libs.slots[name].value;
      assert e.libs.ConsistentAt(name, i);
      forall key ensures key !in i.loaded {
        assert e.libs.Count(key) == 0;
      }
    }
  }

  // ---------------------------------------------------------------- creating and destroying

  lemma NoLibraryChangesNoCount(e: Engine, n: Engine, id: nat, key: Key)
    requires e.Sound() && n.Sound() && id < MAX_AIS && !e.IsActive(id) && !n.IsActive(id)
    requires n.hosts == e.hosts[id := n.hosts[id]]
    ensures n.libs.Count(key) == e.libs.Count(key)
  {
    assert e.HostOk(id) && n.HostOk(id);
    HoldersChange(e.hosts, id, n.hosts[id], key);
  }

  lemma CreatedFields(e: Engine, id: nat, a: Answers, n: Engine)
    requires e.Sound() && id < MAX_AIS && !e.IsActive(id)
    requires e.data[id].Some? && e.data[id].value.team < MAX_TEAMS && !e.data[id].value.isLua
    requires n == Created(e, id, a)
    ensures n.Sound() && n.IsActive(id) && n.hosts[id].team == e.data[id].value.team
    ensures var team := e.data[id].value.team;
      n.teams == e.teams[team := e.teams[team] + [id]] && n.active == e.active + [id]
    ensures n.data == e.data && n.hosts == e.hosts[id := n.hosts[id]]
  {
    CreatedStaysSound(e, id, a);
    StartedIsLive(e.At(id).(host := PreInited(id, e.data[id].value.team, a.key)), a);
  }

  lemma ListsBack(e: Engine, made: Engine, n: Engine, id: nat, team: nat)
    requires e.Sound() && id < MAX_AIS && !e.IsActive(id) && team < MAX_TEAMS
    requires made.teams == e.teams[team := e.teams[team] + [id]] && made.active == e.active + [id]
    requires n.teams == made.teams[team := Erase(made.teams[team], id)] && n.active == Erase(made.active, id)
    ensures n.active == e.active && n.teams == e.teams
  {
    assert e.ListedIn(team);
    EraseLast(e.active, id);
    EraseLast(e.teams[team], id);
  }

  /** Destroying an AI right after it was created gives all lists, data and load counts back. */
  lemma DestroyUndoesCreate(e: Engine, id: nat, a: Answers, interfaceStarts: bool, made: Engine, n: Engine)
    requires e.Sound() && id < MAX_AIS && !e.IsActive(id)
    requires e.data[id].Some? && e.data[id].value.team < MAX_TEAMS && !e.data[id].value.isLua
    requires made == Created(e, id, a) && made.Sized() && made.IsActive(id) && n == Destroyed(made, id, interfaceStarts)
    ensures n.active == e.active && n.teams == e.teams && n.data == e.data
    ensures forall key :: n.libs.Count(key) == e.libs.Count(key)
  {
    CreatedFields(e, id, a, made);
    DestroyedFields(made, id, interfaceStarts, n);
    ListsBack(e, made, n, id, e.data[id].value.team);
    forall key ensures n.libs.Count(key) == e.libs.Count(key) {
      NoLibraryChangesNoCount(e, n, id, key);
    }
  }
}
