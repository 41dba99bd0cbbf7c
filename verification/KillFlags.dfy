/**
 Who destroys the AIs: each kill flag and each wish to reload sends a message, and once the server has
 returned it the network code calls DestroySkirmishAI, without asking whether the AI is live still.
 */
module KillFlags {
  import opened Instances

  /** The messages that are underway, in order. Those for Lua AIs are left out, as nothing is destroyed for them. */
  datatype Net = Net(engine: Engine, dying: seq<nat>)

  datatype Move =
    | Do(call: Call)
    | AskReload(id: nat)
    | Deliver(interfaceStarts: bool)

  /** The flag that InitLibrary or SendInitEvent sets is the last that happens to an AI in its creation. */
  predicate EndsFlagged(trace: seq<Event>) {
    trace != [] && trace[|trace| - 1].Flagged?
  }

  /** The messages that a move sends. */
  ghost function Sent(e: Engine, m: Move): seq<nat>
    requires Possible(e, m)
  {
    match m
    case Do(Create(id, a)) =>
      if !e.data[id].value.isLua && EndsFlagged(Created(e, id, a).hosts[id].trace) then [id] else []
    case Do(SetKillFlag(id, _)) => if e.data[id].value.isLua then [] else [id]
    case AskReload(id) => [id]
    case _ => []
  }

  /** The command that reloads AIs refuses Lua AIs. */
  ghost predicate Possible(e: Engine, m: Move) {
    && e.Sized()
    && match m
       case Do(Create(id, _)) => id < MAX_AIS && e.data[id].Some? && e.data[id].value.team < MAX_TEAMS
       case Do(SetKillFlag(id, _)) => id < MAX_AIS && e.data[id].Some?
       case AskReload(id) => id < MAX_AIS && e.data[id].Some? && !e.data[id].value.isLua
       case _ => true
  }

  /** Whether a move can be made. A message is delivered when it is the first, and needs an AI that can be destroyed. */
  ghost predicate CanMove(n: Net, m: Move) {
    && Possible(n.engine, m)
    && match m
       case Do(call) => !call.Destroy? && Permitted(n.engine, call)
       case AskReload(_) => true
       case Deliver(_) => n.dying != [] && CanDestroy(n.engine, n.dying[0])
  }

  ghost function Moved(n: Net, m: Move): Net
    requires CanMove(n, m)
  {
    match m
    case Do(call) => Net(Step(n.engine, call), n.dying + Sent(n.engine, m))
    case AskReload(id) => Net(n.engine, n.dying + [id])
    case Deliver(interfaceStarts) => Net(Destroyed(n.engine, n.dying[0], interfaceStarts), n.dying[1..])
  }

  /** A kill flag is set, and a reload is asked for, only for a live AI that no message is underway for. */
  ghost predicate Guarded(n: Net, m: Move)
    requires Possible(n.engine, m)
  {
    match m
    case Do(SetKillFlag(id, _)) => n.engine.data[id].value.isLua || (n.engine.IsActive(id) && id !in n.dying)
    case AskReload(id) => n.engine.IsActive(id) && id !in n.dying
    case _ => true
  }

  // ---------------------------------------------------------------- which messages can be handled

  /** All the messages can be handled, one after the other. */
  ghost predicate Deliverable(e: Engine, dying: seq<nat>, starts: nat -> bool)
    decreases |dying|
  {
    dying != [] ==>
      var id := dying[0];
      CanDestroy(e, id) && Deliverable(Destroyed(e, id, starts(id)), dying[1..], starts)
  }

  /** One message for each of some live AIs. */
  ghost predicate OneEach(e: Engine, dying: seq<nat>) {
    |e.hosts| == MAX_AIS && Once(dying) && forall id :: id in dying ==> id < MAX_AIS && e.IsActive(id)
  }

  /** In any engine that is in order the messages can be handled exactly if they are for live AIs, once each. */
  lemma {:induction false} DeliverableExactly(e: Engine, dying: seq<nat>, starts: nat -> bool)
    requires e.Sound()
    ensures Deliverable(e, dying, starts) <==> OneEach(e, dying)
    decreases |dying|
  {
    if dying != [] {
      var id := dying[0];
      assert id in dying;
      if id < MAX_AIS {
        CanDestroyExactly(e, id);
        if e.IsActive(id) {
          FirstOfEach(e, dying, starts(id));
          DestroyedStaysSound(e, id, starts(id));
          DeliverableExactly(Destroyed(e, id, starts(id)), dying[1..], starts);
        }
      }
    }
  }

  // ---------------------------------------------------------------- which runs keep them so

  ghost predicate OneEachIn(n: Net) {
    OneEach(n.engine, n.dying)
  }

  ghost predicate Follows(before: Net, m: Move, n: Net) {
    CanMove(before, m) && n == Moved(before, m)
  }

  /** A move leaves the messages in order exactly if it is guarded. */
  lemma MoveKeepsOrderExactly(before: Net, m: Move, n: Net)
    requires before.engine.Sound() && OneEachIn(before) && Follows(before, m, n)
    ensures OneEachIn(n) <==> Guarded(before, m)
  {
    match m
    case Do(call) =>
      if call.SetKillFlag? {
        FlagKeepsOrderExactly(before, call, n);
      } else if call.Create? {
        CreateKeepsOrder(before, call, n);
      } else {
        CallLeavesOrder(before, call, n);
      }
    case AskReload(id) => OneMoreMessage(before.engine, before.dying, id);
    case Deliver(interfaceStarts) =>
      CanDestroyExactly(before.engine, before.dying[0]);
      FirstOfEach(before.engine, before.dying, interfaceStarts);
  }

  /** A run from an engine without AIs and with no message underway. */
  ghost predicate IsNetRun(moves: seq<Move>, nets: seq<Net>) {
    && |nets| == |moves| + 1
    && Initial(nets[0].engine) && nets[0].dying == []
    && forall i :: 0 <= i < |moves| ==> Follows(nets[i], moves[i], nets[i + 1])
  }

  /** The engine is in order throughout every run, guarded or not, up to a message that cannot be handled. */
  lemma {:induction false} NetRunIsSound(moves: seq<Move>, nets: seq<Net>, n: nat)
    requires IsNetRun(moves, nets) && n <= |moves|
    ensures nets[n].engine.Sound()
  {
    if n == 0 {
      InitialIsSound(nets[0].engine);
    } else {
      NetRunIsSound(moves, nets, n - 1);
      var before := nets[n - 1];
      assert Follows(before, moves[n - 1], nets[n]);
      match moves[n - 1]
      case Do(call) => StepStaysSound(before.engine, call);
      case AskReload(_) =>
      case Deliver(interfaceStarts) =>
        CanDestroyExactly(before.engine, before.dying[0]);
        DestroyedStaysSound(before.engine, before.dying[0], interfaceStarts);
    }
  }

  ghost predicate GuardedAt(moves: seq<Move>, nets: seq<Net>, i: nat)
    requires i < |moves| && IsNetRun(moves, nets)
  {
    Follows(nets[i], moves[i], nets[i + 1]) && Guarded(nets[i], moves[i])
  }

  ghost predicate GuardedUpTo(moves: seq<Move>, nets: seq<Net>, n: nat)
    requires n <= |moves| && IsNetRun(moves, nets)
  {
    forall i :: 0 <= i < n ==> GuardedAt(moves, nets, i)
  }

  lemma {:induction false} OneEachUpToGuarded(moves: seq<Move>, nets: seq<Net>, n: nat)
    requires IsNetRun(moves, nets) && n <= |moves|
    ensures (forall i :: 0 <= i <= n ==> OneEachIn(nets[i])) <==> GuardedUpTo(moves, nets, n)
  {
    if n == 0 {
      assert nets[0].engine.Sized() && multiset(nets[0].dying) == multiset{};
    } else {
      OneEachUpToGuarded(moves, nets, n - 1);
      NetRunIsSound(moves, nets, n - 1);
      assert Follows(nets[n - 1], moves[n - 1], nets[n]);
      if OneEachIn(nets[n - 1]) {
        MoveKeepsOrderExactly(nets[n - 1], moves[n - 1], nets[n]);
      }
      assert GuardedUpTo(moves, nets, n) <==> GuardedUpTo(moves, nets, n - 1) && GuardedAt(moves, nets, n - 1);
    }
  }

  ghost predicate DeliverableIn(n: Net, starts: nat -> bool) {
    Deliverable(n.engine, n.dying, starts)
  }

  /**
   All messages that are underway can be handled at every time of a run exactly if every kill flag and every
   reload in it was for a live AI that no message was underway for.
   */
  lemma DeliverableExactlyWhenGuarded(moves: seq<Move>, nets: seq<Net>, starts: nat -> bool)
    requires IsNetRun(moves, nets)
    ensures (forall i :: 0 <= i < |nets| ==> DeliverableIn(nets[i], starts)) <==> GuardedUpTo(moves, nets, |moves|)
  {
    OneEachUpToGuarded(moves, nets, |moves|);
    forall i | 0 <= i < |nets| ensures DeliverableIn(nets[i], starts) <==> OneEachIn(nets[i]) {
      NetRunIsSound(moves, nets, i);
      DeliverableExactly(nets[i].engine, nets[i].dying, starts);
    }
  }

  // ---------------------------------------------------------------- no flagged AI is forgotten

  /** For every live AI that was flagged a message is underway. */
  ghost predicate NoneForgotten(n: Net) {
    |n.engine.hosts| == MAX_AIS && forall id: nat :: id < MAX_AIS ==> NotForgotten(n, id)
  }

  ghost predicate NotForgotten(n: Net, id: nat)
    requires id < |n.engine.hosts|
  {
    n.engine.IsActive(id) && LastReason(n.engine.hosts[id].trace).Some? ==> id in n.dying
  }

  lemma HostAfter(e: Engine, call: Call, j: nat)
    requires e.Sound() && Permitted(e, call) && !call.Destroy? && j < MAX_AIS && j != call.id
    ensures Step(e, call).Sized() && Step(e, call).hosts[j] == e.hosts[j]
  {
  }

  lemma CreatedIsNotForgotten(before: Net, call: Call, n: Net)
    requires before.engine.Sound() && call.Create? && Follows(before, Do(call), n) && NoneForgotten(before)
    ensures n.engine.Sized() && NotForgotten(n, call.id)
  {
    var e := before.engine;
    var data := e.data[call.id].value;
    if !data.isLua {
      var l := e.At(call.id).(host := PreInited(call.id, data.team, call.answers.key));
      StartedTells(l, call.answers);
      var start := StartOf(Started(l, call.answers).host.library, l.flag, call.answers);
      FirstReason(start, call.answers);
      EndsFlaggedExactly(start, call.answers);
    } else {
      assert NotForgotten(before, call.id);
    }
  }

  lemma EndsFlaggedExactly(start: Start, a: Answers)
    ensures EndsFlagged(FirstEvents(start, a)) <==> LastReason(FirstEvents(start, a)).Some?
  {
    FirstReason(start, a);
    if start.Welcomed? && a.ordinary > 0 {
      var trace := FirstEvents(start, a);
      assert trace[|trace| - 1] == Ordinaries(a.ordinary)[a.ordinary - 1];
    }
  }

  lemma CallForgetsNone(before: Net, call: Call, n: Net)
    requires before.engine.Sound() && Follows(before, Do(call), n) && NoneForgotten(before)
    ensures NoneForgotten(n)
  {
    forall j: nat | j < MAX_AIS ensures n.engine.Sized() && NotForgotten(n, j) {
      assert NotForgotten(before, j);
      if j != call.id {
        HostAfter(before.engine, call, j);
      } else if call.Create? {
        CreatedIsNotForgotten(before, call, n);
      } else if call.SendEvent? {
        EventReachesRunning(before.engine, j);
        ReasonAfter(before.engine.hosts[j].trace, Ordinary);
      }
    }
  }

  lemma MoveForgetsNone(before: Net, m: Move, n: Net)
    requires before.engine.Sound() && Follows(before, m, n) && NoneForgotten(before)
    ensures NoneForgotten(n)
  {
    match m
    case Do(call) => CallForgetsNone(before, call, n);
    case AskReload(_) =>
      forall j: nat | j < MAX_AIS ensures NotForgotten(n, j) {
        assert NotForgotten(before, j);
      }
    case Deliver(interfaceStarts) =>
      var e, first := before.engine, before.dying[0];
      CanDestroyExactly(e, first);
      forall j: nat | j < MAX_AIS ensures n.engine.Sized() && NotForgotten(n, j) {
        assert NotForgotten(before, j);
        OnlyOneLess(e, first, interfaceStarts, j);
        assert before.dying == [first] + n.dying;
      }
  }

  lemma NobodyToForget(n: Net)
    requires Initial(n.engine)
    ensures NoneForgotten(n)
  {
  }

  lemma RunBegins(moves: seq<Move>, nets: seq<Net>)
    requires IsNetRun(moves, nets)
    ensures NoneForgotten(nets[0])
  {
    NobodyToForget(nets[0]);
  }

  lemma RunGoesOn(moves: seq<Move>, nets: seq<Net>, i: nat, before: Net, n: Net)
    requires IsNetRun(moves, nets) && i < |moves| && before == nets[i] && n == nets[i + 1]
    ensures before.engine.Sound() && Follows(before, moves[i], n)
  {
    NetRunIsSound(moves, nets, i);
  }

  lemma RunForgetsNone(moves: seq<Move>, nets: seq<Net>, i: nat)
    requires IsNetRun(moves, nets) && i < |moves| && NoneForgotten(nets[i])
    ensures NoneForgotten(nets[i + 1])
  {
    RunGoesOn(moves, nets, i, nets[i], nets[i + 1]);
    MoveForgetsNone(nets[i], moves[i], nets[i + 1]);
  }

  /** Throughout every run a message is underway for each live AI that was flagged, be it in its creation or later. */
  lemma {:induction false} FlaggedIsPending(moves: seq<Move>, nets: seq<Net>, n: nat)
    requires IsNetRun(moves, nets) && n <= |moves|
    ensures NoneForgotten(nets[n])
  {
    if n == 0 {
      RunBegins(moves, nets);
    } else {
      FlaggedIsPending(moves, nets, n - 1);
      RunForgetsNone(moves, nets, n - 1);
    }
  }

  // ---------------------------------------------------------------- two kill flags

  /** Two kill flags for one live AI: the first message destroys it, and the second finds it with team -1. */
  lemma TwoFlagsDestroyTwice(n: Net, id: nat, reason: int, other: int, interfaceStarts: bool)
    returns (first: Net, second: Net, last: Net)
    requires n.engine.Sound() && n.dying == [] && id < MAX_AIS && n.engine.IsActive(id)
    ensures Follows(n, Do(SetKillFlag(id, reason)), first)
    ensures Follows(first, Do(SetKillFlag(id, other)), second)
    ensures Follows(second, Deliver(interfaceStarts), last)
    ensures last.dying == [id] && last.engine.Sized() && last.engine.hosts[id].team == -1
    ensures !CanMove(last, Deliver(interfaceStarts))
  {
    FlagLeavesLive(n.engine, id, reason);
    first := Net(FlaggedForKill(n.engine, id, reason), [id]);
    FlagLeavesLive(first.engine, id, other);
    second := Net(FlaggedForKill(first.engine, id, other), [id, id]);
    DestroyLeavesDead(second.engine, id, interfaceStarts);
    last := Net(Destroyed(second.engine, id, interfaceStarts), [id]);
    assert [id, id][1..] == [id];
  }

  lemma FlagLeavesLive(e: Engine, id: nat, reason: int)
    requires e.Sound() && id < MAX_AIS && e.IsActive(id)
    ensures e.data[id].Some? && !e.data[id].value.isLua
    ensures var next := FlaggedForKill(e, id, reason); next.Sound() && next.IsActive(id) && next.data == e.data
  {
    assert e.HostOk(id);
    FlaggedStaysSound(e, id, reason);
  }

  lemma DestroyLeavesDead(e: Engine, id: nat, interfaceStarts: bool)
    requires e.Sound() && id < MAX_AIS && e.IsActive(id)
    ensures CanDestroy(e, id)
    ensures var next := Destroyed(e, id, interfaceStarts);
      next.Sized() && !next.IsActive(id) && next.hosts[id].team == -1 && !CanDestroy(next, id)
  {
    CanDestroyExactly(e, id);
    DestroyedStaysSound(e, id, interfaceStarts);
    OnlyOneLess(e, id, interfaceStarts, id);
    var next := Destroyed(e, id, interfaceStarts);
    CanDestroyExactly(next, id);
    assert next.HostOk(id);
  }

  // ---------------------------------------------------------------- what a move does to the messages

  lemma FlagKeepsOrderExactly(before: Net, call: Call, n: Net)
    requires before.engine.Sound() && OneEachIn(before) && Follows(before, Do(call), n) && call.SetKillFlag?
    ensures OneEachIn(n) <==> Guarded(before, Do(call))
  {
    CallLeavesOrder(before, call, n);
    LiveAfter(before.engine, call, call.id);
    if !before.engine.data[call.id].value.isLua {
      OneMoreMessage(n.engine, before.dying, call.id);
    }
  }

  /** An AI that fails in its creation was not live before, so no message is underway for it. */
  lemma CreateKeepsOrder(before: Net, call: Call, n: Net)
    requires before.engine.Sound() && OneEachIn(before) && Follows(before, Do(call), n) && call.Create?
    ensures OneEachIn(n)
  {
    CallLeavesOrder(before, call, n);
    if Sent(before.engine, Do(call)) != [] {
      LiveAfter(before.engine, call, call.id);
      OneMoreMessage(n.engine, before.dying, call.id);
    }
  }

  /** The messages sent before a call are in order after it. */
  lemma CallLeavesOrder(before: Net, call: Call, n: Net)
    requires before.engine.Sound() && OneEachIn(before) && Follows(before, Do(call), n)
    ensures n.engine.Sized() && OneEach(n.engine, before.dying)
  {
    StepStaysSound(before.engine, call);
    forall j: nat | j < MAX_AIS && before.engine.IsActive(j) ensures n.engine.IsActive(j) {
      LiveAfter(before.engine, call, j);
    }
    MessagesAfter(before.engine, n.engine, before.dying);
  }

  lemma LiveAfter(e: Engine, call: Call, j: nat)
    requires e.Sound() && Permitted(e, call) && !call.Destroy? && j < MAX_AIS
    ensures Step(e, call).Sized()
    ensures Step(e, call).IsActive(j)
            <==> e.IsActive(j) || (call.Create? && j == call.id && !e.data[j].value.isLua)
  {
    if call.Create? {
      var data := e.data[call.id].value;
      StartedIsLive(e.At(call.id).(host := PreInited(call.id, data.team, call.answers.key)), call.answers);
    }
  }

  lemma FirstOfEach(e: Engine, dying: seq<nat>, interfaceStarts: bool)
    requires e.Sound() && dying != [] && dying[0] < MAX_AIS && e.IsActive(dying[0])
    ensures OneEach(e, dying) <==> OneEach(Destroyed(e, dying[0], interfaceStarts), dying[1..])
  {
    var id := dying[0];
    var next := Destroyed(e, id, interfaceStarts);
    OnlyOneLess(e, id, interfaceStarts, id);
    forall j: nat | j < MAX_AIS ensures next.IsActive(j) <==> e.IsActive(j) && j != id {
      OnlyOneLess(e, id, interfaceStarts, j);
    }
    RestOf(e, next, dying);
  }

  lemma OnlyOneLess(e: Engine, id: nat, interfaceStarts: bool, j: nat)
    requires e.Sound() && id < MAX_AIS && e.IsActive(id) && j < MAX_AIS
    ensures Destroyed(e, id, interfaceStarts).Sized()
    ensures Destroyed(e, id, interfaceStarts).IsActive(j) <==> e.IsActive(j) && j != id
  {
    DestroyedStaysSound(e, id, interfaceStarts);
    CanDestroyExactly(e, id);
    var w := Killed(e.At(id), interfaceStarts).host;
    assert w.id == -1;
    assert Destroyed(e, id, interfaceStarts).hosts == e.hosts[id := w];
  }

  lemma RestOf(e: Engine, next: Engine, dying: seq<nat>)
    requires e.Sized() && next.Sized() && dying != [] && dying[0] < MAX_AIS && e.IsActive(dying[0])
    requires forall j: nat :: j < MAX_AIS ==> (next.IsActive(j) <==> e.IsActive(j) && j != dying[0])
    ensures OneEach(e, dying) <==> OneEach(next, dying[1..])
  {
    OnceFirst(dying);
    assert dying == [dying[0]] + dying[1..];
    assert forall j :: j in dying <==> j == dying[0] || j in dying[1..];
  }

  lemma OneMoreMessage(e: Engine, dying: seq<nat>, id: nat)
    requires OneEach(e, dying) && id < MAX_AIS
    ensures OneEach(e, dying + [id]) <==> e.IsActive(id) && id !in dying
  {
    OnceLast(dying, id);
    assert id in dying + [id];
  }

  lemma MessagesAfter(e: Engine, next: Engine, dying: seq<nat>)
    requires e.Sized() && next.Sized()
    requires forall j: nat :: j < MAX_AIS && e.IsActive(j) ==> next.IsActive(j)
    ensures OneEach(e, dying) ==> OneEach(next, dying)
  {
  }

  lemma OnceFirst(s: seq<nat>)
    requires s != []
    ensures Once(s) <==> Once(s[1..]) && s[0] !in s[1..]
  {
    var x, rest := s[0], s[1..];
    assert s == [x] + rest;
    assert multiset(s) == multiset{x} + multiset(rest);
    assert x in rest <==> multiset(rest)[x] > 0;
    if Once(rest) && x !in rest {
      forall y ensures multiset(s)[y] <= 1 {
        assert multiset(rest)[y] <= 1;
      }
    }
    if Once(s) {
      assert multiset(s)[x] <= 1;
      forall y ensures multiset(rest)[y] <= 1 {
        assert multiset(s)[y] <= 1;
      }
    }
  }

  lemma OnceLast(s: seq<nat>, x: nat)
    ensures Once(s + [x]) <==> Once(s) && x !in s
  {
    assert x in s <==> multiset(s)[x] > 0;
    if Once(s + [x]) {
      assert multiset(s + [x])[x] <= 1;
      forall y ensures multiset(s)[y] <= 1 {
        assert multiset(s + [x])[y] <= 1;
      }
    }
    if Once(s) && x !in s {
      AppendOnce(s, x);
    }
  }
}
