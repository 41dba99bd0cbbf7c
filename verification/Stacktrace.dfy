/**
 The stack trace translator's batching: frames are grouped by module, because one addr2line
 run serves a whole module, and the translations are scattered back to their frames.
 */
module Stacktrace {
  import opened Wrappers

  datatype Frame = Frame(modul: string, address: string)

  /** A frame's number in the trace, and its address. */
  type Entry = (nat, string)

  /** What a frame becomes: its module, address, file and line. */
  datatype Translated = Translated(modul: string, address: string, file: string, line: string)

  // ---------------------------------------------------------------- grouping

  /** The entries of one module among the frames, in their order in the trace. */
  function EntriesOf(frames: seq<Frame>, modul: string): seq<Entry> {
    if frames == [] then []
    else
      var front, last := frames[..|frames| - 1], frames[|frames| - 1];
      EntriesOf(front, modul) + (if last.modul == modul then [(|front|, last.address)] else [])
  }

  ghost predicate IsGrouping(groups: map<string, seq<Entry>>, frames: seq<Frame>) {
    && (forall m :: m in groups ==> groups[m] == EntriesOf(frames, m) && groups[m] != [])
    && (forall i :: 0 <= i < |frames| ==> frames[i].modul in groups)
  }

  method CollectStackframes(found: seq<Frame>) returns (frames: map<string, seq<Entry>>, frameCount: nat)
    ensures IsGrouping(frames, found) && frameCount == |found|
  {
    frames, frameCount := map[], 0;
    for i := 0 to |found|
      invariant IsGrouping(frames, found[..i]) && frameCount == i
    {
      var f := found[i];
      assert found[..i + 1][..i] == found[..i];
      GroupsWithoutFrame(found[..i], f.modul, frames);
      var group := if f.modul in frames then frames[f.modul] else [];
      frames := frames[f.modul := group + [(frameCount, f.address)]];
      frameCount := frameCount + 1;
    }
    assert found[..|found|] == found;
  }

  lemma {:induction false} NoEntries(frames: seq<Frame>, modul: string)
    requires forall i :: 0 <= i < |frames| ==> frames[i].modul != modul
    ensures EntriesOf(frames, modul) == []
  {
    if frames != [] {
      NoEntries(frames[..|frames| - 1], modul);
    }
  }

  lemma GroupsWithoutFrame(frames: seq<Frame>, modul: string, groups: map<string, seq<Entry>>)
    requires IsGrouping(groups, frames)
    ensures modul !in groups ==> EntriesOf(frames, modul) == []
  {
    if modul !in groups {
      NoEntries(frames, modul);
    }
  }

  /** A module's entries are exactly its frames, each once and in order. */
  lemma {:induction false} EntriesAreFrames(frames: seq<Frame>, modul: string)
    ensures var es := EntriesOf(frames, modul);
            && (forall k :: 0 <= k < |es| ==> es[k].0 < |frames| && frames[es[k].0] == Frame(modul, es[k].1))
            && (forall j, k :: 0 <= j < k < |es| ==> es[j].0 < es[k].0)
            && (forall i :: 0 <= i < |frames| && frames[i].modul == modul ==> (i, frames[i].address) in es)
  {
    if frames != [] {
      var n := |frames| - 1;
      var front, es, all := frames[..n], EntriesOf(frames[..n], modul), EntriesOf(frames, modul);
      EntriesAreFrames(front, modul);
      forall i | 0 <= i < |frames| && frames[i].modul == modul
        ensures (i, frames[i].address) in all
      {
        if i < n {
          assert (i, front[i].address) in es;
        } else {
          assert all[|all| - 1] == (i, frames[i].address);
        }
      }
    }
  }

  // ---------------------------------------------------------------- translating

  /**
   The outside world: which debug file serves a module, the lines that one addr2line run prints for
   a list of addresses, taken within the .text section or not, and how such a line is split and cut
   into file and line number.
   */
  datatype World = World(
    debugFile: string -> Option<string>,
    addr2line: (bool, string, seq<string>) -> seq<string>,
    fixup: (string, string, string) -> Translated)

  /** The lines for a module: addresses in a library count from its .text section. */
  function Lines(w: World, modul: string, file: string, addresses: seq<string>): seq<string> {
    w.addr2line(IsLibrary(modul), file, addresses)
  }

  predicate IsLibrary(modul: string) {
    |modul| >= 4 && modul[|modul| - 4..] == ".dll"
  }

  /** A module is a library exactly if its name is some other name with .dll behind it. */
  lemma LinesOf(w: World, modul: string, file: string, addresses: seq<string>, base: string)
    ensures Lines(w, base + ".dll", file, addresses) == w.addr2line(true, file, addresses)
    ensures (forall other: string :: modul != other + ".dll") ==> Lines(w, modul, file, addresses) == w.addr2line(false, file, addresses)
  {
    assert (base + ".dll")[|base|..] == ".dll";
    if IsLibrary(modul) {
      assert modul == modul[..|modul| - 4] + ".dll";
    }
  }

  function Addresses(es: seq<Entry>): seq<string> {
    seq(|es|, k requires 0 <= k < |es| => es[k].1)
  }

  function Unknown(f: Frame): Translated {
    Translated(f.modul, f.address, "??", "0")
  }

  /** translate_module_addresses: addresses and printed lines are paired up to the shorter of the two lists. */
  method TranslateModuleAddresses(w: World, modul: string, file: string, addresses: seq<string>) returns (r: seq<Translated>)
    ensures var lines := Lines(w, modul, file, addresses);
            && |r| == (if |lines| < |addresses| then |lines| else |addresses|)
            && forall k :: 0 <= k < |r| ==> r[k] == w.fixup(modul, addresses[k], lines[k])
  {
    var lines := if IsLibrary(modul) then w.addr2line(true, file, addresses) else w.addr2line(false, file, addresses);
    r := [];
    var k := 0;
    while k < |addresses| && k < |lines|
      invariant |r| == k <= |addresses| && k <= |lines|
      invariant forall j :: 0 <= j < k ==> r[j] == w.fixup(modul, addresses[j], lines[j])
    {
      r := r + [w.fixup(modul, addresses[k], lines[k])];
      k := k + 1;
    }
  }

  /** What belongs in a slot: k is the place of the frame among the frames of its module. */
  ghost predicate IsSlot(slot: Option<Translated>, w: World, frames: seq<Frame>, i: nat, k: nat)
    requires i < |frames|
  {
    var f := frames[i];
    var es := EntriesOf(frames, f.modul);
    k < |es| && es[k].0 == i &&
    match w.debugFile(f.modul)
    case None => slot == Some(Unknown(f))
    case Some(file) =>
      var lines := Lines(w, f.modul, file, Addresses(es));
      slot == if k < |lines| then Some(w.fixup(f.modul, f.address, lines[k])) else None
  }

  ghost predicate IsTranslation(slot: Option<Translated>, w: World, frames: seq<Frame>, i: nat)
    requires i < |frames|
  {
    exists k: nat :: IsSlot(slot, w, frames, i, k)
  }

  ghost predicate IsTrace(trace: seq<Option<Translated>>, w: World, frames: seq<Frame>) {
    |trace| == |frames| && forall i :: 0 <= i < |frames| ==> IsTranslation(trace[i], w, frames, i)
  }

  /** The values for the first entries of a module: all of them, or as many as lines were printed. */
  ghost predicate AreValues(values: seq<Option<Translated>>, w: World, es: seq<Entry>, m: string) {
    |values| <= |es| &&
    match w.debugFile(m)
    case None => |values| == |es| && forall k :: 0 <= k < |es| ==> values[k] == Some(Unknown(Frame(m, es[k].1)))
    case Some(file) =>
      var lines := Lines(w, m, file, Addresses(es));
      && |values| == (if |lines| < |es| then |lines| else |es|)
      && forall k :: 0 <= k < |values| ==> values[k] == Some(w.fixup(m, es[k].1, lines[k]))
  }

  method TranslateModule(w: World, m: string, es: seq<Entry>) returns (values: seq<Option<Translated>>)
    ensures AreValues(values, w, es, m)
  {
    match w.debugFile(m) {
      case Some(file) =>
        var translated := TranslateModuleAddresses(w, m, file, Addresses(es));
        values := seq(|translated|, k requires 0 <= k < |translated| => Some(translated[k]));
      case None =>
        values := seq(|es|, k requires 0 <= k < |es| => Some(Unknown(Frame(m, es[k].1))));
    }
  }

  /** Modules still to do have empty slots, the others have their translations. */
  ghost predicate IsPartial(trace: seq<Option<Translated>>, w: World, frames: seq<Frame>, todo: set<string>) {
    |trace| == |frames| && forall i :: 0 <= i < |frames| ==>
      if frames[i].modul in todo then trace[i] == None else IsTranslation(trace[i], w, frames, i)
  }

  lemma EntriesInOrder(frames: seq<Frame>, m: string, es: seq<Entry>)
    requires es == EntriesOf(frames, m)
    ensures forall k :: 0 <= k < |es| ==> es[k].0 < |frames|
    ensures forall j, k :: 0 <= j < k < |es| ==> es[j].0 < es[k].0
  {
    EntriesAreFrames(frames, m);
  }

  /** The loops of translate_, over the modules in any order. */
  method Translate(w: World, groups: map<string, seq<Entry>>, frameCount: nat, ghost frames: seq<Frame>)
    returns (trace: seq<Option<Translated>>)
    requires IsGrouping(groups, frames) && frameCount == |frames|
    ensures IsTrace(trace, w, frames)
  {
    trace := seq(frameCount, _ => None);
    var todo := groups.Keys;
    while todo != {}
      invariant todo <= groups.Keys && IsPartial(trace, w, frames, todo)
    {
      var m :| m in todo;
      var es := groups[m];
      assert m in groups && es == EntriesOf(frames, m);
      EntriesInOrder(frames, m, es);
      var values := TranslateModule(w, m, es);
      ghost var before := trace;
      trace := Scatter(trace, es, values);
      ScatteredSlots(before, trace, w, frames, m, values);
      todo := todo - {m};
    }
  }

  /** Writes each value to the slot that its entry names. */
  method Scatter(trace: seq<Option<Translated>>, es: seq<Entry>, values: seq<Option<Translated>>) returns (r: seq<Option<Translated>>)
    requires |values| <= |es| && forall k :: 0 <= k < |es| ==> es[k].0 < |trace|
    requires forall j, k :: 0 <= j < k < |es| ==> es[j].0 < es[k].0
    ensures |r| == |trace|
    ensures forall k :: 0 <= k < |values| ==> r[es[k].0] == values[k]
    ensures forall i :: 0 <= i < |trace| && (forall k :: 0 <= k < |values| ==> es[k].0 != i) ==> r[i] == trace[i]
  {
    r := trace;
    for n := 0 to |values|
      invariant |r| == |trace|
      invariant forall k :: 0 <= k < n ==> r[es[k].0] == values[k]
      invariant forall i :: 0 <= i < |trace| && (forall k :: 0 <= k < n ==> es[k].0 != i) ==> r[i] == trace[i]
    {
      r := r[es[n].0 := values[n]];
    }
  }

  lemma ScatteredSlots(before: seq<Option<Translated>>, after: seq<Option<Translated>>, w: World, frames: seq<Frame>,
                       m: string, values: seq<Option<Translated>>)
    requires |before| == |after| == |frames| && AreValues(values, w, EntriesOf(frames, m), m)
    requires forall k :: 0 <= k < |values| ==> EntriesOf(frames, m)[k].0 < |frames|
    requires var es := EntriesOf(frames, m);
      && (forall k :: 0 <= k < |values| ==> after[es[k].0] == values[k])
      && (forall i :: 0 <= i < |frames| && (forall k :: 0 <= k < |values| ==> es[k].0 != i) ==> after[i] == before[i])
    requires forall i :: 0 <= i < |frames| && frames[i].modul == m ==> before[i] == None
    ensures forall i :: 0 <= i < |frames| && frames[i].modul != m ==> after[i] == before[i]
    ensures forall i :: 0 <= i < |frames| && frames[i].modul == m ==> IsTranslation(after[i], w, frames, i)
  {
    var es := EntriesOf(frames, m);
    EntriesAreFrames(frames, m);
    forall i | 0 <= i < |frames| && frames[i].modul == m
      ensures IsTranslation(after[i], w, frames, i)
    {
      assert (i, frames[i].address) in es;
      var k: nat :| k < |es| && es[k] == (i, frames[i].address);
      assert frames[i] == Frame(m, es[k].1);
      if k >= |values| {
        forall j | 0 <= j < |values|
          ensures es[j].0 != i
        {
          assert es[j].0 < es[k].0;
        }
      }
      assert IsSlot(after[i], w, frames, i, k);
    }
  }

  // ---------------------------------------------------------------- batching and translating one by one

  /** addr2line prints a line per address, and each depends on its own address only. */
  ghost predicate LineByLine(w: World) {
    forall text, file, addresses ::
      |w.addr2line(text, file, addresses)| == |addresses|
      && forall k :: 0 <= k < |addresses| ==>
           [w.addr2line(text, file, addresses)[k]] == w.addr2line(text, file, [addresses[k]])
  }

  /** A frame translated alone. */
  function Alone(w: World, f: Frame): Option<Translated> {
    match w.debugFile(f.modul)
    case None => Some(Unknown(f))
    case Some(file) =>
      var lines := Lines(w, f.modul, file, [f.address]);
      if lines == [] then None else Some(w.fixup(f.modul, f.address, lines[0]))
  }

  /** Batching by module gives every frame, in its own place, what it would get alone; no slot stays empty. */
  lemma BatchingIsPointwise(w: World, frames: seq<Frame>, trace: seq<Option<Translated>>)
    requires LineByLine(w) && IsTrace(trace, w, frames)
    ensures forall i :: 0 <= i < |frames| ==> trace[i] == Alone(w, frames[i]) && trace[i].Some?
  {
    forall i | 0 <= i < |frames|
      ensures trace[i] == Alone(w, frames[i]) && trace[i].Some?
    {
      assert IsTranslation(trace[i], w, frames, i);
      var k: nat :| IsSlot(trace[i], w, frames, i, k);
      EntriesAreFrames(frames, frames[i].modul);
      var es := EntriesOf(frames, frames[i].modul);
      assert Addresses(es)[k] == frames[i].address;
    }
  }

  /** A frame of a module without a debug file is marked as unknown. */
  lemma UnknownModules(w: World, frames: seq<Frame>, trace: seq<Option<Translated>>, i: nat)
    requires IsTrace(trace, w, frames) && i < |frames| && w.debugFile(frames[i].modul).None?
    ensures trace[i] == Some(Translated(frames[i].modul, frames[i].address, "??", "0"))
  {
    assert IsTranslation(trace[i], w, frames, i);
  }

  /** A frame's number among the frames of its module. */
  function NumberInModule(frames: seq<Frame>, i: nat): nat
    requires i < |frames|
  {
    |EntriesOf(frames[..i], frames[i].modul)|
  }

  lemma {:induction false} EntryAtNumber(frames: seq<Frame>, i: nat)
    requires i < |frames|
    ensures var es, k := EntriesOf(frames, frames[i].modul), NumberInModule(frames, i);
            k < |es| && es[k] == (i, frames[i].address)
    decreases |frames|
  {
    var front := frames[..|frames| - 1];
    if i < |front| {
      EntryAtNumber(front, i);
      assert front[..i] == frames[..i];
    }
  }

  /** Whether addr2line printed a line for this frame, or none is needed. */
  predicate HasLine(w: World, frames: seq<Frame>, i: nat)
    requires i < |frames|
  {
    var m := frames[i].modul;
    match w.debugFile(m)
    case None => true
    case Some(file) => NumberInModule(frames, i) < |Lines(w, m, file, Addresses(EntriesOf(frames, m)))|
  }

  /** Without that assumption: a slot stays empty exactly if the lines for its module ended before its frame. */
  lemma EmptySlots(w: World, frames: seq<Frame>, trace: seq<Option<Translated>>, i: nat)
    requires IsTrace(trace, w, frames) && i < |frames|
    ensures trace[i].None? <==> !HasLine(w, frames, i)
  {
    var es, n := EntriesOf(frames, frames[i].modul), NumberInModule(frames, i);
    assert IsTranslation(trace[i], w, frames, i);
    var k: nat :| IsSlot(trace[i], w, frames, i, k);
    EntryAtNumber(frames, i);
    EntriesAreFrames(frames, frames[i].modul);
    assert k == n;
  }
}
