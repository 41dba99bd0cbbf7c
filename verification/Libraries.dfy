/**
 The two levels of load counts: CAIInterfaceLibrary counts how often each Skirmish AI library is
 in use, and AILibraryManager keeps an interface for as long as any of its libraries is.
 */
module Libraries {
  import opened KeySelection
  import opened Wrappers

  /** What the info files declare: the interface of every known AI, and the known interfaces. */
  datatype Config = Config(infos: map<Key, Key>, interfaces: set<Key>) {
    /** Only specified keys are known, and an AI is known only if its interface is. */
    ghost predicate Valid() {
      && UNSPECIFIED !in infos
      && UNSPECIFIED !in interfaces
      && forall key :: key in infos ==> infos[key] in interfaces
    }

    /** The interface inside an AI key; the key that stands for no AI carries none. */
    function InterfaceOf(key: Key): Key {
      if key in infos then infos[key] else UNSPECIFIED
    }
  }

  /** A call through the function pointers of an interface. */
  datatype NativeCall = Load(key: Key) | Unload(key: Key)

  /** A CSkirmishAILibrary object: the interface object and the native call that made it, and
      whether that call found nothing, which leaves the stand-in that ignores every call. */
  datatype Library = Library(maker: nat, call: nat, empty: bool)

  /** Whether the last native call on a key was a load. */
  ghost predicate Open(natives: seq<NativeCall>, key: Key) {
    natives != [] &&
    var last := natives[|natives| - 1];
    if last.key == key then last.Load? else Open(natives[..|natives| - 1], key)
  }

  /** Loads and unloads of each key take turns, beginning with a load. */
  ghost predicate Alternating(natives: seq<NativeCall>) {
    natives == [] ||
    var front, last := natives[..|natives| - 1], natives[|natives| - 1];
    Alternating(front) && (last.Load? <==> !Open(front, last.key))
  }

  // ---------------------------------------------------------------- one interface

  datatype Interface = Interface(serial: nat, counts: map<Key, nat>, loaded: map<Key, Library>, natives: seq<NativeCall>) {
    function Count(key: Key): nat {
      if key in counts then counts[key] else 0
    }

    /** FetchSkirmishAILibrary, when a native load would find (or not find) the library. */
    function Fetched(key: Key, found: bool): Interface {
      var next := this.(counts := counts[key := Count(key) + 1]);
      if Count(key) == 0 then
        next.(loaded := loaded[key := Library(serial, |natives|, !found)], natives := natives + [Load(key)])
      else next
    }

    /** ReleaseSkirmishAILibrary. */
    function Released(key: Key): Interface {
      if Count(key) == 0 then this.(counts := counts[key := 0])
      else
        var next := this.(counts := counts[key := Count(key) - 1]);
        if Count(key) == 1 then next.(loaded := loaded - {key}, natives := natives + [Unload(key)]) else next
    }

    /** A library is in the table, and natively loaded, exactly while its count is positive. */
    ghost predicate Consistent() {
      && Alternating(natives)
      && (forall key :: key in loaded <==> Count(key) > 0)
      && (forall key :: Open(natives, key) <==> Count(key) > 0)
      && forall key :: key in loaded ==> MadeBy(loaded[key], key)
    }

    ghost predicate MadeBy(library: Library, key: Key) {
      library.maker == serial && library.call < |natives| && natives[library.call] == Load(key)
    }
  }

  function NewInterface(serial: nat): Interface {
    Interface(serial, map[], map[], [])
  }

  lemma OneMoreNative(natives: seq<NativeCall>, call: NativeCall, key: Key)
    ensures Open(natives + [call], key) <==> if call.key == key then call.Load? else Open(natives, key)
    ensures Alternating(natives + [call]) <==> Alternating(natives) && (call.Load? <==> !Open(natives, call.key))
  {
    assert (natives + [call])[..|natives|] == natives;
  }

  lemma FetchedStaysConsistent(i: Interface, key: Key, found: bool)
    requires i.Consistent()
    ensures i.Fetched(key, found).Consistent()
  {
    var j := i.Fetched(key, found);
    if i.Count(key) == 0 {
      forall k ensures Open(j.natives, k) <==> j.Count(k) > 0 {
        OneMoreNative(i.natives, Load(key), k);
      }
      OneMoreNative(i.natives, Load(key), key);
      forall k | k in j.loaded ensures j.MadeBy(j.loaded[k], k) {
        assert k != key ==> i.MadeBy(i.loaded[k], k);
      }
    }
  }

  lemma ReleasedStaysConsistent(i: Interface, key: Key)
    requires i.Consistent()
    ensures i.Released(key).Consistent()
  {
    var j := i.Released(key);
    if i.Count(key) == 1 {
      forall k ensures Open(j.natives, k) <==> j.Count(k) > 0 {
        OneMoreNative(i.natives, Unload(key), k);
      }
      OneMoreNative(i.natives, Unload(key), key);
      forall k | k in j.loaded ensures j.MadeBy(j.loaded[k], k) {
        assert i.MadeBy(i.loaded[k], k);
      }
    }
  }

  /** A native load is made on a count of 0 only and a native unload on a count of 1 only, so a
      release right after a fetch leaves every count and every library as it was. */
  lemma ReleaseUndoesFetch(i: Interface, key: Key, found: bool)
    requires i.Consistent()
    ensures var j := i.Fetched(key, found).Released(key);
      && j.loaded == i.loaded
      && j.natives == i.natives + (if i.Count(key) == 0 then [Load(key), Unload(key)] else [])
      && forall k :: j.Count(k) == i.Count(k)
  {
  }

  lemma FetchedAt(i: Interface, key: Key, found: bool, k: Key)
    requires i.Consistent()
    ensures key in i.Fetched(key, found).loaded
    ensures i.Fetched(key, found).Count(k) == i.Count(k) + if k == key then 1 else 0
    ensures i.Count(k) > 0 ==> k in i.Fetched(key, found).loaded && i.Fetched(key, found).loaded[k] == i.loaded[k]
  {
  }

  lemma ReleasedAt(i: Interface, key: Key, k: Key)
    requires i.Consistent() && i.Count(key) > 0
    ensures i.Released(key).Count(k) == i.Count(k) - if k == key then 1 else 0
    ensures i.Released(key).Count(k) > 0 ==> k in i.Released(key).loaded && i.Released(key).loaded[k] == i.loaded[k]
  {
  }

  // ---------------------------------------------------------------- the sum of the counts

  ghost function Total(counts: map<Key, nat>): nat {
    if counts == map[] then 0
    else
      var key :| key in counts;
      counts[key] + Total(counts - {key})
  }

  lemma TotalAfter(counts: map<Key, nat>, key: Key, n: nat)
    ensures Total(map[]) == 0
    ensures Total(counts[key := n]) == Total(counts) + n - if key in counts then counts[key] else 0
  {
    TotalWithout(counts[key := n], key);
    if key in counts {
      TotalWithout(counts, key);
      assert counts[key := n] - {key} == counts - {key};
    } else {
      assert counts[key := n] - {key} == counts;
    }
  }

  /** The order in which the map is walked does not matter. */
  lemma {:induction false} TotalWithout(counts: map<Key, nat>, key: Key)
    requires key in counts
    ensures Total(counts) == counts[key] + Total(counts - {key})
    decreases |counts|
  {
    var first :| first in counts && Total(counts) == counts[first] + Total(counts - {first});
    if first != key {
      TotalWithout(counts - {first}, key);
      TotalWithout(counts - {key}, first);
      assert counts - {first} - {key} == counts - {key} - {first};
    }
  }

  lemma {:induction false} TotalIsZero(counts: map<Key, nat>)
    ensures Total(counts) == 0 <==> forall key :: key in counts ==> counts[key] == 0
    decreases |counts|
  {
    if counts != map[] {
      var key :| key in counts;
      TotalWithout(counts, key);
      TotalIsZero(counts - {key});
      assert forall k :: k in counts <==> k == key || k in counts - {key};
    }
  }

  // ---------------------------------------------------------------- all interfaces

  /** loadedAIInterfaceLibs, where an interface that failed to initialise stays as a null entry. */
  datatype Manager = Manager(config: Config, slots: map<Key, Option<Interface>>, made: nat) {
    function At(name: Key): Option<Interface> {
      if name in slots then slots[name] else None
    }

    /** FetchInterface, when initialising a new interface would succeed (or fail). */
    function InterfaceFetched(name: Key, succeeds: bool): Manager {
      if name in slots || name !in config.interfaces then this
      else this.(slots := slots[name := if succeeds then Some(NewInterface(made)) else None], made := made + 1)
    }

    function With(name: Key, i: Interface): Manager {
      this.(slots := slots[name := Some(i)])
    }

    /** FetchSkirmishAILibrary. */
    function Fetched(key: Key, succeeds: bool, found: bool): Manager {
      if key !in config.infos then this
      else
        var next := InterfaceFetched(config.infos[key], succeeds);
        match next.At(config.infos[key])
        case None => next
        case Some(i) => next.With(config.infos[key], i.Fetched(key, found))
    }

    /** ReleaseInterface. */
    ghost function Trimmed(name: Key): Manager {
      if At(name).Some? && Total(At(name).value.counts) == 0 then this.(slots := slots - {name}) else this
    }

    /** ReleaseSkirmishAILibrary. */
    ghost function Released(key: Key, succeeds: bool): Manager {
      var name := config.InterfaceOf(key);
      var next := InterfaceFetched(name, succeeds);
      match next.At(name)
      case None => next
      case Some(i) => next.With(name, i.Released(key)).Trimmed(name)
    }

    function Count(key: Key): nat {
      match At(config.InterfaceOf(key))
      case None => 0
      case Some(i) => i.Count(key)
    }

    /** The library object behind a key, if there is one. */
    function Pointer(key: Key): Option<Library> {
      match At(config.InterfaceOf(key))
      case None => None
      case Some(i) => if key in i.loaded then Some(i.loaded[key]) else None
    }

    /** Why a fetch of this key fails, now and for ever. */
    ghost predicate Barred(key: Key) {
      key in config.infos ==> config.infos[key] in slots && slots[config.infos[key]].None?
    }

    /** No two interface objects are the same. */
    ghost predicate Distinct() {
      forall a, b :: a in slots && b in slots && a != b ==> Differ(slots[a], slots[b])
    }

    static predicate Differ(i: Option<Interface>, j: Option<Interface>) {
      i.Some? && j.Some? ==> i.value.serial != j.value.serial
    }

    ghost predicate Consistent() {
      && config.Valid()
      && slots.Keys <= config.interfaces
      && Distinct()
      && forall name :: name in slots && slots[name].Some? ==> ConsistentAt(name, slots[name].value)
    }

    ghost predicate ConsistentAt(name: Key, i: Interface) {
      && i.Consistent()
      && i.serial < made
      && forall key :: i.Count(key) > 0 ==> config.InterfaceOf(key) == name
    }
  }

  lemma NewInterfaceIsNew(m: Manager, name: Key, succeeds: bool)
    requires m.Consistent()
    ensures m.InterfaceFetched(name, succeeds).Distinct()
  {
    forall s | s in m.slots && m.slots[s].Some? ensures m.slots[s].value.serial < m.made {
      assert m.ConsistentAt(s, m.slots[s].value);
    }
  }

  lemma InterfaceFetchedStaysConsistent(m: Manager, name: Key, succeeds: bool)
    requires m.Consistent()
    ensures m.InterfaceFetched(name, succeeds).Consistent()
    ensures forall key :: m.InterfaceFetched(name, succeeds).Count(key) == m.Count(key)
    ensures forall key :: m.InterfaceFetched(name, succeeds).Pointer(key) == m.Pointer(key)
    ensures forall key :: m.Barred(key) ==> m.InterfaceFetched(name, succeeds).Barred(key)
  {
    var n := m.InterfaceFetched(name, succeeds);
    NewInterfaceIsNew(m, name, succeeds);
    forall s | s in n.slots && n.slots[s].Some? ensures n.ConsistentAt(s, n.slots[s].value) {
      assert s in m.slots ==> m.ConsistentAt(s, m.slots[s].value);
    }
  }

  lemma PutBack(m: Manager, name: Key, i: Interface)
    requires m.Consistent() && name in m.config.interfaces && m.ConsistentAt(name, i)
    requires m.At(name).Some? && i.serial == m.At(name).value.serial
    ensures m.With(name, i).Consistent()
  {
    var n := m.With(name, i);
    forall s | s in n.slots && n.slots[s].Some? ensures n.ConsistentAt(s, n.slots[s].value) {
      assert s != name ==> m.ConsistentAt(s, m.slots[s].value);
    }
  }

  lemma FetchedStays(m: Manager, key: Key, succeeds: bool, found: bool)
    requires m.Consistent()
    ensures m.Fetched(key, succeeds, found).Consistent()
    ensures m.Fetched(key, succeeds, found).config == m.config
  {
    if key in m.config.infos {
      var name := m.config.infos[key];
      InterfaceFetchedStaysConsistent(m, name, succeeds);
      var next := m.InterfaceFetched(name, succeeds);
      if next.At(name).Some? {
        var i := next.At(name).value;
        assert next.ConsistentAt(name, i);
        FetchedStaysConsistent(i, key, found);
        assert next.ConsistentAt(name, i.Fetched(key, found));
        PutBack(next, name, i.Fetched(key, found));
      }
    }
  }

  lemma UseAfterPutBack(m: Manager, name: Key, i: Interface, k: Key)
    requires name in m.slots && m.slots[name].Some?
    ensures var n := m.With(name, i);
      && n.Count(k) == (if m.config.InterfaceOf(k) == name then i.Count(k) else m.Count(k))
      && n.Pointer(k) == (if m.config.InterfaceOf(k) != name then m.Pointer(k)
                          else if k in i.loaded then Some(i.loaded[k]) else None)
      && (m.Barred(k) <==> n.Barred(k))
  {
  }

  lemma CountedIsLoaded(m: Manager, k: Key)
    requires m.Consistent() && m.Count(k) > 0
    ensures m.Pointer(k).Some?
  {
    var name := m.config.InterfaceOf(k);
    assert m.ConsistentAt(name, m.At(name).value);
  }

  lemma OnlyKnownKeysHaveInterfaces(m: Manager, key: Key, succeeds: bool)
    requires m.Consistent()
    ensures var name := m.config.InterfaceOf(key);
      m.InterfaceFetched(name, succeeds).At(name).Some? ==> key in m.config.infos
  {
  }

  lemma ConsistentEntry(n: Manager, name: Key, m: Manager, succeeds: bool)
    requires m.Consistent() && n == m.InterfaceFetched(name, succeeds) && n.At(name).Some?
    ensures n.At(name).value.Consistent()
  {
    InterfaceFetchedStaysConsistent(m, name, succeeds);
    assert n.ConsistentAt(name, n.At(name).value);
  }

  /** A fetch raises the count of its key by one, or fails and is barred from then on; no library
      in use moves. */
  lemma FetchCounts(m: Manager, key: Key, succeeds: bool, found: bool, k: Key)
    requires m.Consistent()
    ensures var n := m.Fetched(key, succeeds, found);
      && (n.Pointer(key).None? ==> n.Barred(key) && m.Count(key) == 0)
      && n.Count(k) == m.Count(k) + (if k == key && n.Pointer(key).Some? then 1 else 0)
      && (m.Count(k) > 0 ==> m.Pointer(k).Some? && n.Pointer(k) == m.Pointer(k))
      && (m.Barred(k) ==> n.Barred(k))
  {
    if m.Count(k) > 0 {
      CountedIsLoaded(m, k);
    }
    if key in m.config.infos {
      var name := m.config.infos[key];
      InterfaceFetchedStaysConsistent(m, name, succeeds);
      var next := m.InterfaceFetched(name, succeeds);
      if next.At(name).Some? {
        var i := next.At(name).value;
        assert next.ConsistentAt(name, i);
        FetchedAt(i, key, found, k);
        UseAfterPutBack(next, name, i.Fetched(key, found), k);
        UseAfterPutBack(next, name, i.Fetched(key, found), key);
      }
    }
  }

  /** A fetch returns a library exactly if the key is known and its interface is loaded or starts now. */
  lemma FetchSucceedsExactly(m: Manager, key: Key, starts: bool, found: bool)
    requires m.Consistent()
    ensures m.Fetched(key, starts, found).Pointer(key).Some? <==>
      && key in m.config.infos
      && var name := m.config.infos[key]; if name in m.slots then m.slots[name].Some? else starts
  {
    FetchCounts(m, key, starts, found, key);
    if key in m.config.infos {
      var name := m.config.infos[key];
      InterfaceFetchedStaysConsistent(m, name, starts);
      var next := m.InterfaceFetched(name, starts);
      if next.At(name).Some? {
        UseAfterPutBack(next, name, next.At(name).value.Fetched(key, found), key);
      }
    }
  }

  /** The first fetch of a library makes a new object, the stand-in exactly if nothing was found; the later ones
      return it. */
  lemma FetchReturns(m: Manager, key: Key, starts: bool, found: bool, other: Key)
    requires m.Consistent() && m.Fetched(key, starts, found).Pointer(key).Some?
    ensures var library := m.Fetched(key, starts, found).Pointer(key).value;
      if m.Count(key) > 0 then m.Pointer(key) == Some(library)
      else library.empty == !found && m.Pointer(other) != Some(library)
  {
    FetchCounts(m, key, starts, found, key);
    var name := m.config.infos[key];
    InterfaceFetchedStaysConsistent(m, name, starts);
    var next := m.InterfaceFetched(name, starts);
    var i := next.At(name).value;
    UseAfterPutBack(next, name, i.Fetched(key, found), key);
    var home := next.config.InterfaceOf(other);
    if next.Pointer(other).Some? {
      assert next.ConsistentAt(home, next.At(home).value);
      assert next.At(home).value.MadeBy(next.Pointer(other).value, other);
    }
    assert next.ConsistentAt(name, i);
  }

  lemma ReleasedForm(m: Manager, name: Key, i: Interface, key: Key, succeeds: bool)
    requires name == m.config.InterfaceOf(key) && m.At(name) == Some(i)
    ensures m.Released(key, succeeds) ==
      if Total(i.Released(key).counts) == 0 then m.(slots := m.slots - {name}) else m.With(name, i.Released(key))
  {
    assert m.With(name, i.Released(key)).slots - {name} == m.slots - {name};
  }

  lemma UseAfterDrop(m: Manager, name: Key, k: Key)
    requires name in m.slots && m.slots[name].Some?
    ensures var n := m.(slots := m.slots - {name});
      && n.Count(k) == (if m.config.InterfaceOf(k) == name then 0 else m.Count(k))
      && (n.Count(k) > 0 ==> n.Pointer(k) == m.Pointer(k))
      && (m.Barred(k) ==> n.Barred(k))
  {
  }

  /** A release lowers a positive count by one; no library still in use moves, and no interface
      with such a library is dropped. */
  lemma ReleaseCounts(m: Manager, key: Key, succeeds: bool, k: Key)
    requires m.Consistent() && m.Count(key) > 0
    ensures var n := m.Released(key, succeeds);
      && n.Count(k) == m.Count(k) - (if k == key then 1 else 0)
      && (n.Count(k) > 0 ==> m.Pointer(k).Some? && n.Pointer(k) == m.Pointer(k))
      && (m.Barred(k) ==> n.Barred(k))
  {
    var name := m.config.InterfaceOf(key);
    var i := m.At(name).value;
    assert m.ConsistentAt(name, i);
    ReleasedForm(m, name, i, key, succeeds);
    ReleasedAt(i, key, k);
    if m.Count(k) > 0 {
      CountedIsLoaded(m, k);
    }
    if Total(i.Released(key).counts) == 0 {
      TotalIsZero(i.Released(key).counts);
      assert i.Released(key).Count(k) == 0;
      UseAfterDrop(m, name, k);
    } else {
      UseAfterPutBack(m, name, i.Released(key), k);
    }
  }

  lemma ReleasedStays(m: Manager, key: Key, succeeds: bool)
    requires m.Consistent() && m.Count(key) > 0
    ensures m.Released(key, succeeds).Consistent()
    ensures m.Released(key, succeeds).config == m.config
  {
    var name := m.config.InterfaceOf(key);
    var i := m.At(name).value;
    assert m.ConsistentAt(name, i);
    ReleasedForm(m, name, i, key, succeeds);
    if Total(i.Released(key).counts) == 0 {
      var n := m.Released(key, succeeds);
      forall s | s in n.slots && n.slots[s].Some? ensures n.ConsistentAt(s, n.slots[s].value) {
        assert m.ConsistentAt(s, m.slots[s].value);
      }
    } else {
      ReleasedStaysConsistent(i, key);
      PutBack(m, name, i.Released(key));
    }
  }

  /** Releasing a key whose fetch failed changes nothing: it loads no interface and lowers no count. */
  lemma ReleaseOfFailedFetch(m: Manager, key: Key, succeeds: bool)
    requires m.Consistent() && m.Barred(key)
    ensures m.Released(key, succeeds) == m && m.Count(key) == 0
  {
  }

  /** An interface is dropped exactly when the last of its counts has gone, with nothing loaded. */
  lemma DroppedExactlyWhenIdle(m: Manager, key: Key, succeeds: bool)
    requires m.Consistent() && m.Count(key) > 0
    ensures m.config.InterfaceOf(key) !in m.Released(key, succeeds).slots
      <==> m.Count(key) == 1 && m.At(m.config.InterfaceOf(key)).value.loaded.Keys == {key}
  {
    var i := m.At(m.config.InterfaceOf(key)).value;
    assert m.ConsistentAt(m.config.InterfaceOf(key), i);
    ReleasedForm(m, m.config.InterfaceOf(key), i, key, succeeds);
    var left := i.Released(key);
    TotalIsZero(left.counts);
    if m.Count(key) == 1 && i.loaded.Keys == {key} {
      forall k | k in left.counts ensures left.counts[k] == 0 {
        assert k != key ==> k !in i.loaded && i.Count(k) == 0;
      }
    }
    if Total(left.counts) == 0 {
      assert left.Count(key) == 0;
      forall k ensures k in i.loaded.Keys <==> k == key {
        assert left.Count(k) == 0;
        assert k != key ==> i.Count(k) == 0;
      }
      assert i.loaded.Keys == {key};
    }
  }

  // ---------------------------------------------------------------- the classes

  class CAIInterfaceLibrary {
    const name: Key
    const serial: nat
    var skirmishAILoadCount: map<Key, nat>
    var loadedSkirmishAILibraries: map<Key, Library>
    var natives: seq<NativeCall>

    ghost function Value(): Interface
      reads this
    {
      Interface(serial, skirmishAILoadCount, loadedSkirmishAILibraries, natives)
    }

    constructor (name: Key, serial: nat)
      ensures this.name == name && Value() == NewInterface(serial)
    {
      this.name, this.serial := name, serial;
      skirmishAILoadCount, loadedSkirmishAILibraries, natives := map[], map[], [];
    }

    method GetLoadCount() returns (total: nat)
      ensures total == Total(skirmishAILoadCount)
    {
      total := 0;
      var left := skirmishAILoadCount;
      while left != map[]
        invariant total + Total(left) == Total(skirmishAILoadCount)
        decreases |left|
      {
        var key :| key in left;
        TotalWithout(left, key);
        total := total + left[key];
        left := left - {key};
      }
    }

    /** `found` is what the native load would answer. */
    method FetchSkirmishAILibrary(key: Key, found: bool) returns (library: Library)
      requires Value().Count(key) > 0 ==> key in loadedSkirmishAILibraries
      modifies this
      ensures Value() == old(Value()).Fetched(key, found)
      ensures key in loadedSkirmishAILibraries && library == loadedSkirmishAILibraries[key]
    {
      if key !in skirmishAILoadCount {
        skirmishAILoadCount := skirmishAILoadCount[key := 0];
      }
      if skirmishAILoadCount[key] == 0 {
        loadedSkirmishAILibraries := loadedSkirmishAILibraries[key := Library(serial, |natives|, !found)];
        natives := natives + [Load(key)];
      }
      skirmishAILoadCount := skirmishAILoadCount[key := skirmishAILoadCount[key] + 1];
      library := loadedSkirmishAILibraries[key];
    }

    method ReleaseSkirmishAILibrary(key: Key) returns (left: nat)
      modifies this
      ensures Value() == old(Value()).Released(key) && left == Value().Count(key)
    {
      if key !in skirmishAILoadCount {
        skirmishAILoadCount := skirmishAILoadCount[key := 0];
      }
      if skirmishAILoadCount[key] == 0 {
        return 0;
      }
      skirmishAILoadCount := skirmishAILoadCount[key := skirmishAILoadCount[key] - 1];
      if skirmishAILoadCount[key] == 0 {
        natives := natives + [Unload(key)];
        loadedSkirmishAILibraries := loadedSkirmishAILibraries - {key};
      }
      return skirmishAILoadCount[key];
    }
  }

  class AILibraryManager {
    const config: Config
    var loadedAIInterfaceLibs: map<Key, CAIInterfaceLibrary?>
    var made: nat
    ghost var owned: set<CAIInterfaceLibrary>

    /** Every entry is empty or the object of that interface. */
    ghost predicate Valid()
      reads this
    {
      forall name :: name in loadedAIInterfaceLibs && loadedAIInterfaceLibs[name] != null ==>
        loadedAIInterfaceLibs[name].name == name && loadedAIInterfaceLibs[name] in owned
    }

    ghost function Value(): Manager
      requires Valid()
      reads this, owned
    {
      Manager(config,
        map name | name in loadedAIInterfaceLibs :: Entry(loadedAIInterfaceLibs[name]),
        made)
    }

    static ghost function Entry(i: CAIInterfaceLibrary?): Option<Interface>
      reads i
    {
      if i == null then None else Some(i.Value())
    }

    constructor (config: Config)
      ensures Valid() && Value() == Manager(config, map[], 0) && owned == {}
    {
      this.config := config;
      loadedAIInterfaceLibs, made, owned := map[], 0, {};
    }

    /** `succeeds` is whether initialising a new interface would succeed. */
    method FetchInterface(name: Key, succeeds: bool) returns (i: CAIInterfaceLibrary?)
      requires Valid()
      modifies this
      ensures Valid() && fresh(owned - old(owned)) && old(owned) <= owned
      ensures Value() == old(Value()).InterfaceFetched(name, succeeds)
      ensures i == if name in loadedAIInterfaceLibs then loadedAIInterfaceLibs[name] else null
      ensures i != null <==> if name in old(loadedAIInterfaceLibs) then old(loadedAIInterfaceLibs)[name] != null
                             else name in config.interfaces && succeeds
    {
      if name in loadedAIInterfaceLibs {
        return loadedAIInterfaceLibs[name];
      }
      if name !in config.interfaces {
        return null;
      }
      i := null;
      if succeeds {
        i := new CAIInterfaceLibrary(name, made);
        owned := owned + {i};
      }
      loadedAIInterfaceLibs := loadedAIInterfaceLibs[name := i];
      made := made + 1;
      assert Value().slots == old(Value()).slots[name := Entry(i)];
    }

    method FetchThrough(i: CAIInterfaceLibrary, key: Key, found: bool) returns (library: Library)
      requires Valid() && i.name in loadedAIInterfaceLibs && loadedAIInterfaceLibs[i.name] == i
      requires i.Value().Count(key) > 0 ==> key in i.loadedSkirmishAILibraries
      modifies i
      ensures Valid() && Value() == old(Value()).With(i.name, old(i.Value()).Fetched(key, found))
      ensures key in i.loadedSkirmishAILibraries && library == i.loadedSkirmishAILibraries[key]
    {
      library := i.FetchSkirmishAILibrary(key, found);
      assert Value().slots == old(Value()).slots[i.name := Some(i.Value())];
    }

    method ReleaseThrough(i: CAIInterfaceLibrary, key: Key)
      requires Valid() && i.name in loadedAIInterfaceLibs && loadedAIInterfaceLibs[i.name] == i
      modifies i
      ensures Valid() && Value() == old(Value()).With(i.name, old(i.Value()).Released(key))
    {
      var left := i.ReleaseSkirmishAILibrary(key);
      assert Value().slots == old(Value()).slots[i.name := Some(i.Value())];
    }

    method FetchSkirmishAILibrary(key: Key, succeeds: bool, found: bool) returns (library: Option<Library>)
      requires Valid() && Value().Consistent()
      modifies this, owned
      ensures Valid() && fresh(owned - old(owned))
      ensures Value() == old(Value()).Fetched(key, succeeds, found)
      ensures library == Value().Pointer(key)
    {
      if key !in config.infos {
        return None;
      }
      var name := config.infos[key];
      var i := FetchInterface(name, succeeds);
      if i == null {
        return None;
      }
      ConsistentEntry(Value(), name, old(Value()), succeeds);
      var fetched := FetchThrough(i, key, found);
      return Some(fetched);
    }

    /** The info of a key is looked up, unguarded, once its interface is found. */
    method ReleaseSkirmishAILibrary(key: Key, succeeds: bool)
      requires Valid() && Value().Consistent()
      modifies this, owned
      ensures Valid() && fresh(owned - old(owned))
      ensures Value() == old(Value()).Released(key, succeeds)
    {
      var name := config.InterfaceOf(key);
      var i := FetchInterface(name, succeeds);
      if i == null {
        return;
      }
      OnlyKnownKeysHaveInterfaces(old(Value()), key, succeeds);
      assert key in config.infos;
      ReleaseThrough(i, key);
      ReleaseInterface(name);
    }

    method ReleaseInterface(name: Key)
      requires Valid()
      requires name in loadedAIInterfaceLibs ==> loadedAIInterfaceLibs[name] != null
      modifies this
      ensures Valid() && owned == old(owned)
      ensures Value() == old(Value()).Trimmed(name)
    {
      if name !in loadedAIInterfaceLibs {
        return;
      }
      var total := loadedAIInterfaceLibs[name].GetLoadCount();
      if total != 0 {
        return;
      }
      loadedAIInterfaceLibs := loadedAIInterfaceLibs - {name};
      assert Value().slots == old(Value()).slots - {name};
    }
  }
}
