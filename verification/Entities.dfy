/** Entity ids, component stores and tags: rts/ECS/Entity.h and rts/ECS/World.h. */
module Entities {

  const ID_LIMIT := 0x1_0000_0000
  const INVALID_ENTITY: EntityID := ID_LIMIT - 1

  /** An unsigned 32-bit number. */
  type EntityID = x: int | 0 <= x < ID_LIMIT

  /** What `std::type_index` tells apart. */
  type TypeIndex = string

  datatype Component = Component(owner: EntityID, enabled: bool, data: string)

  type Store = map<EntityID, Component>

  /** The value of an EntityManager: its four fields. */
  datatype Registry = Registry(
    nextID: EntityID,
    entities: seq<EntityID>,
    freeList: seq<EntityID>,
    stores: map<TypeIndex, Store>)

  const NEW_REGISTRY := Registry(1, [], [], map[])

  datatype Call =
    | Create
    | Destroy(id: EntityID)
    | Add(kind: TypeIndex, id: EntityID, data: string)
    | Remove(kind: TypeIndex, id: EntityID)

  /** The sequence left when every copy of `id` is taken out. */
  function Without(s: seq<EntityID>, id: EntityID): (r: seq<EntityID>)
    ensures forall x: EntityID :: multiset(r)[x] == if x == id then 0 else multiset(s)[x]
  {
    if s == [] then []
    else
      var rest := Without(s[1..], id);
      assert s == [s[0]] + s[1..];
      if s[0] == id then rest else [s[0]] + rest
  }

  /** What is left keeps its order. */
  lemma {:induction false} WithoutLast(s: seq<EntityID>, x: EntityID, id: EntityID)
    ensures Without(s + [x], id) == if x == id then Without(s, id) else Without(s, id) + [x]
  {
    var whole := s + [x];
    if s == [] {
      assert whole == [x] && whole[1..] == [];
    } else {
      WithoutLast(s[1..], x, id);
      assert whole[0] == s[0] && whole[1..] == s[1..] + [x];
    }
  }

  function Forget(stores: map<TypeIndex, Store>, id: EntityID): map<TypeIndex, Store> {
    map kind | kind in stores :: stores[kind] - {id}
  }

  function StoreOf(stores: map<TypeIndex, Store>, kind: TypeIndex): Store {
    if kind in stores then stores[kind] else map[]
  }

  /** The id the next CreateEntity hands out. */
  function NewID(r: Registry): EntityID {
    if r.freeList != [] then r.freeList[|r.freeList| - 1] else r.nextID
  }

  function Created(r: Registry): Registry {
    if r.freeList != [] then
      r.(freeList := r.freeList[..|r.freeList| - 1], entities := r.entities + [NewID(r)])
    else
      r.(nextID := (r.nextID + 1) % ID_LIMIT, entities := r.entities + [NewID(r)])
  }

  function Destroyed(r: Registry, id: EntityID): Registry {
    r.(stores := Forget(r.stores, id), entities := Without(r.entities, id), freeList := r.freeList + [id])
  }

  function Added(r: Registry, kind: TypeIndex, id: EntityID, data: string): Registry {
    r.(stores := r.stores[kind := StoreOf(r.stores, kind)[id := Component(id, true, data)]])
  }

  function Removed(r: Registry, kind: TypeIndex, id: EntityID): Registry {
    if kind in r.stores then r.(stores := r.stores[kind := r.stores[kind] - {id}]) else r
  }

  function Step(r: Registry, call: Call): Registry {
    match call
    case Create => Created(r)
    case Destroy(id) => Destroyed(r, id)
    case Add(kind, id, data) => Added(r, kind, id, data)
    case Remove(kind, id) => Removed(r, kind, id)
  }

  function After(r: Registry, calls: seq<Call>): Registry {
    if calls == [] then r else Step(After(r, calls[..|calls| - 1]), calls[|calls| - 1])
  }

  // ----- Which runs keep the ids apart -----

  /** How often `id` stands in the two lists together. */
  ghost function Copies(r: Registry, id: EntityID): nat {
    multiset(r.entities)[id] + multiset(r.freeList)[id]
  }

  ghost predicate Has(r: Registry, kind: TypeIndex, id: EntityID) {
    kind in r.stores && id in r.stores[kind]
  }

  /** Live and free ids are duplicate-free, disjoint and together exactly 1..nextID-1. */
  ghost predicate Partitioned(r: Registry) {
    && 1 <= r.nextID
    && forall id: EntityID :: Copies(r, id) == if 1 <= id < r.nextID then 1 else 0
  }

  ghost predicate OnLiveOnly(r: Registry) {
    forall kind, id :: Has(r, kind, id) ==> id in r.entities
  }

  ghost predicate Sound(r: Registry) {
    Partitioned(r) && OnLiveOnly(r)
  }

  /** What a caller can check before the call, as far as the ids go. */
  predicate SparesIds(r: Registry, call: Call) {
    match call
    case Create => r.freeList != [] || r.nextID + 1 < ID_LIMIT
    case Destroy(id) => id in r.entities
    case _ => true
  }

  /** And as far as the components go as well. */
  predicate Permitted(r: Registry, call: Call) {
    SparesIds(r, call) && (call.Add? ==> call.id in r.entities)
  }

  lemma CreateKeepsPartition(r: Registry)
    requires Partitioned(r)
    ensures Partitioned(Created(r)) <==> SparesIds(r, Create)
    ensures SparesIds(r, Create) ==> NewID(r) !in r.entities
  {
    var id := NewID(r);
    var k := |r.freeList| - 1;
    if r.freeList != [] {
      assert r.freeList == r.freeList[..k] + [id];
      assert forall x: EntityID :: Copies(Created(r), x) == Copies(r, x);
      assert Copies(r, id) == 1;
    } else {
      assert Copies(r, id) == 0;
      assert forall x: EntityID :: Copies(Created(r), x) == Copies(r, x) + if x == id then 1 else 0;
    }
  }

  lemma DestroyKeepsPartition(r: Registry, id: EntityID)
    requires Partitioned(r)
    ensures Partitioned(Destroyed(r, id)) <==> id in r.entities
  {
    var q := Destroyed(r, id);
    forall x: EntityID
      ensures Copies(q, x) == if x == id then multiset(r.freeList)[x] + 1 else Copies(r, x)
    {
    }
    assert Copies(r, id) <= 1;
  }

  /** A call keeps the ids apart exactly if it destroys no id that is not live and the counter has room;
      components have no say in this. */
  lemma StaysPartitionedExactly(r: Registry, call: Call)
    requires Partitioned(r)
    ensures Partitioned(Step(r, call)) <==> SparesIds(r, call)
  {
    match call
    case Create => CreateKeepsPartition(r);
    case Destroy(id) => DestroyKeepsPartition(r, id);
    case _ => assert forall x: EntityID :: Copies(Step(r, call), x) == Copies(r, x);
  }

  lemma StaysSoundExactly(r: Registry, call: Call)
    requires Sound(r)
    ensures Sound(Step(r, call)) <==> Permitted(r, call)
  {
    var q := Step(r, call);
    StaysPartitionedExactly(r, call);
    match call
    case Create =>
      assert forall kind, id :: Has(q, kind, id) <==> Has(r, kind, id);
    case Destroy(id) =>
      assert forall kind, x :: Has(q, kind, x) <==> Has(r, kind, x) && x != id;
      assert forall x: EntityID :: x in q.entities <==> multiset(q.entities)[x] > 0;
    case Add(kind, id, data) =>
      assert Has(q, kind, id);
      assert forall other, x :: Has(q, other, x) <==> Has(r, other, x) || (other == kind && x == id);
    case Remove(kind, id) =>
      assert forall other, x :: Has(q, other, x) ==> Has(r, other, x);
  }

  // ----- Whole runs -----

  /** After the first n calls of a run. */
  function StateAt(calls: seq<Call>, n: nat): Registry
    requires n <= |calls|
  {
    After(NEW_REGISTRY, calls[..n])
  }

  ghost predicate PartitionedThroughout(calls: seq<Call>) {
    forall n: nat {:trigger StateAt(calls, n)} :: n <= |calls| ==> Partitioned(StateAt(calls, n))
  }

  ghost predicate SparesIdsThroughout(calls: seq<Call>) {
    forall n: nat {:trigger StateAt(calls, n)} :: n < |calls| ==> SparesIds(StateAt(calls, n), calls[n])
  }

  ghost predicate SoundThroughout(calls: seq<Call>) {
    forall n: nat {:trigger StateAt(calls, n)} :: n <= |calls| ==> Sound(StateAt(calls, n))
  }

  ghost predicate PermittedThroughout(calls: seq<Call>) {
    forall n: nat {:trigger StateAt(calls, n)} :: n < |calls| ==> Permitted(StateAt(calls, n), calls[n])
  }

  lemma OneMoreCall(calls: seq<Call>, n: nat)
    requires n < |calls|
    ensures StateAt(calls, n + 1) == Step(StateAt(calls, n), calls[n])
  {
    assert calls[..n + 1][..n] == calls[..n];
  }

  lemma {:induction false} PartitionedUpTo(calls: seq<Call>, n: nat)
    requires n <= |calls| && SparesIdsThroughout(calls)
    ensures Partitioned(StateAt(calls, n))
  {
    if n > 0 {
      PartitionedUpTo(calls, n - 1);
      OneMoreCall(calls, n - 1);
      StaysPartitionedExactly(StateAt(calls, n - 1), calls[n - 1]);
    }
  }

  /** A run keeps live and free ids disjoint, duplicate-free and together 1..nextID-1 throughout exactly
      when it destroys live ids only and never creates its 2^32 - 1st id, whatever it adds to what. */
  lemma PartitionedExactlyWhenIdsSpared(calls: seq<Call>)
    ensures PartitionedThroughout(calls) <==> SparesIdsThroughout(calls)
  {
    if SparesIdsThroughout(calls) {
      forall n: nat | n <= |calls| ensures Partitioned(StateAt(calls, n)) {
        PartitionedUpTo(calls, n);
      }
    }
    if PartitionedThroughout(calls) {
      forall n: nat | n < |calls| ensures SparesIds(StateAt(calls, n), calls[n]) {
        assert Partitioned(StateAt(calls, n)) && Partitioned(StateAt(calls, n + 1));
        OneMoreCall(calls, n);
        StaysPartitionedExactly(StateAt(calls, n), calls[n]);
      }
    }
  }

  lemma {:induction false} SoundUpTo(calls: seq<Call>, n: nat)
    requires n <= |calls| && PermittedThroughout(calls)
    ensures Sound(StateAt(calls, n))
  {
    if n > 0 {
      SoundUpTo(calls, n - 1);
      OneMoreCall(calls, n - 1);
      StaysSoundExactly(StateAt(calls, n - 1), calls[n - 1]);
    }
  }

  /** A run keeps its ids partitioned and its components on live ids throughout exactly when it
      destroys and adds to live ids only and never creates its 2^32 - 1st id. */
  lemma SoundExactlyWhenPermitted(calls: seq<Call>)
    ensures SoundThroughout(calls) <==> PermittedThroughout(calls)
  {
    if PermittedThroughout(calls) {
      forall n: nat | n <= |calls| ensures Sound(StateAt(calls, n)) {
        SoundUpTo(calls, n);
      }
    }
    if SoundThroughout(calls) {
      forall n: nat | n < |calls| ensures Permitted(StateAt(calls, n), calls[n]) {
        assert Sound(StateAt(calls, n)) && Sound(StateAt(calls, n + 1));
        OneMoreCall(calls, n);
        StaysSoundExactly(StateAt(calls, n), calls[n]);
      }
    }
  }

  /** A run that destroys live ids only creates no id that is live, and never the invalid one. */
  lemma CreatedIdIsUnused(calls: seq<Call>, r: Registry, id: EntityID)
    requires SparesIdsThroughout(calls) && r == After(NEW_REGISTRY, calls)
    requires SparesIds(r, Create) && id == NewID(r)
    ensures id !in r.entities && id in Created(r).entities
    ensures 1 <= id && id != INVALID_ENTITY
  {
    assert calls[..|calls|] == calls;
    PartitionedUpTo(calls, |calls|);
    CreateKeepsPartition(r);
    assert Copies(Created(r), id) == 1 by {
      assert id in Created(r).entities;
    }
  }

  /** If it adds to live ids only as well, a created id owns no component yet. */
  lemma CreatedIdStartsBare(calls: seq<Call>, r: Registry, id: EntityID)
    requires PermittedThroughout(calls) && r == After(NEW_REGISTRY, calls)
    requires SparesIds(r, Create) && id == NewID(r)
    ensures forall kind :: !Has(Created(r), kind, id)
  {
    assert calls[..|calls|] == calls;
    SoundUpTo(calls, |calls|);
    CreateKeepsPartition(r);
    assert forall kind :: Has(Created(r), kind, id) <==> Has(r, kind, id);
  }

  /** Creating undoes destroying, up to the place in the list and the components. */
  lemma CreateAfterDestroy(r: Registry, id: EntityID)
    ensures NewID(Destroyed(r, id)) == id
    ensures Created(Destroyed(r, id))
         == r.(entities := Without(r.entities, id) + [id], stores := Forget(r.stores, id))
  {
    assert (r.freeList + [id])[..|r.freeList|] == r.freeList;
  }

  /** Destroying one id twice makes the next two creations hand it out twice. */
  lemma DestroyingTwiceSharesId(r: Registry, id: EntityID)
    ensures var twice := Destroyed(Destroyed(r, id), id);
      NewID(twice) == id && NewID(Created(twice)) == id
      && multiset(Created(Created(twice)).entities)[id] == 2
  {
    var once := Destroyed(r, id);
    CreateAfterDestroy(once, id);
    var again := Created(Destroyed(once, id));
    assert again.freeList == r.freeList + [id];
    assert multiset(Without(once.entities, id))[id] == 0;
  }

  /** Every component names the entity it is stored under. */
  ghost predicate Owned(r: Registry) {
    forall kind, id :: Has(r, kind, id) ==> r.stores[kind][id].owner == id
  }

  lemma {:induction false} ComponentsKnowTheirOwner(calls: seq<Call>)
    ensures Owned(After(NEW_REGISTRY, calls))
  {
    if calls != [] {
      var front, last := calls[..|calls| - 1], calls[|calls| - 1];
      ComponentsKnowTheirOwner(front);
      var r := After(NEW_REGISTRY, front);
      var q := Step(r, last);
      forall kind, id | Has(q, kind, id) ensures q.stores[kind][id].owner == id {
        assert Has(r, kind, id) || (last.Add? && last.kind == kind && last.id == id);
      }
    }
  }

  /** A component that is added is there with its owner until it is removed, and nothing else changes. */
  lemma RemoveUndoesAdd(r: Registry, kind: TypeIndex, id: EntityID, data: string)
    ensures var with := Added(r, kind, id, data);
      var without := Removed(with, kind, id);
      && Has(with, kind, id) && with.stores[kind][id] == Component(id, true, data)
      && (forall k, x :: k != kind || x != id ==>
            (Has(with, k, x) <==> Has(r, k, x)) && (Has(r, k, x) ==> with.stores[k][x] == r.stores[k][x]))
      && (forall k, x :: Has(without, k, x) <==> Has(r, k, x) && (k != kind || x != id))
      && without.entities == r.entities && without.freeList == r.freeList && without.nextID == r.nextID
  {
    var with := Added(r, kind, id, data);
    forall k, x | k != kind || x != id
      ensures Has(with, k, x) <==> Has(r, k, x)
      ensures Has(r, k, x) ==> with.stores[k][x] == r.stores[k][x]
    {
    }
  }

  // ----- Tags -----

  /** Both directions of the tag index. */
  datatype Tags = Tags(byTag: map<string, seq<EntityID>>, byEntity: map<EntityID, seq<string>>)

  function Listed<K(==), V>(index: map<K, seq<V>>, key: K): seq<V> {
    if key in index then index[key] else []
  }

  function Tagged(tags: Tags, id: EntityID, tag: string): Tags {
    Tags(tags.byTag[tag := Listed(tags.byTag, tag) + [id]],
         tags.byEntity[id := Listed(tags.byEntity, id) + [tag]])
  }

  /** A call on a World: one that goes through to its EntityManager, or a tagging. */
  datatype WorldCall = OnRegistry(call: Call) | TagEntity(id: EntityID, tag: string)

  datatype WorldState = WorldState(registry: Registry, tags: Tags)

  const NEW_WORLD := WorldState(NEW_REGISTRY, Tags(map[], map[]))

  function WorldStep(w: WorldState, call: WorldCall): WorldState {
    match call
    case OnRegistry(inner) => w.(registry := Step(w.registry, inner))
    case TagEntity(id, tag) => w.(tags := Tagged(w.tags, id, tag))
  }

  function WorldAfter(w: WorldState, calls: seq<WorldCall>): WorldState {
    if calls == [] then w else WorldStep(WorldAfter(w, calls[..|calls| - 1]), calls[|calls| - 1])
  }

  /** The entities a run tagged `tag`, in the order of the calls. */
  function EntitiesTagged(calls: seq<WorldCall>, tag: string): (r: seq<EntityID>)
    ensures forall id :: id in r <==> TagEntity(id, tag) in calls
  {
    if calls == [] then []
    else
      var front, last := calls[..|calls| - 1], calls[|calls| - 1];
      assert calls == front + [last];
      EntitiesTagged(front, tag) + if last.TagEntity? && last.tag == tag then [last.id] else []
  }

  /** The tags a run gave `id`, in the order of the calls. */
  function TagsGiven(calls: seq<WorldCall>, id: EntityID): (r: seq<string>)
    ensures forall tag :: tag in r <==> TagEntity(id, tag) in calls
  {
    if calls == [] then []
    else
      var front, last := calls[..|calls| - 1], calls[|calls| - 1];
      assert calls == front + [last];
      TagsGiven(front, id) + if last.TagEntity? && last.id == id then [last.tag] else []
  }

  /** After any run the two maps are the two readings of the tagging calls. */
  lemma {:induction false} IndexReadsTheRun(calls: seq<WorldCall>, id: EntityID, tag: string)
    ensures var tags := WorldAfter(NEW_WORLD, calls).tags;
      Listed(tags.byTag, tag) == EntitiesTagged(calls, tag)
      && Listed(tags.byEntity, id) == TagsGiven(calls, id)
  {
    if calls != [] {
      IndexReadsTheRun(calls[..|calls| - 1], id, tag);
    }
  }

  predicate HasTag(tags: Tags, id: EntityID, tag: string) {
    tag in Listed(tags.byEntity, id)
  }

  /** After any run an entity has a tag exactly when it is listed under it, which is exactly when
      some call gave it that tag; destroying it in between changes nothing. */
  lemma {:induction false} HasTagExactlyWhenListed(calls: seq<WorldCall>, id: EntityID, tag: string)
    ensures var tags := WorldAfter(NEW_WORLD, calls).tags;
      (HasTag(tags, id, tag) <==> id in Listed(tags.byTag, tag))
      && (HasTag(tags, id, tag) <==> TagEntity(id, tag) in calls)
  {
    IndexReadsTheRun(calls, id, tag);
  }

  /** So a spawned entity starts without tags exactly when its id was never tagged before. */
  lemma SpawnedStartsUntaggedExactly(calls: seq<WorldCall>)
    ensures var w := WorldAfter(NEW_WORLD, calls);
      var id := NewID(w.registry);
      Listed(WorldStep(w, OnRegistry(Create)).tags.byEntity, id) == []
      <==> forall tag :: TagEntity(id, tag) !in calls
  {
    var id := NewID(WorldAfter(NEW_WORLD, calls).registry);
    var given := TagsGiven(calls, id);
    IndexReadsTheRun(calls, id, "");
    if given != [] {
      assert given[0] in given;
    }
  }

  /** A recycled id loses its components and keeps its tags. */
  lemma {:induction false} RecycledKeepsTags(calls: seq<WorldCall>, id: EntityID, tag: string)
    ensures
      var w := WorldAfter(NEW_WORLD, calls);
      var dead := WorldStep(WorldStep(w, TagEntity(id, tag)), OnRegistry(Destroy(id)));
      var reborn := WorldStep(dead, OnRegistry(Create));
      NewID(dead.registry) == id && id in reborn.registry.entities
      && HasTag(reborn.tags, id, tag) && forall kind :: !Has(reborn.registry, kind, id)
  {
    var w := WorldAfter(NEW_WORLD, calls);
    CreateAfterDestroy(w.registry, id);
    assert forall kind :: !Has(Destroyed(w.registry, id), kind, id);
  }

  // ----- The classes -----

  class EntityManager {
    var nextID: EntityID
    var entities: seq<EntityID>
    var freeList: seq<EntityID>
    var componentStores: map<TypeIndex, Store>

    ghost function Value(): Registry
      reads this
    {
      Registry(nextID, entities, freeList, componentStores)
    }

    constructor ()
      ensures Value() == NEW_REGISTRY
    {
      nextID, entities, freeList, componentStores := 1, [], [], map[];
    }

    method CreateEntity() returns (id: EntityID)
      modifies this
      ensures id == NewID(old(Value())) && Value() == Created(old(Value()))
    {
      if freeList != [] {
        id := freeList[|freeList| - 1];
        freeList := freeList[..|freeList| - 1];
      } else {
        id := nextID;
        nextID := (nextID + 1) % ID_LIMIT;
      }
      entities := entities + [id];
    }

    method DestroyEntity(id: EntityID)
      modifies this
      ensures Value() == Destroyed(old(Value()), id)
    {
      ghost var before := componentStores;
      var left := componentStores.Keys;
      while left != {}
        invariant left <= before.Keys == componentStores.Keys
        invariant nextID == old(nextID) && entities == old(entities) && freeList == old(freeList)
        invariant forall kind :: kind in left ==> componentStores[kind] == before[kind]
        invariant forall kind :: kind in before && kind !in left ==> componentStores[kind] == before[kind] - {id}
      {
        var kind :| kind in left;
        componentStores := componentStores[kind := componentStores[kind] - {id}];
        left := left - {kind};
      }
      entities := Without(entities, id);
      freeList := freeList + [id];
      assert componentStores == Forget(before, id);
    }

    method IsValid(id: EntityID) returns (valid: bool)
      ensures valid <==> id in entities
    {
      valid := id in entities;
    }

    method AddComponent(kind: TypeIndex, entity: EntityID, data: string)
      modifies this
      ensures Value() == Added(old(Value()), kind, entity, data)
    {
      var store := StoreOf(componentStores, kind);
      componentStores := componentStores[kind := store[entity := Component(entity, true, data)]];
    }

    method RemoveComponent(kind: TypeIndex, entity: EntityID)
      modifies this
      ensures Value() == Removed(old(Value()), kind, entity)
    {
      if kind in componentStores {
        componentStores := componentStores[kind := componentStores[kind] - {entity}];
      }
    }

    /** Null, in the source, is no component here. */
    method GetComponent(kind: TypeIndex, entity: EntityID) returns (found: bool, component: Component)
      ensures found <==> Has(Value(), kind, entity)
      ensures found ==> component == componentStores[kind][entity]
    {
      found, component := false, Component(INVALID_ENTITY, true, "");
      if kind in componentStores {
        var store := componentStores[kind];
        if entity in store {
          found, component := true, store[entity];
        }
      }
    }
  }

  class World {
    const entityManager: EntityManager
    var tagToEntities: map<string, seq<EntityID>>
    var entityToTags: map<EntityID, seq<string>>

    ghost function Value(): WorldState
      reads this, entityManager
    {
      WorldState(entityManager.Value(), Tags(tagToEntities, entityToTags))
    }

    constructor ()
      ensures Value() == NEW_WORLD && fresh(entityManager)
    {
      entityManager := new EntityManager();
      tagToEntities, entityToTags := map[], map[];
    }

    method SpawnEntity() returns (id: EntityID)
      modifies entityManager
      ensures id == NewID(old(Value()).registry)
      ensures Value() == WorldStep(old(Value()), OnRegistry(Create))
    {
      id := entityManager.CreateEntity();
    }

    method DestroyEntity(entity: EntityID)
      modifies entityManager
      ensures Value() == WorldStep(old(Value()), OnRegistry(Destroy(entity)))
    {
      entityManager.DestroyEntity(entity);
    }

    method TagEntity(entity: EntityID, tag: string)
      modifies this
      ensures Value() == WorldStep(old(Value()), WorldCall.TagEntity(entity, tag))
    {
      tagToEntities := tagToEntities[tag := Listed(tagToEntities, tag) + [entity]];
      entityToTags := entityToTags[entity := Listed(entityToTags, entity) + [tag]];
    }

    method GetEntitiesWithTag(tag: string) returns (found: seq<EntityID>)
      ensures found == Listed(Value().tags.byTag, tag)
    {
      if tag in tagToEntities {
        return tagToEntities[tag];
      }
      return [];
    }

    method EntityHasTag(entity: EntityID, tag: string) returns (has: bool)
      ensures has <==> HasTag(Value().tags, entity, tag)
    {
      if entity !in entityToTags {
        return false;
      }
      return tag in entityToTags[entity];
    }
  }
}
