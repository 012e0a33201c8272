/**
 * The ECS entity store `EcsEntityManager`: entity ids handed out in order,
 * each entity's components by type (`_entityComponents`) and, for each
 * component type, the ids holding one (`_componentEntities`).
 *
 * A component value is opaque (`V`).
 */
module Ecs {
  import opened Common

  /** `typeof(T)` for a component struct `T`, identified by its name. */
  datatype ComponentType = TypeOf(name: string)

  /** `EcsEntity`: a value wrapping a 64-bit id. */
  datatype EcsEntity = EcsEntity(id: int)

  datatype EcsError = ArgumentException | InvalidOperationException

  /**
   * The two maps agree: an id is listed under a type exactly when its entity
   * holds a component of that type, and no type lists nobody.
   */
  predicate Indexed<V>(components: map<int, map<ComponentType, V>>, entities: map<ComponentType, set<int>>)
  {
    (forall t, id :: t in entities && id in entities[t] ==> id in components && t in components[id]) &&
    (forall id, t :: id in components && t in components[id] ==> t in entities && id in entities[t]) &&
    (forall t :: t in entities ==> entities[t] != {})
  }

  /** The index that the component map determines. */
  function IndexFor<V>(components: map<int, map<ComponentType, V>>): (r: map<ComponentType, set<int>>)
    ensures forall t :: t in r <==> exists id :: id in components && t in components[id]
  {
    var types := set id, t | id in components && t in components[id] :: t;
    map t | t in types :: set id | id in components && t in components[id]
  }

  /** The index is exactly the one the component map determines, so it carries no state of its own. */
  lemma IndexedIff<V>(components: map<int, map<ComponentType, V>>, entities: map<ComponentType, set<int>>)
    ensures Indexed(components, entities) <==> entities == IndexFor(components)
  {
    var idx := IndexFor(components);
    if Indexed(components, entities) {
      forall t | t in entities
        ensures t in idx && entities[t] == idx[t]
      {
        var id := Pick(entities[t]);
        assert t in components[id];
        assert t in idx;
        forall x ensures x in entities[t] <==> x in idx[t] {
        }
      }
      forall t | t in idx
        ensures t in entities
      {
        var id :| id in components && t in components[id];
      }
    }
    if entities == idx {
      forall t | t in idx
        ensures idx[t] != {}
      {
        var id :| id in components && t in components[id];
        assert id in idx[t];
      }
    }
  }

  /** `_componentEntities` once `id` no longer holds a `t`: the type is dropped when nobody is left under it. */
  function Unlisted(entities: map<ComponentType, set<int>>, t: ComponentType, id: int): map<ComponentType, set<int>>
  {
    if t !in entities then entities
    else if entities[t] - {id} == {} then entities - {t}
    else entities[t := entities[t] - {id}]
  }

  /** `_componentEntities` once `id` holds a `t`. */
  function Listed(entities: map<ComponentType, set<int>>, t: ComponentType, id: int): map<ComponentType, set<int>>
  {
    entities[t := (if t in entities then entities[t] else {}) + {id}]
  }

  /** Removing one component keeps the two maps in agreement. */
  lemma UnlistedIndexed<V>(components: map<int, map<ComponentType, V>>, entities: map<ComponentType, set<int>>,
                           id: int, t: ComponentType)
    requires Indexed(components, entities) && id in components && t in components[id]
    ensures Indexed(components[id := components[id] - {t}], Unlisted(entities, t, id))
  {
    var c', e' := components[id := components[id] - {t}], Unlisted(entities, t, id);
    assert t in entities && id in entities[t];
    forall u, x | u in e' && x in e'[u]
      ensures x in c' && u in c'[x]
    {
      assert u in entities && x in entities[u];
    }
    forall x, u | x in c' && u in c'[x]
      ensures u in e' && x in e'[u]
    {
      assert u in components[x];
      assert x in entities[u];
      if u == t {
        assert x in entities[t] - {id};
      }
    }
  }

  /** Adding a component of a type the entity lacks keeps the two maps in agreement. */
  lemma ListedIndexed<V>(components: map<int, map<ComponentType, V>>, entities: map<ComponentType, set<int>>,
                         id: int, t: ComponentType, c: V)
    requires Indexed(components, entities) && id in components && t !in components[id]
    ensures Indexed(components[id := components[id][t := c]], Listed(entities, t, id))
  {
  }

  /** Replacing a component through remove-then-add leaves the index as it was. */
  lemma RelistSame<V>(components: map<int, map<ComponentType, V>>, entities: map<ComponentType, set<int>>,
                      id: int, t: ComponentType)
    requires Indexed(components, entities) && id in components && t in components[id]
    ensures Listed(Unlisted(entities, t, id), t, id) == entities
    ensures Listed(entities, t, id) == entities
  {
    assert t in entities && id in entities[t];
    var back := Listed(Unlisted(entities, t, id), t, id);
    assert back[t] == entities[t];
    assert back.Keys == entities.Keys;
  }

  /** An entity with no components can leave the component map without touching the index. */
  lemma DropEmptyIndexed<V>(components: map<int, map<ComponentType, V>>, entities: map<ComponentType, set<int>>, id: int)
    requires Indexed(components, entities) && id in components && components[id].Keys == {}
    ensures Indexed(components - {id}, entities)
  {
    forall t, x | t in entities && x in entities[t]
      ensures x in components - {id} && t in (components - {id})[x]
    {
      assert t in components[x];
    }
  }

  /** A new entity with no components joins the component map without touching the index. */
  lemma AddEmptyIndexed<V>(components: map<int, map<ComponentType, V>>, entities: map<ComponentType, set<int>>, id: int)
    requires Indexed(components, entities) && id !in components
    ensures Indexed(components[id := map[]], entities)
  {
    forall t, x | t in entities && x in entities[t]
      ensures x in components[id := map[]] && t in components[id := map[]][x]
    {
      assert x in components && t in components[x];
    }
  }

  /** Removing a component and then storing one of the same type is storing it. */
  lemma ReplaceComponent<V>(components: map<int, map<ComponentType, V>>, id: int, t: ComponentType, c: V)
    requires id in components
    ensures components[id := components[id] - {t}][id := (components[id] - {t})[t := c]] ==
            components[id := components[id][t := c]]
  {
    assert (components[id] - {t})[t := c] == components[id][t := c];
    MapUpdateTwice(components, id, components[id] - {t}, components[id][t := c]);
  }

  /** The entity holds a component of every type in `types`. */
  predicate HoldsAll<V>(held: map<ComponentType, V>, types: seq<ComponentType>)
  {
    forall k :: 0 <= k < |types| ==> types[k] in held
  }

  class EcsEntityManager<V> {
    /** `_nextEntityId`. */
    var nextId: int
    /** `_entityComponents`. */
    var components: map<int, map<ComponentType, V>>
    /** `_componentEntities`. */
    var entities: map<ComponentType, set<int>>

    /** The index agrees with the components and every entity id was handed out already. */
    predicate Valid()
      reads this
    {
      Indexed(components, entities) && 0 <= nextId && forall id :: id in components ==> 0 <= id < nextId
    }

    constructor ()
      ensures Valid() && nextId == 0 && components == map[] && entities == map[]
    {
      nextId := 0;
      components := map[];
      entities := map[];
    }

    /** `CreateEntity()`: the next id, with no components; ids are never reused. */
    method CreateEntity() returns (e: EcsEntity)
      requires Valid()
      modifies this
      ensures Valid()
      ensures e.id == old(nextId) && nextId == old(nextId) + 1 && e.id !in old(components)
      ensures components == old(components)[e.id := map[]] && entities == old(entities)
      ensures Exists(e) && forall t :: !HasComponent(e, t)
    {
      e := EcsEntity(nextId);
      AddEmptyIndexed(components, entities, e.id);
      nextId := nextId + 1;
      components := components[e.id := map[]];
    }

    /** `Exists(entity)`: only an id already handed out can exist. */
    function Exists(e: EcsEntity): (r: bool)
      reads this
      ensures r <==> e.id in components
      ensures Valid() && r ==> 0 <= e.id < nextId
    {
      e.id in components
    }

    /** `HasComponent<T>(entity)`: a missing entity holds nothing, and the type index agrees. */
    function HasComponent(e: EcsEntity, t: ComponentType): (r: bool)
      reads this
      ensures r ==> Exists(e)
      ensures Valid() ==> (r <==> t in entities && e.id in entities[t])
    {
      e.id in components && t in components[e.id]
    }

    /** `GetComponent<T>(entity)`: InvalidOperationException when the entity or the component is missing. */
    function GetComponent(e: EcsEntity, t: ComponentType): (r: Result<V, EcsError>)
      reads this
      ensures r.Ok? <==> HasComponent(e, t)
      ensures r.Err? ==> r.error == InvalidOperationException
      ensures r.Ok? ==> r.value == components[e.id][t]
    {
      if e.id in components && t in components[e.id] then Ok(components[e.id][t]) else Err(InvalidOperationException)
    }

    /** `GetEntitiesWithComponent<T>()`: the entities holding a `t`. */
    function GetEntitiesWithComponent(t: ComponentType): (r: set<EcsEntity>)
      reads this
      ensures Valid() ==> forall e :: e in r <==> HasComponent(e, t)
    {
      if t in entities then set id | id in entities[t] :: EcsEntity(id) else {}
    }

    /** The private `RemoveComponent(entity, type)`: a missing entity or component is ignored. */
    method RemoveComponent(e: EcsEntity, t: ComponentType)
      requires Valid()
      modifies this
      ensures Valid() && nextId == old(nextId)
      ensures !HasComponent(e, t)
      ensures old(HasComponent(e, t)) ==>
                components == old(components)[e.id := old(components)[e.id] - {t}] &&
                entities == Unlisted(old(entities), t, e.id)
      ensures !old(HasComponent(e, t)) ==> components == old(components) && entities == old(entities)
    {
      if e.id !in components {
        return;
      }
      if t !in components[e.id] {
        return;
      }
      UnlistedIndexed(components, entities, e.id, t);
      components := components[e.id := components[e.id] - {t}];
      if t !in entities {
        return;
      }
      entities := entities[t := entities[t] - {e.id}];
      if |entities[t]| == 0 {
        entities := entities - {t};
      }
    }

    /** The tail of `AddComponent`, once the entity is known to lack a `t`: store the component and index it. */
    method StoreComponent(e: EcsEntity, t: ComponentType, c: V)
      requires Valid() && e.id in components && t !in components[e.id]
      modifies this
      ensures Valid() && nextId == old(nextId)
      ensures components == old(components)[e.id := old(components)[e.id][t := c]]
      ensures entities == Listed(old(entities), t, e.id)
    {
      ListedIndexed(components, entities, e.id, t, c);
      ghost var e0 := entities;
      components := components[e.id := components[e.id][t := c]];
      if t !in entities {
        entities := entities[t := {}];
        MapUpdateTwice(e0, t, {}, {e.id});
      }
      entities := entities[t := entities[t] + {e.id}];
    }

    /**
     * `AddComponent<T>(entity, component)`: ArgumentException for a missing
     * entity; otherwise an older component of the type is removed first and
     * the new one stored and indexed.
     */
    method AddComponent(e: EcsEntity, t: ComponentType, c: V) returns (r: Outcome<EcsError>)
      requires Valid()
      modifies this
      ensures Valid() && nextId == old(nextId)
      ensures r.Fail? <==> !old(Exists(e))
      ensures r.Fail? ==> r.error == ArgumentException && components == old(components) && entities == old(entities)
      ensures r.Pass? ==> components == old(components)[e.id := old(components)[e.id][t := c]] &&
                          entities == Listed(old(entities), t, e.id)
      ensures r.Pass? ==> HasComponent(e, t) && GetComponent(e, t) == Ok(c) && e in GetEntitiesWithComponent(t)
    {
      if e.id !in components {
        return Fail(ArgumentException);
      }
      if t in components[e.id] {
        RelistSame(components, entities, e.id, t);
        ReplaceComponent(components, e.id, t, c);
        RemoveComponent(e, t);
      }
      StoreComponent(e, t, c);
      return Pass;
    }

    /** `SetComponent<T>(entity, component)`: replaces the value of a present component only; the index is untouched. */
    method SetComponent(e: EcsEntity, t: ComponentType, c: V) returns (r: Outcome<EcsError>)
      requires Valid()
      modifies this`components
      ensures Valid()
      ensures r.Fail? <==> !old(HasComponent(e, t))
      ensures r.Fail? ==> r.error == InvalidOperationException && components == old(components)
      ensures r.Pass? ==> components == old(components)[e.id := old(components)[e.id][t := c]] && GetComponent(e, t) == Ok(c)
    {
      if e.id !in components || t !in components[e.id] {
        return Fail(InvalidOperationException);
      }
      components := components[e.id := components[e.id][t := c]];
      return Pass;
    }

    /** The loop of `DestroyEntity`: each of the entity's component types is removed in turn. */
    method RemoveAllComponents(e: EcsEntity)
      requires Valid() && e.id in components
      modifies this
      ensures Valid() && nextId == old(nextId)
      ensures e.id in components && components[e.id].Keys == {}
      ensures components - {e.id} == old(components) - {e.id}
    {
      var rest := components[e.id].Keys;
      while rest != {}
        invariant Valid() && nextId == old(nextId)
        invariant e.id in components && components[e.id].Keys == rest
        invariant components - {e.id} == old(components) - {e.id}
        decreases |rest|
      {
        var t :| t in rest;
        ghost var before := components;
        RemoveComponent(e, t);
        MapUpdateMinus(before, e.id, before[e.id] - {t});
        rest := rest - {t};
      }
    }

    /** `DestroyEntity(entity)`: every component is removed, then the entity; an unknown entity is ignored. */
    method DestroyEntity(e: EcsEntity)
      requires Valid()
      modifies this
      ensures Valid() && nextId == old(nextId) && !Exists(e)
      ensures components == old(components) - {e.id}
      ensures entities == IndexFor(components)
    {
      if e.id !in components {
        IndexedIff(components, entities);
        return;
      }
      RemoveAllComponents(e);
      DropEmptyIndexed(components, entities, e.id);
      components := components - {e.id};
      IndexedIff(components, entities);
    }

    /**
     * `GetEntitiesWithAll(types)`: none for no types; otherwise the entities
     * holding every listed type, found by intersecting the index sets and
     * stopping early at a type nobody holds or an empty intersection.
     */
    method GetEntitiesWithAll(types: seq<ComponentType>) returns (r: set<EcsEntity>)
      requires Valid()
      ensures |types| == 0 ==> r == {}
      ensures |types| > 0 ==> forall e :: e in r <==> e.id in components && HoldsAll(components[e.id], types)
    {
      if |types| == 0 {
        return {};
      }
      if types[0] !in entities {
        return {};
      }
      var result := entities[types[0]];
      var i := 1;
      while i < |types|
        invariant 1 <= i <= |types|
        invariant forall id :: id in result <==> id in components && HoldsAll(components[id], types[..i])
      {
        if types[i] !in entities {
          assert forall id :: id in components ==> !HoldsAll(components[id], types);
          return {};
        }
        result := result * entities[types[i]];
        assert types[..i + 1] == types[..i] + [types[i]];
        assert forall id :: id in result <==> id in components && HoldsAll(components[id], types[..i + 1]);
        if |result| == 0 {
          return {};
        }
        i := i + 1;
      }
      assert types[..i] == types;
      r := set id | id in result :: EcsEntity(id);
    }
  }
}
