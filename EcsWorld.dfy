/**
 * The ECS world's system list: `_systems`, kept in non-decreasing
 * `UpdateOrder`, and `_sortedUpdateDelegates`, the systems' `Update`
 * methods in the same order.
 *
 * A system is a value with an identity, a runtime type and a fixed
 * `UpdateOrder`. Calls of its `Initialize`, `Update` and `Destroy` are
 * recorded, in order, in `calls`.
 */
module EcsWorlds {
  import opened Common

  /** An `IEcsSystem` object: `id` is its identity, `kind` its runtime type. */
  datatype EcsSystem = EcsSystem(id: nat, kind: nat, updateOrder: int)

  /** A delegate bound to one system's `Update`. */
  datatype UpdateDelegate = UpdateOf(system: EcsSystem)

  datatype SystemCall = Initialized(system: EcsSystem) | Updated(system: EcsSystem) | Destroyed(system: EcsSystem)

  /** Non-decreasing `UpdateOrder`. */
  predicate Sorted(s: seq<EcsSystem>)
  {
    forall i, j :: 0 <= i < j < |s| ==> s[i].updateOrder <= s[j].updateOrder
  }

  /** The delegate list holds, at each index, the `Update` of the system at that index. */
  predicate Aligned(systems: seq<EcsSystem>, delegates: seq<UpdateDelegate>)
  {
    |delegates| == |systems| && forall i :: 0 <= i < |systems| ==> delegates[i] == UpdateOf(systems[i])
  }

  /** Where a system of update order `order` goes: before the first system whose order is not smaller. */
  function InsertionPoint(s: seq<EcsSystem>, order: int): (r: nat)
    ensures r <= |s|
    ensures forall k :: 0 <= k < r ==> s[k].updateOrder < order
    ensures r < |s| ==> s[r].updateOrder >= order
  {
    if s == [] || s[0].updateOrder >= order then 0 else 1 + InsertionPoint(s[1..], order)
  }

  /** `s` with `x` inserted at index `i`. */
  function Insert<T>(s: seq<T>, i: nat, x: T): (r: seq<T>)
    requires i <= |s|
  {
    s[..i] + [x] + s[i..]
  }

  /** The elements of `s` with `x` inserted at index `i`. */
  lemma InsertElements<T>(s: seq<T>, i: nat, x: T)
    requires i <= |s|
    ensures |Insert(s, i, x)| == |s| + 1
    ensures forall k :: 0 <= k < |s| + 1 ==> Insert(s, i, x)[k] == if k < i then s[k] else if k == i then x else s[k - 1]
  {
  }

  /** Inserting at the insertion point keeps a sorted list sorted. */
  lemma InsertSorted(s: seq<EcsSystem>, x: EcsSystem)
    requires Sorted(s)
    ensures Sorted(Insert(s, InsertionPoint(s, x.updateOrder), x))
  {
    var i := InsertionPoint(s, x.updateOrder);
    InsertElements(s, i, x);
    var t := Insert(s, i, x);
    forall a, b | 0 <= a < b < |t|
      ensures t[a].updateOrder <= t[b].updateOrder
    {
      if a == i && b > i {
        assert s[i].updateOrder <= s[b - 1].updateOrder;
      }
    }
  }

  /** Inserting a new system and its delegate at the insertion point keeps the lists aligned, sorted and free of repeats. */
  lemma InsertValid(systems: seq<EcsSystem>, delegates: seq<UpdateDelegate>, x: EcsSystem)
    requires Aligned(systems, delegates) && Sorted(systems) && NoDups(systems) && x !in systems
    ensures var i := InsertionPoint(systems, x.updateOrder);
            Aligned(Insert(systems, i, x), Insert(delegates, i, UpdateOf(x))) &&
            Sorted(Insert(systems, i, x)) && NoDups(Insert(systems, i, x))
  {
    var i := InsertionPoint(systems, x.updateOrder);
    InsertSorted(systems, x);
    InsertElements(systems, i, x);
    InsertElements(delegates, i, UpdateOf(x));
  }

  /** Systems with an order equal to a new one's all come after it once it is inserted. */
  lemma InsertBeforeEqual(s: seq<EcsSystem>, x: EcsSystem, k: nat)
    requires Sorted(s) && k < |s| && s[k].updateOrder == x.updateOrder
    ensures k >= InsertionPoint(s, x.updateOrder)
    ensures Insert(s, InsertionPoint(s, x.updateOrder), x)[k + 1] == s[k]
  {
    InsertElements(s, InsertionPoint(s, x.updateOrder), x);
  }

  /** The first system whose runtime type is one of `kinds` (the type `T` and its subtypes). */
  function FirstOfKind(s: seq<EcsSystem>, kinds: set<nat>): (r: Option<EcsSystem>)
    ensures r.None? <==> forall k :: 0 <= k < |s| ==> s[k].kind !in kinds
    ensures r.Some? ==> exists i :: 0 <= i < |s| && s[i] == r.value && r.value.kind in kinds &&
                                    forall k :: 0 <= k < i ==> s[k].kind !in kinds
  {
    if s == [] then None
    else if s[0].kind in kinds then Some(s[0])
    else
      var r := FirstOfKind(s[1..], kinds);
      assert forall k :: 1 <= k < |s| ==> s[k] == s[1..][k - 1];
      if r.Some? then
        var i :| 0 <= i < |s[1..]| && s[1..][i] == r.value && r.value.kind in kinds &&
                 forall k :: 0 <= k < i ==> s[1..][k].kind !in kinds;
        assert s[i + 1] == r.value;
        r
      else r
  }

  /** The `Update` calls of a delegate list, in list order. */
  function UpdateCalls(delegates: seq<UpdateDelegate>): (r: seq<SystemCall>)
    ensures |r| == |delegates|
    ensures forall i :: 0 <= i < |delegates| ==> r[i] == Updated(delegates[i].system)
  {
    if delegates == [] then [] else [Updated(delegates[0].system)] + UpdateCalls(delegates[1..])
  }

  /** The `Destroy` calls of a system list, in list order. */
  function DestroyCalls(systems: seq<EcsSystem>): (r: seq<SystemCall>)
    ensures |r| == |systems|
    ensures forall i :: 0 <= i < |systems| ==> r[i] == Destroyed(systems[i])
  {
    if systems == [] then [] else [Destroyed(systems[0])] + DestroyCalls(systems[1..])
  }

  lemma UpdateCallsAppend(a: seq<UpdateDelegate>, d: UpdateDelegate)
    ensures UpdateCalls(a + [d]) == UpdateCalls(a) + [Updated(d.system)]
  {
  }

  lemma DestroyCallsAppend(a: seq<EcsSystem>, x: EcsSystem)
    ensures DestroyCalls(a + [x]) == DestroyCalls(a) + [Destroyed(x)]
  {
  }

  class EcsWorld {
    /** `_systems`. */
    var systems: seq<EcsSystem>
    /** `_sortedUpdateDelegates`. */
    var delegates: seq<UpdateDelegate>
    /** The calls made into systems, in order. */
    var calls: seq<SystemCall>

    /** The two lists are index-aligned, sorted by update order and free of repeats. */
    predicate Valid()
      reads this
    {
      Aligned(systems, delegates) && Sorted(systems) && NoDups(systems)
    }

    constructor ()
      ensures Valid() && systems == [] && delegates == [] && calls == []
    {
      systems := [];
      delegates := [];
      calls := [];
    }

    /**
     * `AddEcsSystem(system)`: null and an already-present system are
     * ignored; otherwise the system is initialised and inserted into both
     * lists before the first system whose order is not smaller.
     */
    method AddEcsSystem(system: Option<EcsSystem>)
      requires Valid()
      modifies this
      ensures Valid()
      ensures system.None? || system.value in old(systems) ==>
                systems == old(systems) && delegates == old(delegates) && calls == old(calls)
      ensures system.Some? && system.value !in old(systems) ==>
                var i := InsertionPoint(old(systems), system.value.updateOrder);
                systems == Insert(old(systems), i, system.value) &&
                delegates == Insert(old(delegates), i, UpdateOf(system.value)) &&
                calls == old(calls) + [Initialized(system.value)]
    {
      if system.None? {
        return;
      }
      var s := system.value;
      if s in systems {
        return;
      }
      calls := calls + [Initialized(s)];
      var index := 0;
      while index < |systems| && systems[index].updateOrder < s.updateOrder
        invariant 0 <= index <= |systems|
        invariant forall k :: 0 <= k < index ==> systems[k].updateOrder < s.updateOrder
      {
        index := index + 1;
      }
      assert index == InsertionPoint(systems, s.updateOrder);
      InsertValid(systems, delegates, s);
      systems := Insert(systems, index, s);
      delegates := Insert(delegates, index, UpdateOf(s));
    }

    /** `RemoveEcsSystem(system)`: an absent system is ignored; a present one leaves both lists and is destroyed. */
    method RemoveEcsSystem(system: EcsSystem)
      requires Valid()
      modifies this
      ensures Valid()
      ensures system !in old(systems) ==> systems == old(systems) && delegates == old(delegates) && calls == old(calls)
      ensures system in old(systems) ==>
                var i := IndexOf(old(systems), system);
                systems == RemoveAt(old(systems), i) && delegates == RemoveAt(old(delegates), i) &&
                system !in systems && calls == old(calls) + [Destroyed(system)]
    {
      var index := IndexOf(systems, system);
      if index != -1 {
        RemoveAtNoDups(systems, index);
        systems := RemoveAt(systems, index);
        delegates := RemoveAt(delegates, index);
        calls := calls + [Destroyed(system)];
      }
    }

    /** `GetEcsSystem<T>()`: the first system in list order whose type is `T` or derives from it, or null. */
    method GetEcsSystem(kinds: set<nat>) returns (r: Option<EcsSystem>)
      ensures r == FirstOfKind(systems, kinds)
    {
      var i := 0;
      while i < |systems|
        invariant 0 <= i <= |systems|
        invariant FirstOfKind(systems, kinds) == FirstOfKind(systems[i..], kinds)
      {
        if systems[i].kind in kinds {
          return Some(systems[i]);
        }
        assert systems[i..][1..] == systems[i + 1..];
        i := i + 1;
      }
      return None;
    }

    /** `Update()`: each delegate is invoked in list order. */
    method Update()
      requires Valid()
      modifies this`calls
      ensures calls == old(calls) + UpdateCalls(delegates)
      ensures forall i :: 0 <= i < |systems| ==> calls[|old(calls)| + i] == Updated(systems[i])
    {
      for i := 0 to |delegates|
        invariant calls == old(calls) + UpdateCalls(delegates[..i])
      {
        UpdateCallsAppend(delegates[..i], delegates[i]);
        assert delegates[..i + 1] == delegates[..i] + [delegates[i]];
        calls := calls + [Updated(delegates[i].system)];
      }
      assert delegates[..|delegates|] == delegates;
    }

    /** `OnDestroy()`: every system is destroyed in list order, then both lists are emptied. */
    method OnDestroy()
      requires Valid()
      modifies this
      ensures Valid() && systems == [] && delegates == []
      ensures calls == old(calls) + DestroyCalls(old(systems))
    {
      for i := 0 to |systems|
        invariant systems == old(systems) && delegates == old(delegates)
        invariant calls == old(calls) + DestroyCalls(systems[..i])
      {
        DestroyCallsAppend(systems[..i], systems[i]);
        assert systems[..i + 1] == systems[..i] + [systems[i]];
        calls := calls + [Destroyed(systems[i])];
      }
      assert systems[..|systems|] == systems;
      systems := [];
      delegates := [];
    }
  }
}
