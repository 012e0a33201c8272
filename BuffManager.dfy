/**
 * The buff manager: owner -> list of effect instances, owner -> listeners,
 * one pool per effect kind, and the bodies of the three periodic loops
 * (the behaviour tick, the housekeeping sweep and the decay pass).
 *
 * Every `List<BuffBase>` the manager creates is kept in `lists` under a
 * reference of its own; `_buffDictionary` and `_buffDictionaryCopy` map
 * owners to such references, so the two dictionaries share lists exactly
 * as the source's dictionaries share list objects. A multicast listener
 * delegate is the sequence of its listeners; an empty sequence is a null
 * delegate. Calls of listeners are recorded in `notifications`, calls of
 * an instance's hooks in its `hooks`.
 */
module Buffs {
  import opened Common
  import BuffConfigs
  import opened BuffRuntime
  import opened BuffPools
  import opened BuffDecay

  type Listener = nat

  /** The identity of one `List<BuffBase>` object. */
  type ListRef = nat

  /** A list handed to a caller: one the manager keeps, or a new empty list it does not keep. */
  datatype ListView = Live(ref: ListRef) | Detached

  /** What the constructor of a concrete effect class passes to `BuffBase`. */
  datatype BuffDefinition = BuffDefinition(config: BuffConfigs.BuffConfig, metadata: BuffMetadata)

  /** One call of a listener with the instance just added. */
  datatype Notification = Notification(listener: Listener, buff: BuffBase)

  /** The `is T` test of a kind. */
  function OfKind(kind: Kind): BuffBase -> bool
  {
    (b: BuffBase) => b.kind == kind
  }

  /** Invoking a delegate with `b` calls each listener once, in invocation-list order. */
  function Notify(listeners: seq<Listener>, b: BuffBase): (r: seq<Notification>)
    ensures |r| == |listeners|
    ensures forall i :: 0 <= i < |r| ==> r[i] == Notification(listeners[i], b)
  {
    if listeners == [] then [] else [Notification(listeners[0], b)] + Notify(listeners[1..], b)
  }

  /** The index of the first instance of `s` whose provider is `p`, or -1. */
  function ProviderIndex(s: seq<BuffBase>, p: Option<Entity>): (r: int)
    reads set b | b in s :: b.runtime
    ensures -1 <= r < |s|
    ensures r == -1 <==> forall j :: 0 <= j < |s| ==> s[j].runtime.provider != p
    ensures 0 <= r ==> s[r].runtime.provider == p && forall j :: 0 <= j < r ==> s[j].runtime.provider != p
  {
    if s == [] then -1
    else if s[0].runtime.provider == p then 0
    else
      var k := ProviderIndex(s[1..], p);
      if k == -1 then -1 else k + 1
  }

  /** The index of the first instance of `kind` in `s`, or -1. */
  function KindIndex(s: seq<BuffBase>, kind: Kind): (r: int)
    ensures -1 <= r < |s|
    ensures r == -1 <==> forall j :: 0 <= j < |s| ==> s[j].kind != kind
    ensures 0 <= r ==> s[r].kind == kind && forall j :: 0 <= j < r ==> s[j].kind != kind
  {
    if s == [] then -1
    else if s[0].kind == kind then 0
    else
      var k := KindIndex(s[1..], kind);
      if k == -1 then -1 else k + 1
  }

  /** The index of the first instance of `kind` in `s` whose provider is `p`, or -1. */
  function MatchIndex(s: seq<BuffBase>, kind: Kind, p: Option<Entity>): (r: int)
    reads set b | b in s :: b.runtime
    ensures -1 <= r < |s|
    ensures r == -1 <==> forall j :: 0 <= j < |s| ==> s[j].kind != kind || s[j].runtime.provider != p
    ensures 0 <= r ==> s[r].kind == kind && s[r].runtime.provider == p &&
                       forall j :: 0 <= j < r ==> s[j].kind != kind || s[j].runtime.provider != p
  {
    if s == [] then -1
    else if s[0].kind == kind && s[0].runtime.provider == p then 0
    else
      var k := MatchIndex(s[1..], kind, p);
      if k == -1 then -1 else k + 1
  }

  /** The first element of the instances of a kind is the first instance of that kind. */
  lemma {:induction false} KindIndexFilter(s: seq<BuffBase>, kind: Kind)
    ensures (Filter(s, OfKind(kind)) == []) <==> KindIndex(s, kind) == -1
    ensures KindIndex(s, kind) >= 0 ==> Filter(s, OfKind(kind))[0] == s[KindIndex(s, kind)]
  {
    if s != [] && s[0].kind != kind {
      KindIndexFilter(s[1..], kind);
    }
  }

  /**
   * Searching the instances of a kind for a provider finds the first instance
   * of that kind with that provider.
   */
  lemma {:induction false} MatchIndexFilter(s: seq<BuffBase>, kind: Kind, p: Option<Entity>)
    ensures ProviderIndex(Filter(s, OfKind(kind)), p) == -1 <==> MatchIndex(s, kind, p) == -1
    ensures MatchIndex(s, kind, p) >= 0 ==>
              Filter(s, OfKind(kind))[ProviderIndex(Filter(s, OfKind(kind)), p)] == s[MatchIndex(s, kind, p)]
  {
    if s != [] {
      MatchIndexFilter(s[1..], kind, p);
      if s[0].kind != kind {
        MatchSkipOther(s, kind, p);
      } else if s[0].runtime.provider != p {
        MatchSkipProvider(s, kind, p);
      }
    }
  }

  /** The step of `MatchIndexFilter` past an instance of another kind. */
  lemma MatchSkipOther(s: seq<BuffBase>, kind: Kind, p: Option<Entity>)
    requires s != [] && s[0].kind != kind
    requires ProviderIndex(Filter(s[1..], OfKind(kind)), p) == -1 <==> MatchIndex(s[1..], kind, p) == -1
    requires MatchIndex(s[1..], kind, p) >= 0 ==>
               Filter(s[1..], OfKind(kind))[ProviderIndex(Filter(s[1..], OfKind(kind)), p)] ==
               s[1..][MatchIndex(s[1..], kind, p)]
    ensures ProviderIndex(Filter(s, OfKind(kind)), p) == -1 <==> MatchIndex(s, kind, p) == -1
    ensures MatchIndex(s, kind, p) >= 0 ==>
              Filter(s, OfKind(kind))[ProviderIndex(Filter(s, OfKind(kind)), p)] == s[MatchIndex(s, kind, p)]
  {
    var m := MatchIndex(s[1..], kind, p);
    assert Filter(s, OfKind(kind)) == Filter(s[1..], OfKind(kind));
    if m >= 0 {
      assert s[m + 1] == s[1..][m];
    }
  }

  /** The step of `MatchIndexFilter` past an instance of the kind with another provider. */
  lemma MatchSkipProvider(s: seq<BuffBase>, kind: Kind, p: Option<Entity>)
    requires s != [] && s[0].kind == kind && s[0].runtime.provider != p
    requires ProviderIndex(Filter(s[1..], OfKind(kind)), p) == -1 <==> MatchIndex(s[1..], kind, p) == -1
    requires MatchIndex(s[1..], kind, p) >= 0 ==>
               Filter(s[1..], OfKind(kind))[ProviderIndex(Filter(s[1..], OfKind(kind)), p)] ==
               s[1..][MatchIndex(s[1..], kind, p)]
    ensures ProviderIndex(Filter(s, OfKind(kind)), p) == -1 <==> MatchIndex(s, kind, p) == -1
    ensures MatchIndex(s, kind, p) >= 0 ==>
              Filter(s, OfKind(kind))[ProviderIndex(Filter(s, OfKind(kind)), p)] == s[MatchIndex(s, kind, p)]
  {
    var f, g := Filter(s, OfKind(kind)), Filter(s[1..], OfKind(kind));
    var k, m := ProviderIndex(g, p), MatchIndex(s[1..], kind, p);
    assert f == [s[0]] + g;
    assert f[1..] == g;
    assert ProviderIndex(f, p) == if k == -1 then -1 else k + 1;
    if m >= 0 {
      assert s[m + 1] == s[1..][m];
      assert f[k + 1] == g[k];
    }
  }

  /** How `AddBuff<T>` treats an owner's list: a new instance, a raised level, or a replacement. */
  datatype Plan = AppendNew | Raise(buff: BuffBase) | Replace(buff: BuffBase)

  /**
   * The decision of `AddBuff<T>` once the owner has an entry: with no
   * instance of the kind a new one is added; otherwise the resolution of the
   * first one decides. Combine raises that first instance; Cover replaces it;
   * Separate raises the first instance of the kind with the same provider,
   * and adds a new one when there is none.
   */
  function Resolve(items: seq<BuffBase>, kind: Kind, provider: Option<Entity>): (p: Plan)
    reads set b | b in items :: b.runtime
    ensures p.Raise? || p.Replace? ==> p.buff in items && p.buff.kind == kind
    ensures p.AppendNew? <==>
              (forall b :: b in items ==> b.kind != kind) ||
              (items[KindIndex(items, kind)].config.resolution.Separate? &&
               forall b :: b in items && b.kind == kind ==> b.runtime.provider != provider)
    ensures p.Replace? <==> KindIndex(items, kind) >= 0 && items[KindIndex(items, kind)].config.resolution.Cover?
    ensures p.Replace? ==> p.buff == items[KindIndex(items, kind)]
    ensures p.Raise? ==>
              var k := KindIndex(items, kind);
              k >= 0 && !items[k].config.resolution.Cover? &&
              (items[k].config.resolution.Combine? ==> p.buff == items[k]) &&
              (items[k].config.resolution.Separate? ==>
                 MatchIndex(items, kind, provider) >= 0 && p.buff == items[MatchIndex(items, kind, provider)])
  {
    var k := KindIndex(items, kind);
    if k == -1 then AppendNew
    else match items[k].config.resolution
      case Combine => Raise(items[k])
      case Cover => Replace(items[k])
      case Separate =>
        var j := MatchIndex(items, kind, provider);
        if j == -1 then AppendNew else Raise(items[j])
  }

  /** The number of instances of a kind. */
  function CountOf(s: seq<BuffBase>, kind: Kind): nat
  {
    |Filter(s, OfKind(kind))|
  }

  /** A new instance of the kind at the end adds one to its count. */
  lemma AppendCount(s: seq<BuffBase>, n: BuffBase, kind: Kind)
    requires n.kind == kind
    ensures CountOf(s + [n], kind) == CountOf(s, kind) + 1
  {
    FilterAppend(s, [n], OfKind(kind));
  }

  /** Replacing an instance of the kind by a new one at the end keeps its count. */
  lemma CoverCount(s: seq<BuffBase>, b: BuffBase, n: BuffBase, kind: Kind)
    requires b in s && b.kind == kind && n.kind == kind
    ensures CountOf(RemoveFirst(s, b) + [n], kind) == CountOf(s, kind)
  {
    var i := IndexOf(s, b);
    assert s == s[..i] + [s[i]] + s[i + 1..];
    FilterAppend(s[..i] + [s[i]], s[i + 1..], OfKind(kind));
    FilterAppend(s[..i], [s[i]], OfKind(kind));
    FilterAppend(s[..i], s[i + 1..], OfKind(kind));
    AppendCount(RemoveFirst(s, b), n, kind);
  }

  /** The owner's list after `AddBuff<T>` carried out `plan` on `before`, adding `added`. */
  ghost predicate ListAfter(plan: Plan, before: seq<BuffBase>, after: seq<BuffBase>, added: Option<BuffBase>)
  {
    match plan
    case AppendNew => after == before + Elements(added)
    case Raise(_) => after == before
    case Replace(b) => after == RemoveFirst(before, b) + Elements(added)
  }

  /** `CurrentLevel += level`, wrapping like `uint`. */
  method RaiseLevel(b: BuffBase, level: u32)
    modifies b.runtime
    ensures b.runtime.State() == old(b.runtime.State()).(level := AddU32(old(b.runtime.currentLevel), level))
  {
    b.runtime.currentLevel := AddU32(b.runtime.currentLevel, level);
  }

  /** The `foreach` of Separate over the instances of the kind, stopping at the first with the provider. */
  method FindProvider(same: seq<BuffBase>, provider: Option<Entity>) returns (j: int)
    ensures j == ProviderIndex(same, provider)
  {
    j := -1;
    var i := 0;
    while i < |same|
      invariant 0 <= i <= |same|
      invariant forall k :: 0 <= k < i ==> same[k].runtime.provider != provider
    {
      if same[i].runtime.provider == provider {
        j := i;
        break;
      }
      i := i + 1;
    }
  }

  /** Every list has a reference below `next` and an owner. */
  ghost predicate Allocated(lists: map<ListRef, seq<BuffBase>>, next: ListRef, owner: map<ListRef, Entity>)
  {
    owner.Keys == lists.Keys && forall r :: r in lists ==> r < next
  }

  /** Each key of `m` maps to a list created for that key, so no two keys share a list. */
  ghost predicate Owned(m: map<Entity, ListRef>, owner: map<ListRef, Entity>)
  {
    forall e :: e in m ==> m[e] in owner && owner[m[e]] == e
  }

  /** The instances of list `r` occur once each and were all added to `r`. */
  ghost predicate ListPlaced(s: seq<BuffBase>, home: map<BuffBase, ListRef>, r: ListRef)
  {
    NoDups(s) && forall i :: 0 <= i < |s| ==> s[i] in home && home[s[i]] == r
  }

  ghost predicate Placed(lists: map<ListRef, seq<BuffBase>>, home: map<BuffBase, ListRef>)
  {
    forall r :: r in lists ==> ListPlaced(lists[r], home, r)
  }

  /** Every instance has its own runtime record. */
  ghost predicate Hosted(home: map<BuffBase, ListRef>, host: map<BuffRuntimeData, BuffBase>)
  {
    forall b :: b in home ==> b.runtime in host && host[b.runtime] == b
  }

  /**
   * The bookkeeping invariant of the manager: each owner key of the live
   * dictionary and of its copy has its own list; every listed instance
   * belongs to the one list it was added to, at most once; every instance has
   * its own runtime record.
   */
  ghost predicate Consistent(buffs: map<Entity, ListRef>, copy: map<Entity, ListRef>,
                             lists: map<ListRef, seq<BuffBase>>, next: ListRef, owner: map<ListRef, Entity>,
                             home: map<BuffBase, ListRef>, host: map<BuffRuntimeData, BuffBase>)
  {
    Allocated(lists, next, owner) && Owned(buffs, owner) && Owned(copy, owner) &&
    Placed(lists, home) && Hosted(home, host)
  }

  /** Replacing a list by one that still satisfies the placement keeps `Placed`. */
  lemma PlacedUpdate(lists: map<ListRef, seq<BuffBase>>, home: map<BuffBase, ListRef>, r: ListRef, t: seq<BuffBase>)
    requires Placed(lists, home) && ListPlaced(t, home, r)
    ensures Placed(lists[r := t], home)
  {
  }

  /** New contents for the same lists, still placed, keep the bookkeeping consistent. */
  lemma ConsistentRefill(buffs: map<Entity, ListRef>, copy: map<Entity, ListRef>,
                         lists: map<ListRef, seq<BuffBase>>, next: ListRef, owner: map<ListRef, Entity>,
                         home: map<BuffBase, ListRef>, host: map<BuffRuntimeData, BuffBase>, lists': map<ListRef, seq<BuffBase>>)
    requires Consistent(buffs, copy, lists, next, owner, home, host)
    requires lists'.Keys == lists.Keys && Placed(lists', home)
    ensures Consistent(buffs, copy, lists', next, owner, home, host)
  {
  }

  /** Removing one element keeps a list placed. */
  lemma ListPlacedRemoveAt(s: seq<BuffBase>, home: map<BuffBase, ListRef>, r: ListRef, i: nat)
    requires ListPlaced(s, home, r) && i < |s|
    ensures ListPlaced(RemoveAt(s, i), home, r)
  {
    RemoveAtNoDups(s, i);
  }

  /** Adding a new instance at the end of list `r` keeps every list placed. */
  lemma PlacedExtend(lists: map<ListRef, seq<BuffBase>>, home: map<BuffBase, ListRef>, r: ListRef, b: BuffBase)
    requires Placed(lists, home) && r in lists && b !in home
    ensures Placed(lists[r := lists[r] + [b]], home[b := r])
  {
    var home' := home[b := r];
    forall q | q in lists
      ensures ListPlaced(lists[q], home', q)
    {
      assert ListPlaced(lists[q], home, q);
    }
    var t := lists[r] + [b];
    forall i, j | 0 <= i < j < |t| ensures t[i] != t[j] {
      if j == |t| - 1 {
        assert t[i] == lists[r][i];
      }
    }
  }

  /** Attaching a new instance with a new runtime record to list `r` keeps the bookkeeping consistent. */
  lemma ConsistentAttach(buffs: map<Entity, ListRef>, copy: map<Entity, ListRef>,
                         lists: map<ListRef, seq<BuffBase>>, next: ListRef, owner: map<ListRef, Entity>,
                         home: map<BuffBase, ListRef>, host: map<BuffRuntimeData, BuffBase>, r: ListRef, b: BuffBase)
    requires Consistent(buffs, copy, lists, next, owner, home, host)
    requires r in lists && b !in home && b.runtime !in host
    ensures Consistent(buffs, copy, lists[r := lists[r] + [b]], next, owner, home[b := r], host[b.runtime := b])
  {
    PlacedExtend(lists, home, r, b);
  }

  /** An instance is in at most one list. */
  lemma SameList(lists: map<ListRef, seq<BuffBase>>, home: map<BuffBase, ListRef>, r1: ListRef, r2: ListRef, b: BuffBase)
    requires Placed(lists, home) && r1 in lists && r2 in lists
    requires b in lists[r1] && b in lists[r2]
    ensures r1 == r2
  {
    var i :| 0 <= i < |lists[r1]| && lists[r1][i] == b;
    var j :| 0 <= j < |lists[r2]| && lists[r2][j] == b;
    assert ListPlaced(lists[r1], home, r1) && ListPlaced(lists[r2], home, r2);
  }

  /**
   * Two owner keys never share an instance: the lists of an owner map are
   * pairwise disjoint.
   */
  lemma KeysDisjoint(m: map<Entity, ListRef>, lists: map<ListRef, seq<BuffBase>>, owner: map<ListRef, Entity>,
                     home: map<BuffBase, ListRef>, e1: Entity, e2: Entity, b: BuffBase)
    requires Owned(m, owner) && owner.Keys == lists.Keys && Placed(lists, home)
    requires e1 in m && e2 in m && e1 != e2 && b in lists[m[e1]]
    ensures b !in lists[m[e2]]
  {
    if b in lists[m[e2]] {
      SameList(lists, home, m[e1], m[e2], b);
    }
  }

  /**
   * Whether the behaviour tick calls `FixedUpdate` on an instance in state
   * `s`: its level is positive and its owner is neither null nor a destroyed
   * entity (which compares equal to null).
   */
  predicate Ticks(s: RuntimeState, destroyed: set<Entity>)
  {
    s.level > 0 && s.owner.Some? && s.owner.value !in destroyed
  }

  /** The hook calls one tick makes on an instance in state `s`. */
  function TickCalls(s: RuntimeState, destroyed: set<Entity>): (r: seq<Hook>)
    ensures r == [FixedUpdateCall] <==> Ticks(s, destroyed)
    ensures r == [] <==> !Ticks(s, destroyed)
  {
    if Ticks(s, destroyed) then [FixedUpdateCall] else []
  }

  /** The inner loop of the behaviour tick over one list. */
  method TickList(s: seq<BuffBase>, destroyed: set<Entity>)
    requires NoDups(s)
    modifies set b | b in s
    ensures forall k :: 0 <= k < |s| ==> s[k].hooks == old(s[k].hooks) + TickCalls(s[k].runtime.State(), destroyed)
  {
    var i := 0;
    while i < |s|
      invariant 0 <= i <= |s|
      invariant forall k :: 0 <= k < i ==> s[k].hooks == old(s[k].hooks) + TickCalls(s[k].runtime.State(), destroyed)
      invariant forall k :: i <= k < |s| ==> s[k].hooks == old(s[k].hooks)
    {
      var b := s[i];
      if b.runtime.currentLevel > 0 && b.runtime.owner.Some? && b.runtime.owner.value !in destroyed {
        b.FixedUpdate();
      }
      i := i + 1;
    }
  }

  /** Whether the decay pass removes an instance whose data before the pass is `s`. */
  predicate Expires(b: BuffBase, s: RuntimeState, step: int)
  {
    Decay(s, b.config.maxDuration, b.config.demotion, step).Drop?
  }

  /**
   * The instances of `s` that outlive one decay pass, in their order, given
   * the data `st` each had before the pass.
   */
  function Survivors(s: seq<BuffBase>, st: map<BuffBase, RuntimeState>, step: int): (r: seq<BuffBase>)
    requires forall i :: 0 <= i < |s| ==> s[i] in st
    ensures |r| <= |s|
    ensures forall i :: 0 <= i < |r| ==> r[i] in s && !Expires(r[i], st[r[i]], step)
    ensures forall i :: 0 <= i < |s| && !Expires(s[i], st[s[i]], step) ==> s[i] in r
  {
    if s == [] then []
    else (if Expires(s[0], st[s[0]], step) then [] else [s[0]]) + Survivors(s[1..], st, step)
  }

  /** The survivors of a suffix: its first instance, unless it expires, before the survivors of the rest. */
  lemma SurvivorsStep(s: seq<BuffBase>, st: map<BuffBase, RuntimeState>, step: int, i: nat)
    requires i < |s| && forall k :: 0 <= k < |s| ==> s[k] in st
    ensures Survivors(s[i..], st, step) ==
            (if Expires(s[i], st[s[i]], step) then [] else [s[i]]) + Survivors(s[i + 1..], st, step)
  {
    assert s[i..][1..] == s[i + 1..];
  }

  /** The instances of `s` from index `i` on whose flag in `drop` is false, in order. */
  function KeptFrom(s: seq<BuffBase>, drop: seq<bool>, i: nat): (r: seq<BuffBase>)
    requires |drop| == |s| && i <= |s|
    ensures |r| <= |s| - i
    decreases |s| - i
  {
    if i == |s| then [] else (if drop[i] then [] else [s[i]]) + KeptFrom(s, drop, i + 1)
  }

  /** Removing a dropped instance from the list as it stands when the walk reaches index `i`. */
  lemma KeptDrop(s: seq<BuffBase>, drop: seq<bool>, i: nat)
    requires i < |s| == |drop| && s[i] !in s[..i] && drop[i]
    ensures RemoveFirst(s[..i + 1] + KeptFrom(s, drop, i + 1), s[i]) == s[..i] + KeptFrom(s, drop, i)
  {
    var t := s[..i + 1] + KeptFrom(s, drop, i + 1);
    assert t[..i] == s[..i];
    assert t[i + 1..] == KeptFrom(s, drop, i + 1);
    RemoveFirstAt(t, i);
  }

  /** Keeping an instance leaves the list as it stands when the walk reaches index `i`. */
  lemma KeptKeep(s: seq<BuffBase>, drop: seq<bool>, i: nat)
    requires i < |s| == |drop| && !drop[i]
    ensures s[..i + 1] + KeptFrom(s, drop, i + 1) == s[..i] + KeptFrom(s, drop, i)
  {
    var rest := KeptFrom(s, drop, i + 1);
    assert s[..i + 1] == s[..i] + [s[i]];
    assert s[..i] + [s[i]] + rest == s[..i] + ([s[i]] + rest);
  }

  /** One step of the back-to-front walk over `s`, which removes the instances flagged in `drop`. */
  lemma KeptAdvance(s: seq<BuffBase>, drop: seq<bool>, i: nat)
    requires i < |s| == |drop| && s[i] !in s[..i]
    ensures drop[i] ==> RemoveFirst(s[..i + 1] + KeptFrom(s, drop, i + 1), s[i]) == s[..i] + KeptFrom(s, drop, i)
    ensures !drop[i] ==> s[..i + 1] + KeptFrom(s, drop, i + 1) == s[..i] + KeptFrom(s, drop, i)
  {
    if drop[i] {
      KeptDrop(s, drop, i);
    } else {
      KeptKeep(s, drop, i);
    }
  }

  /** Masking by the expiry flags is keeping the survivors. */
  lemma {:induction false} KeptSurvivors(s: seq<BuffBase>, drop: seq<bool>, st: map<BuffBase, RuntimeState>, step: int, i: nat)
    requires |drop| == |s| && i <= |s| && forall k :: 0 <= k < |s| ==> s[k] in st
    requires forall k :: 0 <= k < |s| ==> drop[k] == Expires(s[k], st[s[k]], step)
    ensures KeptFrom(s, drop, i) == Survivors(s[i..], st, step)
    decreases |s| - i
  {
    if i < |s| {
      KeptSurvivors(s, drop, st, step, i + 1);
      SurvivorsStep(s, st, step, i);
    } else {
      assert s[i..] == [];
    }
  }

  /** With no flag set nothing is removed. */
  lemma {:induction false} KeptNone(s: seq<BuffBase>, drop: seq<bool>, i: nat)
    requires |drop| == |s| && i <= |s| && forall k :: 0 <= k < |s| ==> !drop[k]
    ensures KeptFrom(s, drop, i) == s[i..]
    decreases |s| - i
  {
    if i < |s| {
      KeptNone(s, drop, i + 1);
      assert s[i..] == [s[i]] + s[i + 1..];
    }
  }

  /** What is kept of a placed list is placed in the same list. */
  lemma {:induction false} KeptPlaced(s: seq<BuffBase>, drop: seq<bool>, i: nat, home: map<BuffBase, ListRef>, r: ListRef)
    requires |drop| == |s| && i <= |s| && ListPlaced(s, home, r)
    ensures ListPlaced(KeptFrom(s, drop, i), home, r)
    ensures forall x :: x in KeptFrom(s, drop, i) ==> x in s[i..]
    decreases |s| - i
  {
    if i < |s| {
      KeptPlaced(s, drop, i + 1, home, r);
      var rest := KeptFrom(s, drop, i + 1);
      assert forall x :: x in s[i + 1..] ==> x in s[i..];
      if !drop[i] {
        var t := [s[i]] + rest;
        assert forall j :: i + 1 <= j < |s| ==> s[j] != s[i];
        assert s[i] !in rest;
        forall a, b | 0 <= a < b < |t|
          ensures t[a] != t[b]
        {
          if a == 0 {
            assert t[b] in rest;
          } else {
            assert t[a] == rest[a - 1] && t[b] == rest[b - 1];
          }
        }
      }
    }
  }

  /**
   * The field updates of one step of `FixedUpdate` on instance `b`: its data
   * become `Decay`'s, and the result says whether the step goes on to call
   * `RemoveBuff`.
   */
  method DecayInstance(b: BuffBase, step: int) returns (drop: bool)
    modifies b.runtime
    ensures b.runtime.State() == Decay(old(b.runtime.State()), b.config.maxDuration, b.config.demotion, step).state
    ensures drop == Expires(b, old(b.runtime.State()), step)
  {
    if b.runtime.currentLevel == 0 {
      return true;
    }
    if b.runtime.residualDuration == 0 {
      b.runtime.currentLevel := SubU32(b.runtime.currentLevel, b.config.demotion);
      if b.runtime.currentLevel == 0 {
        return true;
      }
      b.runtime.residualDuration := b.config.maxDuration;
    }
    b.runtime.residualDuration := b.runtime.residualDuration - step;
    return false;
  }

  /**
   * One step of `FixedUpdate` on instance `b` with the effect of its
   * `RemoveBuff` call on the instance: the data become `Decay`'s (`target`);
   * when `Decay` drops the instance and `RemoveBuff` finds it (`live`), its
   * level is set to 0 and `OnLost` runs, and the result says that it leaves
   * the list.
   */
  method StepAndRemove(b: BuffBase, live: bool, step: int, ghost target: RuntimeState, ghost dropIt: bool)
    returns (removed: bool)
    requires target == Decay(b.runtime.State(), b.config.maxDuration, b.config.demotion, step).state
    requires dropIt == (live && Expires(b, b.runtime.State(), step))
    modifies b, b.runtime
    ensures b.runtime.State() == target
    ensures removed == dropIt
    ensures b.hooks == old(b.hooks) + (if removed then [OnLostCall] else [])
  {
    var expired := DecayInstance(b, step);
    removed := expired && live;
    if removed {
      b.runtime.currentLevel := b.runtime.currentLevel - b.runtime.currentLevel;
      b.OnLost();
    }
  }

  /**
   * The walk over `s` has handled the instances from index `i` on: those
   * hold their target data `want` and have recorded `OnLost` when flagged in
   * `drop`; the others still hold their data `st` and hooks `h0` from before
   * the walk.
   */
  ghost predicate Progress(s: seq<BuffBase>, st: map<BuffBase, RuntimeState>, want: seq<RuntimeState>,
                           drop: seq<bool>, h0: seq<seq<Hook>>, i: nat)
    reads (set b | b in s), (set b | b in s :: b.runtime)
  {
    |want| == |s| && |drop| == |s| && |h0| == |s| && i <= |s| &&
    forall k :: 0 <= k < |s| ==>
      s[k] in st &&
      s[k].runtime.State() == (if k < i then st[s[k]] else want[k]) &&
      s[k].hooks == h0[k] + (if i <= k && drop[k] then [OnLostCall] else [])
  }

  /** One iteration of the walk: instance `i` takes its step, and no other instance changes. */
  method DecayAdvance(s: seq<BuffBase>, live: bool, step: int, ghost st: map<BuffBase, RuntimeState>,
                      ghost want: seq<RuntimeState>, ghost drop: seq<bool>, ghost h0: seq<seq<Hook>>,
                      ghost host: map<BuffRuntimeData, BuffBase>, i: nat)
    returns (removed: bool)
    requires NoDups(s) && forall k :: 0 <= k < |s| ==> s[k].runtime in host && host[s[k].runtime] == s[k]
    requires i < |s| && Progress(s, st, want, drop, h0, i + 1)
    requires want[i] == Decay(st[s[i]], s[i].config.maxDuration, s[i].config.demotion, step).state
    requires drop[i] == (live && Expires(s[i], st[s[i]], step))
    modifies s[i], s[i].runtime
    ensures Progress(s, st, want, drop, h0, i)
    ensures removed == drop[i]
  {
    var b := s[i];
    assert forall k :: 0 <= k < |s| && k != i ==> s[k] != b && s[k].runtime != b.runtime by {
      forall k | 0 <= k < |s| && k != i
        ensures s[k] != b && s[k].runtime != b.runtime
      {
        assert host[s[k].runtime] == s[k];
      }
    }
    removed := StepAndRemove(b, live, step, want[i], drop[i]);
  }

  /**
   * The back-to-front loop of `FixedUpdate` over the list `s` of one copy
   * entry, returning the list's new contents. `live` is what `RemoveBuff`'s
   * lookup finds: the owner's live list is this very list. The ghost
   * parameters name the data before the walk (`st`), the data each instance
   * ends with (`want`), the instances the walk removes (`drop`) and the
   * instance owning each runtime record (`host`).
   */
  method DecayRun(s: seq<BuffBase>, live: bool, step: int, ghost st: map<BuffBase, RuntimeState>,
                  ghost want: seq<RuntimeState>, ghost drop: seq<bool>, ghost host: map<BuffRuntimeData, BuffBase>)
    returns (t: seq<BuffBase>)
    requires NoDups(s) && forall k :: 0 <= k < |s| ==> s[k].runtime in host && host[s[k].runtime] == s[k]
    requires |want| == |drop| == |s|
    requires forall k :: 0 <= k < |s| ==> s[k] in st && st[s[k]] == s[k].runtime.State()
    requires forall k :: 0 <= k < |s| ==>
               want[k] == Decay(st[s[k]], s[k].config.maxDuration, s[k].config.demotion, step).state &&
               drop[k] == (live && Expires(s[k], st[s[k]], step))
    modifies set b | b in s, set b | b in s :: b.runtime
    ensures forall k :: 0 <= k < |s| ==>
              s[k].runtime.State() == want[k] && s[k].hooks == old(s[k].hooks) + (if drop[k] then [OnLostCall] else [])
    ensures t == KeptFrom(s, drop, 0)
  {
    ghost var h0 := seq(|s|, k requires 0 <= k < |s| reads s => s[k].hooks);
    ProgressStart(s, st, want, drop, h0);
    KeptEnds(s, drop);
    t := s;
    var i := |s|;
    while i > 0
      invariant 0 <= i <= |s|
      invariant t == s[..i] + KeptFrom(s, drop, i)
      invariant Progress(s, st, want, drop, h0, i)
    {
      i := i - 1;
      t := DecayRunStep(s, live, step, st, want, drop, h0, host, i, t);
    }
  }

  /** Before the walk every instance still holds its data and hooks from before it. */
  lemma ProgressStart(s: seq<BuffBase>, st: map<BuffBase, RuntimeState>, want: seq<RuntimeState>,
                      drop: seq<bool>, h0: seq<seq<Hook>>)
    requires |want| == |s| && |drop| == |s| && |h0| == |s|
    requires forall k :: 0 <= k < |s| ==> s[k] in st && st[s[k]] == s[k].runtime.State() && h0[k] == s[k].hooks
    ensures Progress(s, st, want, drop, h0, |s|)
  {
  }

  /** The list before the walk, and the list once the walk reaches the front. */
  lemma KeptEnds(s: seq<BuffBase>, drop: seq<bool>)
    requires |drop| == |s|
    ensures s[..|s|] + KeptFrom(s, drop, |s|) == s
    ensures s[..0] + KeptFrom(s, drop, 0) == KeptFrom(s, drop, 0)
  {
    assert s[..|s|] == s;
  }

  /** One iteration of `DecayRun`: instance `i` takes its step and leaves the list when it is dropped. */
  method DecayRunStep(s: seq<BuffBase>, live: bool, step: int, ghost st: map<BuffBase, RuntimeState>,
                      ghost want: seq<RuntimeState>, ghost drop: seq<bool>, ghost h0: seq<seq<Hook>>,
                      ghost host: map<BuffRuntimeData, BuffBase>, i: nat, t: seq<BuffBase>)
    returns (t': seq<BuffBase>)
    requires NoDups(s) && forall k :: 0 <= k < |s| ==> s[k].runtime in host && host[s[k].runtime] == s[k]
    requires i < |s| && Progress(s, st, want, drop, h0, i + 1)
    requires want[i] == Decay(st[s[i]], s[i].config.maxDuration, s[i].config.demotion, step).state
    requires drop[i] == (live && Expires(s[i], st[s[i]], step))
    requires t == s[..i + 1] + KeptFrom(s, drop, i + 1)
    modifies s[i], s[i].runtime
    ensures Progress(s, st, want, drop, h0, i)
    ensures t' == s[..i] + KeptFrom(s, drop, i)
  {
    assert s[i] !in s[..i];
    KeptAdvance(s, drop, i);
    var b := t[i];
    var removed := DecayAdvance(s, live, step, st, want, drop, h0, host, i);
    t' := if removed then RemoveFirst(t, b) else t;
  }

  /**
   * The back-to-front loop of `FixedUpdate` over the list `s` of one copy
   * entry, returning the list's new contents: every instance ends with
   * `Decay`'s data; when `RemoveBuff`'s lookup finds the instances (`live`)
   * the list keeps exactly the survivors and each dropped instance records
   * `OnLost`, and otherwise it keeps every instance. `st` holds the data of
   * each instance before the walk, `host` the instance owning each runtime
   * record, and `home` and `r` the placement the list keeps.
   */
  method DecayWalk(s: seq<BuffBase>, live: bool, step: int, ghost st: map<BuffBase, RuntimeState>,
                   ghost host: map<BuffRuntimeData, BuffBase>, ghost home: map<BuffBase, ListRef>, ghost r: ListRef)
    returns (t: seq<BuffBase>)
    requires ListPlaced(s, home, r)
    requires forall k :: 0 <= k < |s| ==> s[k].runtime in host && host[s[k].runtime] == s[k]
    requires forall k :: 0 <= k < |s| ==> s[k] in st && st[s[k]] == s[k].runtime.State()
    modifies set b | b in s, set b | b in s :: b.runtime
    ensures forall k :: 0 <= k < |s| ==>
              s[k].runtime.State() == Decay(st[s[k]], s[k].config.maxDuration, s[k].config.demotion, step).state
    ensures forall k :: 0 <= k < |s| ==>
              s[k].hooks == old(s[k].hooks) + (if live && Expires(s[k], st[s[k]], step) then [OnLostCall] else [])
    ensures live ==> t == Survivors(s, st, step)
    ensures !live ==> t == s
    ensures ListPlaced(t, home, r)
  {
    ghost var want := seq(|s|, k requires 0 <= k < |s| =>
                            Decay(st[s[k]], s[k].config.maxDuration, s[k].config.demotion, step).state);
    ghost var drop := seq(|s|, k requires 0 <= k < |s| => live && Expires(s[k], st[s[k]], step));
    t := DecayRun(s, live, step, st, want, drop, host);
    KeptPlaced(s, drop, 0, home, r);
    if live {
      KeptSurvivors(s, drop, st, step, 0);
    } else {
      KeptNone(s, drop, 0);
    }
    assert s[0..] == s;
  }

  /**
   * Whether the copy entry of `e` still holds the owner's live list, so that
   * `RemoveBuff(e, b)` on the decay pass finds the instances of that list.
   */
  predicate LiveCopy(copy: map<Entity, ListRef>, buffs: map<Entity, ListRef>, e: Entity)
  {
    e in copy && e in buffs && buffs[e] == copy[e]
  }

  /** Every instance of `s` has data in `st`. */
  ghost predicate InSnapshot(s: seq<BuffBase>, st: map<BuffBase, RuntimeState>)
  {
    forall k :: 0 <= k < |s| ==> s[k] in st
  }

  /**
   * The lists as `FixedUpdate`'s walk over the copy leaves them once every
   * owner outside `keys` is handled: the list of a handled live entry holds
   * its survivors, every other list what it held before the walk (`l0`).
   */
  ghost predicate ListsDone(lists: map<ListRef, seq<BuffBase>>, l0: map<ListRef, seq<BuffBase>>,
                            copy: map<Entity, ListRef>, buffs: map<Entity, ListRef>, owner: map<ListRef, Entity>,
                            st0: map<BuffBase, RuntimeState>, keys: set<Entity>, step: int)
  {
    lists.Keys == l0.Keys &&
    (forall r :: r in l0 && (r !in copy.Values || (r in owner && owner[r] in keys)) ==> lists[r] == l0[r]) &&
    forall e :: e in copy && e !in keys ==>
      copy[e] in l0 && InSnapshot(l0[copy[e]], st0) &&
      lists[copy[e]] == if LiveCopy(copy, buffs, e) then Survivors(l0[copy[e]], st0, step) else l0[copy[e]]
  }

  /** Handling the entry of `e` moves it from `keys` to the handled owners. */
  lemma ListsAdvance(lists: map<ListRef, seq<BuffBase>>, lists': map<ListRef, seq<BuffBase>>, l0: map<ListRef, seq<BuffBase>>,
                     copy: map<Entity, ListRef>, buffs: map<Entity, ListRef>, owner: map<ListRef, Entity>,
                     st0: map<BuffBase, RuntimeState>, keys: set<Entity>, e: Entity, t: seq<BuffBase>, step: int)
    requires ListsDone(lists, l0, copy, buffs, owner, st0, keys, step)
    requires Owned(copy, owner) && owner.Keys == l0.Keys && e in keys && e in copy
    requires InSnapshot(l0[copy[e]], st0)
    requires lists' == lists[copy[e] := t]
    requires LiveCopy(copy, buffs, e) ==> t == Survivors(l0[copy[e]], st0, step)
    requires !LiveCopy(copy, buffs, e) ==> t == l0[copy[e]]
    ensures ListsDone(lists', l0, copy, buffs, owner, st0, keys - {e}, step)
  {
    assert copy[e] in copy.Values;
  }

  /**
   * The instances of the copy lists as `FixedUpdate`'s walk leaves them once
   * every owner outside `keys` is handled: those of a handled owner hold
   * `Decay`'s data and have recorded `OnLost` when dropped from a live list;
   * the others hold their data `st0` and hooks `h0` from before the walk.
   */
  ghost predicate ObjectsDone(l0: map<ListRef, seq<BuffBase>>, copy: map<Entity, ListRef>, buffs: map<Entity, ListRef>,
                              st0: map<BuffBase, RuntimeState>, h0: map<BuffBase, seq<Hook>>, keys: set<Entity>, step: int)
    reads (set e, b | e in copy && copy[e] in l0 && b in l0[copy[e]] :: b)
    reads (set e, b | e in copy && copy[e] in l0 && b in l0[copy[e]] :: b.runtime)
  {
    forall e, b :: e in copy && copy[e] in l0 && b in l0[copy[e]] ==>
      b in st0 && b in h0 &&
      b.runtime.State() == (if e in keys then st0[b] else Decay(st0[b], b.config.maxDuration, b.config.demotion, step).state) &&
      b.hooks == h0[b] + (if e !in keys && LiveCopy(copy, buffs, e) && Expires(b, st0[b], step) then [OnLostCall] else [])
  }

  /**
   * The walk of `FixedUpdate` over the list `s` of the copy entry of `e`
   * (`live` when it is also the owner's live list), as one step of the walk
   * over the whole copy: the instances of `s` take their decay step and
   * those of the other entries do not change.
   */
  method WalkEntry(e: Entity, step: int, s: seq<BuffBase>, live: bool, ghost keys: set<Entity>,
                   ghost l0: map<ListRef, seq<BuffBase>>, ghost copy: map<Entity, ListRef>, ghost buffs: map<Entity, ListRef>,
                   ghost st0: map<BuffBase, RuntimeState>, ghost h0: map<BuffBase, seq<Hook>>,
                   ghost home: map<BuffBase, ListRef>, ghost owner: map<ListRef, Entity>, ghost host: map<BuffRuntimeData, BuffBase>)
    returns (t: seq<BuffBase>)
    requires e in keys && e in copy && copy[e] in l0 && s == l0[copy[e]] && live == LiveCopy(copy, buffs, e)
    requires Placed(l0, home) && Owned(copy, owner) && owner.Keys == l0.Keys && Hosted(home, host)
    requires ObjectsDone(l0, copy, buffs, st0, h0, keys, step)
    modifies set b | b in s, set b | b in s :: b.runtime
    ensures ObjectsDone(l0, copy, buffs, st0, h0, keys - {e}, step)
    ensures InSnapshot(s, st0)
    ensures live ==> t == Survivors(s, st0, step)
    ensures !live ==> t == s
    ensures ListPlaced(t, home, copy[e])
  {
    assert ListPlaced(s, home, copy[e]);
    forall k | 0 <= k < |s|
      ensures s[k].runtime in host && host[s[k].runtime] == s[k]
      ensures s[k] in st0 && st0[s[k]] == s[k].runtime.State()
    {
    }
    t := DecayWalk(s, live, step, st0, host, home, copy[e]);
    forall e', b | e' in copy && copy[e'] in l0 && b in l0[copy[e']]
      ensures b in st0 && b in h0
      ensures b.runtime.State() ==
              (if e' in keys - {e} then st0[b] else Decay(st0[b], b.config.maxDuration, b.config.demotion, step).state)
      ensures b.hooks == h0[b] + (if e' !in keys - {e} && LiveCopy(copy, buffs, e') && Expires(b, st0[b], step)
                                  then [OnLostCall] else [])
    {
      if e' == e {
        var k :| 0 <= k < |s| && s[k] == b;
      } else {
        KeysDisjoint(copy, l0, owner, home, e', e, b);
        var i :| 0 <= i < |l0[copy[e']]| && l0[copy[e']][i] == b;
        assert ListPlaced(l0[copy[e']], home, copy[e']);
        forall k | 0 <= k < |s|
          ensures s[k].runtime != b.runtime
        {
        }
      }
    }
  }

  /** The instances of the lists of the entries of `copy`. */
  ghost function CopyObjects(copy: map<Entity, ListRef>, lists: map<ListRef, seq<BuffBase>>): set<BuffBase>
  {
    set e, b | e in copy && copy[e] in lists && b in lists[copy[e]] :: b
  }

  /** The runtime records of the instances of the lists of the entries of `copy`. */
  ghost function CopyRecords(copy: map<Entity, ListRef>, lists: map<ListRef, seq<BuffBase>>): set<BuffRuntimeData>
  {
    set e, b | e in copy && copy[e] in lists && b in lists[copy[e]] :: b.runtime
  }

  lemma CopyObjectsHas(copy: map<Entity, ListRef>, lists: map<ListRef, seq<BuffBase>>)
    ensures forall e, b :: e in copy && copy[e] in lists && b in lists[copy[e]] ==> b in CopyObjects(copy, lists)
  {
  }

  /** The data of the instances of the copy lists. */
  ghost function CopyData(copy: map<Entity, ListRef>, lists: map<ListRef, seq<BuffBase>>): (r: map<BuffBase, RuntimeState>)
    reads CopyRecords(copy, lists)
    ensures forall e, b :: e in copy && copy[e] in lists && b in lists[copy[e]] ==> b in r && r[b] == b.runtime.State()
  {
    var r := map b | b in CopyObjects(copy, lists) :: b.runtime.State();
    CopyObjectsHas(copy, lists);
    r
  }

  /** The hooks of the instances of the copy lists. */
  ghost function CopyHooks(copy: map<Entity, ListRef>, lists: map<ListRef, seq<BuffBase>>): (r: map<BuffBase, seq<Hook>>)
    reads CopyObjects(copy, lists)
    ensures forall e, b :: e in copy && copy[e] in lists && b in lists[copy[e]] ==> b in r && r[b] == b.hooks
  {
    var r := map b | b in CopyObjects(copy, lists) :: b.hooks;
    CopyObjectsHas(copy, lists);
    r
  }

  /**
   * The loop of `FixedUpdate` over the keys of the copy, from the data `st0`
   * and hooks `h0` the instances hold before it.
   */
  method WalkKeys(copy: map<Entity, ListRef>, buffs: map<Entity, ListRef>, lists: map<ListRef, seq<BuffBase>>, step: int,
                  ghost st0: map<BuffBase, RuntimeState>, ghost h0: map<BuffBase, seq<Hook>>,
                  ghost home: map<BuffBase, ListRef>, ghost owner: map<ListRef, Entity>, ghost host: map<BuffRuntimeData, BuffBase>)
    returns (r: map<ListRef, seq<BuffBase>>)
    requires Placed(lists, home) && Owned(copy, owner) && owner.Keys == lists.Keys && Hosted(home, host)
    requires ObjectsDone(lists, copy, buffs, st0, h0, copy.Keys, step)
    modifies CopyObjects(copy, lists), CopyRecords(copy, lists)
    ensures Placed(r, home)
    ensures ListsDone(r, lists, copy, buffs, owner, st0, {}, step)
    ensures ObjectsDone(lists, copy, buffs, st0, h0, {}, step)
  {
    r := lists;
    var keys := copy.Keys;
    while keys != {}
      invariant keys <= copy.Keys
      invariant Placed(r, home)
      invariant ListsDone(r, lists, copy, buffs, owner, st0, keys, step)
      invariant ObjectsDone(lists, copy, buffs, st0, h0, keys, step)
      decreases |keys|
    {
      var e :| e in keys;
      var live := LiveCopy(copy, buffs, e);
      var t := WalkEntry(e, step, r[copy[e]], live, keys, lists, copy, buffs, st0, h0, home, owner, host);
      ListsAdvance(r, r[copy[e] := t], lists, copy, buffs, owner, st0, keys, e, t, step);
      PlacedUpdate(r, home, copy[e], t);
      r := r[copy[e] := t];
      keys := keys - {e};
    }
  }

  /**
   * `FixedUpdate`'s walk over every entry of the copy, returning the new
   * contents of the lists. Every instance of a copy list ends with `Decay`'s
   * data; the list of a live entry (one whose list is also the owner's entry
   * in `buffs`) keeps exactly its survivors, in order, and each instance
   * dropped from it records `OnLost`; the list of a stale entry keeps every
   * instance; lists outside the copy do not change.
   */
  method WalkCopy(copy: map<Entity, ListRef>, buffs: map<Entity, ListRef>, lists: map<ListRef, seq<BuffBase>>, step: int,
                  ghost home: map<BuffBase, ListRef>, ghost owner: map<ListRef, Entity>, ghost host: map<BuffRuntimeData, BuffBase>)
    returns (r: map<ListRef, seq<BuffBase>>)
    requires Placed(lists, home) && Owned(copy, owner) && owner.Keys == lists.Keys && Hosted(home, host)
    modifies CopyObjects(copy, lists), CopyRecords(copy, lists)
    ensures r.Keys == lists.Keys && Placed(r, home)
    ensures forall e, b :: e in copy && b in lists[copy[e]] ==>
              b in old(CopyData(copy, lists)) && b in old(CopyHooks(copy, lists)) &&
              b.runtime.State() == Decay(old(CopyData(copy, lists))[b], b.config.maxDuration, b.config.demotion, step).state &&
              b.hooks == old(CopyHooks(copy, lists))[b] +
                         (if LiveCopy(copy, buffs, e) && Expires(b, old(CopyData(copy, lists))[b], step) then [OnLostCall] else [])
    ensures forall e :: e in copy ==>
              r[copy[e]] == if LiveCopy(copy, buffs, e) then Survivors(lists[copy[e]], old(CopyData(copy, lists)), step)
                            else lists[copy[e]]
    ensures forall q :: q in lists && q !in copy.Values ==> r[q] == lists[q]
  {
    ghost var st0 := CopyData(copy, lists);
    ghost var h0 := CopyHooks(copy, lists);
    ObjectsStart(lists, copy, buffs, step);
    r := WalkKeys(copy, buffs, lists, step, st0, h0, home, owner, host);
    ObjectsEnd(lists, copy, buffs, st0, h0, step, owner);
  }

  /** Before the walk no owner is handled: every instance holds the data and hooks it had. */
  lemma ObjectsStart(lists: map<ListRef, seq<BuffBase>>, copy: map<Entity, ListRef>, buffs: map<Entity, ListRef>, step: int)
    ensures ObjectsDone(lists, copy, buffs, CopyData(copy, lists), CopyHooks(copy, lists), copy.Keys, step)
  {
  }

  /** After the walk every owner is handled: every instance of a copy list holds `Decay`'s data. */
  lemma ObjectsEnd(lists: map<ListRef, seq<BuffBase>>, copy: map<Entity, ListRef>, buffs: map<Entity, ListRef>,
                   st0: map<BuffBase, RuntimeState>, h0: map<BuffBase, seq<Hook>>, step: int, owner: map<ListRef, Entity>)
    requires Owned(copy, owner) && owner.Keys == lists.Keys
    requires ObjectsDone(lists, copy, buffs, st0, h0, {}, step)
    ensures forall e, b :: e in copy && b in lists[copy[e]] ==>
              b in st0 && b in h0 &&
              b.runtime.State() == Decay(st0[b], b.config.maxDuration, b.config.demotion, step).state &&
              b.hooks == h0[b] + (if LiveCopy(copy, buffs, e) && Expires(b, st0[b], step) then [OnLostCall] else [])
  {
    forall e | e in copy ensures copy[e] in lists {
      assert copy[e] in copy.Values;
    }
  }

  /**
   * The first loop of `ExecuteGarbageCollection` as written:
   * `_buffDictionaryCopy.Add(key, value)` for the live entries, in the
   * dictionary's enumeration order `keys`. `Add` throws on a key the copy
   * already holds, and nothing ever removes a key from the copy; the
   * exception ends the coroutine. `None` stands for that exception.
   */
  function AddEntries(copy: map<Entity, ListRef>, buffs: map<Entity, ListRef>, keys: seq<Entity>): (r: Option<map<Entity, ListRef>>)
    requires forall i :: 0 <= i < |keys| ==> keys[i] in buffs
    ensures r.Some? ==> forall k :: k in copy ==> k in r.value && r.value[k] == copy[k]
    ensures r.Some? ==> forall i :: 0 <= i < |keys| ==> keys[i] in r.value && r.value[keys[i]] == buffs[keys[i]]
    ensures (exists i :: 0 <= i < |keys| && keys[i] in copy) ==> r.None?
    ensures NoDups(keys) && (forall i :: 0 <= i < |keys| ==> keys[i] !in copy) ==> r.Some?
    decreases |keys|
  {
    if keys == [] then Some(copy)
    else if keys[0] in copy then None
    else
      var r := AddEntries(copy[keys[0] := buffs[keys[0]]], buffs, keys[1..]);
      assert forall i :: 1 <= i < |keys| ==> keys[i] == keys[1..][i - 1];
      r
  }

  /**
   * As written, housekeeping survives one pass only: once a pass has copied
   * its owners, the next pass throws as soon as it meets one of them still
   * in the live dictionary, so owners registered since never reach the copy
   * that `FixedUpdate` walks, and their instances are never decayed.
   */
  lemma SecondSweepThrows(copy: map<Entity, ListRef>, buffs: map<Entity, ListRef>, keys: seq<Entity>,
                           buffs': map<Entity, ListRef>, keys': seq<Entity>, i: nat)
    requires forall j :: 0 <= j < |keys| ==> keys[j] in buffs
    requires forall j :: 0 <= j < |keys'| ==> keys'[j] in buffs'
    requires AddEntries(copy, buffs, keys).Some?
    requires i < |keys'| && keys'[i] in keys
    ensures AddEntries(AddEntries(copy, buffs, keys).value, buffs', keys') == None
  {
  }

  /**
   * With `Add` replaced by an overwrite, as `RefreshCopy` does, every pass
   * succeeds and leaves every live owner in the copy with its live list, so
   * the decay pass reaches it.
   */
  lemma RefreshCovers(copy: map<Entity, ListRef>, buffs: map<Entity, ListRef>, buffs': map<Entity, ListRef>)
    ensures forall e :: e in buffs ==> e in copy + buffs && (copy + buffs)[e] == buffs[e]
    ensures forall e :: e in buffs' ==> e in copy + buffs + buffs' && (copy + buffs + buffs')[e] == buffs'[e]
  {
  }

  class BuffManager {
    /**
     * The configuration and metadata every instance of a kind gets from
     * `new T()`, for each concrete effect class `T` of the program.
     */
    const catalog: map<Kind, BuffDefinition>

    /** `_buffDictionary`. */
    var buffs: map<Entity, ListRef>
    /** `_buffDictionaryCopy`, the map the decay pass walks. */
    var copy: map<Entity, ListRef>
    /** The contents of every list the manager has created. */
    var lists: map<ListRef, seq<BuffBase>>
    /** The reference the next new list gets. */
    var nextRef: ListRef
    /** `_observerDictionary`. */
    var observers: map<Entity, seq<Listener>>
    /** `_buffPools`. */
    var pools: map<Kind, BuffPool>
    /** Every listener call so far, oldest first. */
    var notifications: seq<Notification>

    /** The owner each list was created for. */
    ghost var ListOwner: map<ListRef, Entity>
    /** Every instance the manager has added, with the list it was added to. */
    ghost var Home: map<BuffBase, ListRef>
    /** The instance owning each runtime record. */
    ghost var Host: map<BuffRuntimeData, BuffBase>
    /** Every pool the manager has built. */
    ghost var PoolObjs: set<BuffPool>

    /** A pool as `GetOrCreatePool` builds it, and still without idle instances. */
    ghost predicate PoolFits(k: Kind, p: BuffPool)
      reads p`idle
    {
      k in catalog && p.kind == k && p.config == catalog[k].config && p.metadata == catalog[k].metadata &&
      p.hasReset && p.maxCapacity == 15 && p.idle == []
    }

    /**
     * The pools are the ones `GetOrCreatePool` builds, and no instance is
     * ever returned to them; the bookkeeping of lists and instances is
     * `Consistent`.
     */
    ghost predicate PoolsOk()
      reads this`pools, this`PoolObjs, PoolObjs`idle
    {
      forall k :: k in pools ==> pools[k] in PoolObjs && PoolFits(k, pools[k])
    }

    ghost predicate Valid()
      reads this`buffs, this`copy, this`lists, this`nextRef, this`ListOwner, this`Home, this`Host
    {
      Consistent(buffs, copy, lists, nextRef, ListOwner, Home, Host)
    }

    /** The instances of an owner, or none when it has no entry. */
    function Items(target: Entity): seq<BuffBase>
      reads this`buffs, this`lists
    {
      if target in buffs && buffs[target] in lists then lists[buffs[target]] else []
    }

    /** The contents of a list handed to a caller. */
    function Contents(v: ListView): seq<BuffBase>
      reads this`lists
    {
      if v.Live? && v.ref in lists then lists[v.ref] else []
    }

    /** The listeners of an owner; no entry and a null delegate both give none. */
    function ObserversOf(target: Entity): seq<Listener>
      reads this`observers
    {
      if target in observers then observers[target] else []
    }

    constructor (catalog: map<Kind, BuffDefinition>)
      ensures Valid() && PoolsOk()
      ensures this.catalog == catalog
      ensures buffs == map[] && copy == map[] && lists == map[] && observers == map[] && pools == map[]
      ensures notifications == []
    {
      this.catalog := catalog;
      buffs, copy, lists, nextRef := map[], map[], map[], 0;
      observers, pools := map[], map[];
      notifications := [];
      ListOwner, Home, Host, PoolObjs := map[], map[], map[], {};
    }

    /** The pool of a kind, built on first use with capacity 15 and `Reset` as its reset action. */
    method GetOrCreatePool(kind: Kind) returns (pool: BuffPool)
      requires PoolsOk()
      requires kind in catalog
      modifies this`pools, this`PoolObjs
      ensures PoolsOk()
      ensures kind in pools && pool == pools[kind]
      ensures kind in old(pools) ==> pools == old(pools)
      ensures kind !in old(pools) ==> fresh(pool) && pools == old(pools)[kind := pool]
      ensures pool.idle == [] && pool.config == catalog[kind].config && pool.kind == kind && pool.Valid()
      ensures old(PoolObjs) <= PoolObjs
    {
      if kind !in pools {
        var p := new BuffPool(kind, catalog[kind].config, catalog[kind].metadata, true, 15);
        pools := pools[kind := p];
        PoolObjs := PoolObjs + {p};
      }
      pool := pools[kind];
    }

    /**
     * `StartObserving`: the listener joins the owner's delegate (an entry is
     * created even for a null listener), and the owner's live list is
     * returned, or a new empty list when it has no entry.
     */
    method StartObserving(target: Entity, listener: Option<Listener>) returns (list: ListView)
      modifies this`observers
      ensures target in observers
      ensures observers == old(observers)[target := old(ObserversOf(target)) + Elements(listener)]
      ensures target in buffs ==> list == Live(buffs[target]) && Contents(list) == Items(target)
      ensures target !in buffs ==> list == Detached && Contents(list) == []
    {
      var current := if target in observers then observers[target] else [];
      observers := observers[target := current + Elements(listener)];
      if target in buffs {
        list := Live(buffs[target]);
      } else {
        list := Detached;
      }
    }

    /**
     * `StopObserving`: an owner with no entry throws; otherwise the last
     * occurrence of the listener leaves the delegate, and the entry goes once
     * the delegate is null.
     */
    method StopObserving(target: Entity, listener: Option<Listener>) returns (r: Outcome<BuffError>)
      modifies this`observers
      ensures r.Fail? <==> target !in old(observers)
      ensures r.Fail? ==> r.error == TargetNotObserved && observers == old(observers)
      ensures r.Pass? ==>
                var rest := if listener.None? then old(observers[target]) else RemoveLast(old(observers[target]), listener.value);
                observers == if rest == [] then old(observers) - {target} else old(observers)[target := rest]
    {
      if target !in observers {
        return Fail(TargetNotObserved);
      }
      var rest := if listener.None? then observers[target] else RemoveLast(observers[target], listener.value);
      if rest == [] {
        observers := observers - {target};
      } else {
        observers := observers[target := rest];
      }
      return Pass;
    }

    /** `FindBuff<T>`: the owner's instances of the kind, in list order, in a new list. */
    method FindBuff(target: Entity, kind: Kind) returns (r: seq<BuffBase>)
      ensures r == Filter(Items(target), OfKind(kind))
      ensures forall b :: b in r <==> b in Items(target) && b.kind == kind
    {
      r := [];
      var s := Items(target);
      var i := 0;
      while i < |s|
        invariant 0 <= i <= |s|
        invariant r == Filter(s[..i], OfKind(kind))
      {
        FilterAppend(s[..i], [s[i]], OfKind(kind));
        assert s[..i + 1] == s[..i] + [s[i]];
        if s[i].kind == kind {
          r := r + [s[i]];
        }
        i := i + 1;
      }
      assert s[..i] == s;
      forall b ensures b in r <==> b in s && b.kind == kind {
        FilterMembers(s, OfKind(kind), b);
      }
    }

    /** `FindAllBuff`: the owner's live list, or a new empty list when it has no entry. */
    method FindAllBuff(target: Entity) returns (list: ListView)
      ensures target in buffs ==> list == Live(buffs[target]) && Contents(list) == Items(target)
      ensures target !in buffs ==> list == Detached && Contents(list) == []
    {
      if target in buffs {
        list := Live(buffs[target]);
      } else {
        list := Detached;
      }
    }

    /** The outcome and the runtime data of the instance `AddNewBuff` obtains from the pool. */
    function NewInit(kind: Kind, args: Option<seq<Arg>>): InitStep
      requires kind in catalog
    {
      if args.None? || |args.value| == 0 then InitStep(Pass, Cleared)
      else InitTransition(Cleared, catalog[kind].config.maxDuration, args)
    }

    /** The hooks `Init` calls on a new instance from the pool: none when `Init` does not run. */
    function InitHooks(args: Option<seq<Arg>>): seq<Hook>
    {
      if args.None? || |args.value| == 0 then [] else [CustomArgsCall(CustomArgs(args.value))]
    }

    /**
     * The first half of `AddNewBuff<T>`: the kind's pool hands out an
     * instance, by `Get()` without extra arguments and by `Get(args)` with
     * some. Since no instance is ever returned to a pool, it is always a new
     * one; `Get(args)` fails when `Init` throws.
     */
    method Obtain(kind: Kind, args: Option<seq<Arg>>) returns (got: Result<BuffBase, BuffError>)
      requires PoolsOk()
      requires kind in catalog
      modifies this`pools, this`PoolObjs, PoolObjs
      ensures PoolsOk()
      ensures got.Ok? <==> NewInit(kind, args).outcome.Pass?
      ensures got.Err? ==> NewInit(kind, args).outcome == Fail(got.error)
      ensures got.Ok? ==>
                var b := got.value;
                fresh(b) && fresh(b.runtime) && b.kind == kind && b.config == catalog[kind].config &&
                b.runtime.State() == NewInit(kind, args).state && b.hooks == InitHooks(args)
      ensures old(PoolObjs) <= PoolObjs
    {
      var pool := GetOrCreatePool(kind);
      if args.None? || |args.value| == 0 {
        var b := pool.Get();
        return Ok(b);
      }
      got := pool.GetWithArgs(args);
    }

    /**
     * `AddNewBuff<T>`: the instance `Obtain` gets (`provider` and `level` are
     * not used) is appended to the owner's list, its `OnGet` runs and the
     * owner's listeners are called with it. An exception from `Init` leaves
     * the list and the listeners untouched.
     */
    method AddNewBuff(kind: Kind, target: Entity, args: Option<seq<Arg>>) returns (r: Outcome<BuffError>, b: Option<BuffBase>)
      requires Valid() && PoolsOk() && target in buffs
      requires kind in catalog
      modifies this, PoolObjs
      ensures Valid() && PoolsOk()
      ensures r == NewInit(kind, args).outcome && (r.Pass? <==> b.Some?)
      ensures unchanged(this`buffs, this`copy, this`observers, this`nextRef)
      ensures r.Fail? ==> lists == old(lists) && notifications == old(notifications)
      ensures b.Some? ==>
                var ref := buffs[target];
                lists == old(lists)[ref := old(lists[ref]) + [b.value]] &&
                fresh(b.value) && fresh(b.value.runtime) && b.value.kind == kind && b.value.config == catalog[kind].config &&
                b.value.runtime.State() == NewInit(kind, args).state && b.value.hooks == InitHooks(args) + [OnGetCall] &&
                notifications == old(notifications) + Notify(ObserversOf(target), b.value)
    {
      var got := Obtain(kind, args);
      if got.Err? {
        return Fail(got.error), None;
      }
      Attach(target, got.value);
      return Pass, Some(got.value);
    }

    /**
     * The second half of `AddNewBuff<T>`: a new instance joins the end of
     * the owner's list, its `OnGet` runs, and the owner's listeners, if it
     * has an entry with a non-null delegate, are called with it.
     */
    method Attach(target: Entity, b: BuffBase)
      requires Valid() && target in buffs
      requires b !in Home && b.runtime !in Host
      modifies this`lists, this`Home, this`Host, this`notifications, b
      ensures Valid()
      ensures lists == old(lists)[buffs[target] := old(lists[buffs[target]]) + [b]]
      ensures b.hooks == old(b.hooks) + [OnGetCall]
      ensures notifications == old(notifications) + Notify(ObserversOf(target), b)
    {
      var ref := buffs[target];
      ConsistentAttach(buffs, copy, lists, nextRef, ListOwner, Home, Host, ref, b);
      lists, Home, Host := lists[ref := lists[ref] + [b]], Home[b := ref], Host[b.runtime := b];
      b.OnGet();
      notifications := notifications + Notify(ObserversOf(target), b);
    }

    /**
     * `RemoveBuff`: false, with nothing changed, when the owner has no entry
     * or the instance is not in its list; otherwise the instance's level
     * becomes 0, its `OnLost` runs, it leaves the list (the others keeping
     * their order), and the result is true. The instance is not returned to
     * its pool.
     */
    method RemoveBuff(target: Entity, buff: BuffBase) returns (r: bool)
      requires Valid()
      modifies this`lists, buff, buff.runtime
      ensures Valid()
      ensures r <==> target in buffs && buff in old(lists[buffs[target]])
      ensures !r ==> lists == old(lists) && unchanged(buff, buff.runtime)
      ensures r ==> lists == old(lists)[buffs[target] := RemoveFirst(old(lists[buffs[target]]), buff)]
      ensures r ==> buff.runtime.State() == old(buff.runtime.State()).(level := 0)
      ensures r ==> buff.hooks == old(buff.hooks) + [OnLostCall]
    {
      if target !in buffs {
        return false;
      }
      var ref := buffs[target];
      var s := lists[ref];
      var i := IndexOf(s, buff);
      if i < 0 {
        return false;
      }
      buff.runtime.currentLevel := buff.runtime.currentLevel - buff.runtime.currentLevel;
      buff.OnLost();
      ListPlacedRemoveAt(s, Home, ref, i);
      PlacedUpdate(lists, Home, ref, RemoveAt(s, i));
      lists := lists[ref := RemoveAt(s, i)];
      return true;
    }

    /** `_buffDictionary.Add(target, new List<BuffBase>(...))` for an owner without an entry. */
    method CreateEntry(target: Entity)
      requires Valid() && target !in buffs
      modifies this`buffs, this`lists, this`nextRef, this`ListOwner
      ensures Valid()
      ensures buffs == old(buffs)[target := old(nextRef)]
      ensures lists == old(lists)[old(nextRef) := []] && old(nextRef) !in old(lists)
      ensures nextRef == old(nextRef) + 1
    {
      lists, ListOwner := lists[nextRef := []], ListOwner[nextRef := target];
      buffs := buffs[target := nextRef];
      nextRef := nextRef + 1;
    }

    /**
     * The scans of `AddBuff<T>` before it changes anything: the instances of
     * the kind (`temp01`), and for Separate the first of them with the same
     * provider. Only reads the manager.
     */
    method Decide(kind: Kind, target: Entity, provider: Option<Entity>) returns (plan: Plan)
      ensures plan == Resolve(Items(target), kind, provider)
    {
      KindIndexFilter(Items(target), kind);
      if target !in buffs || |Items(target)| == 0 {
        return AppendNew;
      }
      var same := FindBuff(target, kind);
      if |same| == 0 {
        return AppendNew;
      }
      match same[0].config.resolution
      case Combine =>
        plan := Raise(same[0]);
      case Cover =>
        plan := Replace(same[0]);
      case Separate =>
        var j := FindProvider(same, provider);
        MatchIndexFilter(Items(target), kind, provider);
        plan := if j >= 0 then Raise(same[j]) else AppendNew;
    }

    /**
     * `AddBuff<T>(target, provider, level, args)`. `Resolve` decides: a new
     * instance added by `AddNewBuff` (an owner without an entry first gets a
     * new empty list); a raised level, with no instance added or removed;
     * or the first instance of the kind removed by `RemoveBuff` and a new one
     * added. `provider` and `level` reach only the conflict handling, never
     * the new instance. `added` is the instance `AddNewBuff` added, if any.
     */
    method AddBuff(kind: Kind, target: Entity, provider: Option<Entity>, level: u32, args: Option<seq<Arg>>)
      returns (r: Outcome<BuffError>, added: Option<BuffBase>)
      requires Valid() && PoolsOk()
      requires kind in catalog
      modifies this, PoolObjs, Items(target), set b | b in Items(target) :: b.runtime
      ensures Valid() && PoolsOk()
      ensures unchanged(this`copy, this`observers)
      ensures target in buffs && buffs == old(buffs)[target := buffs[target]]
      ensures target in old(buffs) ==> buffs[target] == old(buffs[target]) && nextRef == old(nextRef)
      ensures target !in old(buffs) ==> buffs[target] == old(nextRef) && nextRef == old(nextRef) + 1
      ensures lists == old(lists)[buffs[target] := lists[buffs[target]]]
      ensures var plan := old(Resolve(Items(target), kind, provider));
              ListAfter(plan, old(Items(target)), lists[buffs[target]], added) &&
              (plan.Raise? ==>
                 r == Pass && added == None &&
                 plan.buff.runtime.State() ==
                 old(plan.buff.runtime.State()).(level := AddU32(old(plan.buff.runtime.currentLevel), level)) &&
                 plan.buff.hooks == old(plan.buff.hooks)) &&
              (plan.Replace? ==>
                 plan.buff.runtime.State() == old(plan.buff.runtime.State()).(level := 0) &&
                 plan.buff.hooks == old(plan.buff.hooks) + [OnLostCall]) &&
              (!plan.Raise? ==> r == NewInit(kind, args).outcome && (r.Pass? <==> added.Some?))
      ensures var plan := old(Resolve(Items(target), kind, provider));
              forall b :: b in old(Items(target)) && (plan.AppendNew? || b != plan.buff) ==>
                b.runtime.State() == old(b.runtime.State()) && b.hooks == old(b.hooks)
      ensures added.None? ==> notifications == old(notifications)
      ensures added.Some? ==>
                var n := added.value;
                fresh(n) && fresh(n.runtime) && n.kind == kind && n.config == catalog[kind].config &&
                n.runtime.State() == NewInit(kind, args).state && n.hooks == InitHooks(args) + [OnGetCall] &&
                notifications == old(notifications) + Notify(ObserversOf(target), n)
    {
      var plan := Decide(kind, target, provider);
      if target in buffs {
        MapUpdateSame(buffs, target);
      }
      match plan
      case AppendNew =>
        r, added := AddFresh(kind, target, args);
      case Raise(b) =>
        RaiseListed(target, b, level);
        r, added := Pass, None;
        MapUpdateSame(lists, buffs[target]);
      case Replace(b) =>
        r, added := CoverFirst(kind, target, b, args);
    }

    /**
     * The paths of `AddBuff<T>` that end in `AddNewBuff<T>` without a
     * conflict: an owner without an entry first gets a new empty list.
     */
    method AddFresh(kind: Kind, target: Entity, args: Option<seq<Arg>>)
      returns (r: Outcome<BuffError>, added: Option<BuffBase>)
      requires Valid() && PoolsOk()
      requires kind in catalog
      modifies this, PoolObjs
      ensures Valid() && PoolsOk()
      ensures unchanged(this`copy, this`observers)
      ensures target in buffs && buffs == old(buffs)[target := buffs[target]]
      ensures target in old(buffs) ==> buffs[target] == old(buffs[target]) && nextRef == old(nextRef)
      ensures target !in old(buffs) ==> buffs[target] == old(nextRef) && nextRef == old(nextRef) + 1
      ensures lists == old(lists)[buffs[target] := old(Items(target)) + Elements(added)]
      ensures forall x :: x in old(Items(target)) ==> x.runtime.State() == old(x.runtime.State()) && x.hooks == old(x.hooks)
      ensures r == NewInit(kind, args).outcome && (r.Pass? <==> added.Some?)
      ensures added.None? ==> notifications == old(notifications)
      ensures added.Some? ==>
                var n := added.value;
                fresh(n) && fresh(n.runtime) && n.kind == kind && n.config == catalog[kind].config &&
                n.runtime.State() == NewInit(kind, args).state && n.hooks == InitHooks(args) + [OnGetCall] &&
                notifications == old(notifications) + Notify(ObserversOf(target), n)
    {
      ghost var before := lists;
      if target !in buffs {
        CreateEntry(target);
      } else {
        MapUpdateSame(buffs, target);
      }
      ghost var entered := lists;
      r, added := AddNewBuff(kind, target, args);
      if added.None? {
        assert entered[buffs[target]] + Elements(added) == entered[buffs[target]];
      }
      MapUpdateTwice(before, buffs[target], entered[buffs[target]], lists[buffs[target]]);
    }

    /** Cover: `RemoveBuff(target, temp01[0])`, then `AddNewBuff<T>`. */
    method CoverFirst(kind: Kind, target: Entity, b: BuffBase, args: Option<seq<Arg>>)
      returns (r: Outcome<BuffError>, added: Option<BuffBase>)
      requires Valid() && PoolsOk() && target in buffs && b in lists[buffs[target]]
      requires kind in catalog
      modifies this, PoolObjs, b, b.runtime
      ensures Valid() && PoolsOk()
      ensures unchanged(this`buffs, this`copy, this`observers, this`nextRef)
      ensures lists == old(lists)[buffs[target] := RemoveFirst(old(lists[buffs[target]]), b) + Elements(added)]
      ensures b.runtime.State() == old(b.runtime.State()).(level := 0)
      ensures b.hooks == old(b.hooks) + [OnLostCall]
      ensures forall x :: x in old(lists[buffs[target]]) && x != b ==>
                x.runtime.State() == old(x.runtime.State()) && x.hooks == old(x.hooks)
      ensures r == NewInit(kind, args).outcome && (r.Pass? <==> added.Some?)
      ensures added.None? ==> notifications == old(notifications)
      ensures added.Some? ==>
                var n := added.value;
                fresh(n) && fresh(n.runtime) && n.kind == kind && n.config == catalog[kind].config &&
                n.runtime.State() == NewInit(kind, args).state && n.hooks == InitHooks(args) + [OnGetCall] &&
                notifications == old(notifications) + Notify(ObserversOf(target), n)
    {
      ghost var before := lists;
      OwnRuntimes(target, b);
      var _ := RemoveBuff(target, b);
      ghost var removed := lists;
      r, added := AddNewBuff(kind, target, args);
      if added.None? {
        assert removed[buffs[target]] + Elements(added) == removed[buffs[target]];
      } else {
        MapUpdateTwice(before, buffs[target], removed[buffs[target]], lists[buffs[target]]);
      }
    }

    /** The Combine and Separate branches of `AddBuff<T>`: one listed instance's level rises, and no other instance changes. */
    method RaiseListed(target: Entity, b: BuffBase, level: u32)
      requires Valid() && b in Items(target)
      modifies b.runtime
      ensures b.runtime.State() == old(b.runtime.State()).(level := AddU32(old(b.runtime.currentLevel), level))
      ensures forall x :: x in Items(target) && x != b ==> x.runtime.State() == old(x.runtime.State())
    {
      OwnRuntimes(target, b);
      RaiseLevel(b, level);
    }

    /** Distinct instances of one owner have distinct runtime records. */
    lemma OwnRuntimes(target: Entity, b: BuffBase)
      requires Valid() && b in Items(target)
      ensures forall x :: x in Items(target) && x != b ==> x.runtime != b.runtime
    {
      forall x | x in Items(target) && x != b
        ensures x.runtime != b.runtime
      {
        assert x in Home && b in Home;
      }
    }

    /** Every instance in a list of the live dictionary. */
    ghost function Listed(): set<BuffBase>
      reads this`buffs, this`lists
    {
      set e, b | e in buffs && buffs[e] in lists && b in lists[buffs[e]] :: b
    }

    /**
     * The body of `ExecuteFixedUpdate`: `FixedUpdate` runs once on every
     * instance of every list of the live dictionary that `Ticks`, and on
     * nothing else; the manager itself is unchanged.
     */
    method Tick(destroyed: set<Entity>)
      requires Valid()
      modifies Listed()
      ensures forall e, b :: e in buffs && b in lists[buffs[e]] ==>
                b.hooks == old(b.hooks) + TickCalls(b.runtime.State(), destroyed)
    {
      var keys := buffs.Keys;
      while keys != {}
        invariant keys <= buffs.Keys
        invariant forall e, b :: e in buffs && e !in keys && b in lists[buffs[e]] ==>
                    b.hooks == old(b.hooks) + TickCalls(b.runtime.State(), destroyed)
        invariant forall e, b :: e in keys && b in lists[buffs[e]] ==> b.hooks == old(b.hooks)
        decreases |keys|
      {
        var e :| e in keys;
        var s := lists[buffs[e]];
        assert ListPlaced(s, Home, buffs[e]);
        TickList(s, destroyed);
        forall e', b | e' in keys && e' != e && b in lists[buffs[e']]
          ensures b !in s
        {
          KeysDisjoint(buffs, lists, ListOwner, Home, e', e, b);
        }
        keys := keys - {e};
      }
    }

    /**
     * The body of `ExecuteGarbageCollection`: every entry of the live
     * dictionary is written into the copy, then an entry leaves the live
     * dictionary exactly when its owner is destroyed or its list is empty.
     * Lists themselves are not touched.
     */
    method Housekeep(destroyed: set<Entity>)
      requires Valid()
      modifies this`buffs, this`copy
      ensures Valid()
      ensures copy == old(copy) + old(buffs)
      ensures forall e :: e in old(buffs) ==> old(buffs)[e] in lists
      ensures forall e :: e in buffs <==> e in old(buffs) && e !in destroyed && |lists[old(buffs)[e]]| > 0
      ensures forall e :: e in buffs ==> buffs[e] == old(buffs)[e]
    {
      RefreshCopy();
      Sweep(destroyed);
    }

    /** The first loop of the sweep: each live entry is written into the copy, replacing an older one. */
    method RefreshCopy()
      requires Valid()
      modifies this`copy
      ensures Valid()
      ensures copy == old(copy) + buffs
    {
      copy := CopyEntries(copy, buffs);
    }

    /**
     * The second loop of the sweep, over the keys of the refreshed copy: an
     * entry whose owner is destroyed, or whose list is empty, leaves the live
     * dictionary.
     */
    method Sweep(destroyed: set<Entity>)
      requires Valid() && buffs.Keys <= copy.Keys
      requires forall e :: e in buffs ==> copy[e] == buffs[e]
      modifies this`buffs
      ensures Valid()
      ensures forall e :: e in old(buffs) ==> old(buffs)[e] in lists
      ensures forall e :: e in buffs <==> e in old(buffs) && e !in destroyed && |lists[old(buffs)[e]]| > 0
      ensures forall e :: e in buffs ==> buffs[e] == old(buffs)[e]
    {
      var keys := copy.Keys;
      while keys != {}
        invariant keys <= copy.Keys
        invariant Owned(buffs, ListOwner)
        invariant forall e :: e in buffs <==> e in old(buffs) && (e in keys || (e !in destroyed && |lists[old(buffs)[e]]| > 0))
        invariant forall e :: e in buffs ==> buffs[e] == old(buffs)[e]
        decreases |keys|
      {
        var e :| e in keys;
        if e in destroyed {
          buffs := buffs - {e};
        } else if |lists[copy[e]]| == 0 {
          buffs := buffs - {e};
        }
        keys := keys - {e};
      }
    }

    /**
     * `FixedUpdate`: the decay pass over every entry of the copy. Every
     * instance of a copy list ends with `Decay`'s data; the list of a live
     * entry keeps exactly its survivors, in order, and each instance dropped
     * from it records `OnLost`; the list of a stale entry keeps every
     * instance; lists outside the copy do not change.
     */
    method DecayPass(step: int)
      requires Valid()
      modifies this`lists, CopyObjects(copy, lists), CopyRecords(copy, lists)
      ensures Valid()
      ensures lists.Keys == old(lists).Keys
      ensures forall e, b :: e in copy && b in old(lists[copy[e]]) ==>
                b in old(CopyData(copy, lists)) && b in old(CopyHooks(copy, lists)) &&
                b.runtime.State() == Decay(old(CopyData(copy, lists))[b], b.config.maxDuration, b.config.demotion, step).state &&
                b.hooks == old(CopyHooks(copy, lists))[b] +
                           (if LiveCopy(copy, buffs, e) && Expires(b, old(CopyData(copy, lists))[b], step) then [OnLostCall] else [])
      ensures forall e :: e in copy ==>
                lists[copy[e]] == if LiveCopy(copy, buffs, e) then Survivors(old(lists[copy[e]]), old(CopyData(copy, lists)), step)
                                  else old(lists[copy[e]])
      ensures forall r :: r in old(lists) && r !in copy.Values ==> lists[r] == old(lists[r])
    {
      var r := WalkCopy(copy, buffs, lists, step, Home, ListOwner, Host);
      ConsistentRefill(buffs, copy, lists, nextRef, ListOwner, Home, Host, r);
      lists := r;
    }
  }
}
