# Buff runtime, ECS store, pools, logging and JSON bookkeeping — a Dafny model

This project models the bookkeeping core of a Unity game written in C#:

- **Buff system.** `BuffManager` keeps every owner's list of buff
  instances and every owner's listeners. It resolves a repeated application
  by the kind's conflict policy (Combine, Separate or Cover). It finds,
  removes and observes instances, and it runs three periodic loop bodies:
  the tick, the housekeeping sweep and the decay pass. Around it sit the
  per-kind `BuffPool`, the `Init`/`Initialize`/`Reset` contract of
  `BuffBase`, `BuffRuntimeData.Clear` and the `BuffConfig` record.
- **ECS store.** `EcsEntityManager` keeps a two-way index between entities
  and component types. `EcsWorld` keeps its systems and their update
  delegates in two aligned lists, sorted by update order.
- **Pools and tables.** `SafeObjectPool` is a bounded FIFO pool.
  `EntityDataComponent` holds the stat tables, where a missing key reads as 0.
- **Logging.** `LogManager` filters by level, formats messages and fans them
  out to a list of outputs with no duplicates. `ConsoleOutput` formats and
  routes one message to a console sink. `DebugWindow` keeps a bounded line
  buffer and parses level tags.
- **JSON storage.** `JsonManager` is a registry of named storages.
  `PlayerPrefsJsonStorage` keeps a tracked-key list over a key/value store.
  `FileJsonStorage` maps keys to file names and back.

Each C# class whose fields change in place is a Dafny `class` with those
fields, `modifies` frames and postconditions that give the whole new state.
Pure computations are functions with lemmas about them.

Conventions used throughout:

- Entities are ids (`Entity(id)`). Whether a Unity object has been destroyed
  is a `destroyed: set<Entity>` parameter.
- A buff's runtime type `T` is a `Kind` number. A `catalog` gives what
  `new T()` builds for each kind.
- Durations are integer milliseconds, so `maxDuration = 5.0` s is `5000`. The
  physics step `Time.fixedDeltaTime` is a `step` parameter.
- `uint` levels are the `u32` subtype. `+=` and `-=` wrap modulo 2^32
  explicitly (`AddU32`, `SubU32`).
- Multicast delegates are sequences of listener ids. `+=` appends, and `-=`
  removes the last occurrence, as .NET `Delegate.Remove` does.
- Virtual hooks (`OnGet`, `OnLost`, `FixedUpdate`, `HandleCustomArgs`) are
  empty in the base class. Each call is recorded in the instance's `hooks`
  sequence. Listener calls are recorded in `BuffManager.notifications`, and
  calls into log outputs, systems and storages in `calls` logs.
- C# exceptions are `Outcome`/`Result` values naming the exception type.
  `null` arguments are `Option.None`.

## Model

| member | source | states |
|---|---|---|
| BuffConfigs.NewBuffConfig | Assets/Scripts/BuffSystem/Buff/BuffConfig.cs:9-34 | every constructor argument lands unchanged in the field of the same name, and `id` is left at 0 |
| BuffConfigs.DefaultConfig | Assets/Scripts/BuffSystem/Buff/BuffConfig.cs:18-25 | the defaults are type None, resolution Cover, maxDuration 5.0 s, frequency 1.0 s, maxLevel 5, demotion 1, dispellable true |
| BuffRuntime.BuffRuntimeData.Clear | Assets/_Project/Code/Scripts/Gameplay/BuffSystem/Buff/BuffRuntimeData.cs:14-21 | provider and owner become null, level 0, residual duration 0, and the instance is not initialised |
| BuffRuntime.ClearTwice | Assets/_Project/Code/Scripts/Gameplay/BuffSystem/Buff/BuffRuntimeData.cs:14-21 | `Clear` is idempotent: the state after two calls equals the state after one, the cleared state |
| BuffRuntime.BuffBase.Create | Assets/Scripts/BuffSystem/Buff/BuffBase.cs:20-25 | the constructor fails with ArgumentNullException exactly when the config or the metadata is null; otherwise it gives a fresh instance with cleared runtime data |
| BuffRuntime.BuffBase.OnGet | Assets/Scripts/BuffSystem/Buff/BuffBase.cs:34 | the base hook does nothing beyond being called once |
| BuffRuntime.BuffBase.OnLost | Assets/Scripts/BuffSystem/Buff/BuffBase.cs:39 | the base hook does nothing beyond being called once |
| BuffRuntime.BuffBase.FixedUpdate | Assets/Scripts/BuffSystem/Buff/BuffBase.cs:43 | the base hook does nothing beyond being called once |
| BuffRuntime.BuffBase.Initialize | Assets/Scripts/BuffSystem/Buff/BuffBase.cs:50-65 | InvalidOperationException if already initialised, ArgumentException if either entity is null, both leaving the state unchanged; otherwise sets provider, owner and the flag and leaves level and duration untouched |
| BuffRuntime.InitTransition | Assets/Scripts/BuffSystem/Buff/BuffBase.cs:67-97 | `Init` fails with ArgumentException for a null array, fewer than 3 arguments, or a first or second argument that is not an entity. It fails with InvalidCastException or NullReferenceException when the third argument does not unbox to `uint`, and by then provider and owner are already written. On success it sets provider, owner and level = args[2], sets duration to args[3] when that is a float and to maxDuration otherwise, and marks the instance initialised. It has no already-initialised check |
| BuffRuntime.CustomArgs | Assets/Scripts/BuffSystem/Buff/BuffBase.cs:95 | the custom arguments are those from index 4 onward, and there are none when at most 4 arguments are given |
| BuffRuntime.BuffBase.Init | Assets/Scripts/BuffSystem/Buff/BuffBase.cs:67-97 | the outcome and the new runtime state are exactly `InitTransition` of the old state, and `HandleCustomArgs` is called with `CustomArgs` only on success |
| BuffRuntime.BuffBase.Reset | Assets/Scripts/BuffSystem/Buff/BuffBase.cs:103-106 | all runtime data is cleared |
| BuffPools.BuffPool.Create | Assets/Scripts/BuffSystem/BuffPool.cs:21-27 | the pool constructor fails with ArgumentException exactly when a factory is null; otherwise the pool starts empty with the given capacity (default 20) |
| BuffPools.BuffPool.Get | Assets/Scripts/BuffSystem/BuffPool.cs:29-45 | with an idle instance, returns the front of the queue (FIFO) and leaves the membership set unchanged; otherwise creates a fresh instance and adds it to the membership set |
| BuffPools.BuffPool.GetWithArgs | Assets/Scripts/BuffSystem/BuffPool.cs:47-70 | a reused idle instance leaves the queue and gets `Init(args)` only when args is non-empty: its runtime state is then exactly the `InitTransition` result and `HandleCustomArgs` is recorded only on success; with empty or null args its state and hook calls are untouched. With no idle instance, the args factory builds one with `Init(args)`, and a failing `Init` adds nothing to the membership set |
| BuffPools.ReleasedIdle | Assets/Scripts/BuffSystem/BuffPool.cs:78-84 | a non-member is ignored; a member is enqueued at the back only below capacity, so the idle count never rises above capacity |
| BuffPools.ReleasedAll | Assets/Scripts/BuffSystem/BuffPool.cs:78-82 | a member released at capacity is dropped from the membership set; otherwise the set is unchanged |
| BuffPools.BuffPool.Release | Assets/Scripts/BuffSystem/BuffPool.cs:72-86 | `Release(null)` changes nothing; otherwise the reset action runs (when the pool has one) whether or not the instance is kept, and the idle queue and membership set become `ReleasedIdle` and `ReleasedAll` |
| BuffPools.DoubleReleaseEnqueuesTwice | Assets/Scripts/BuffSystem/BuffPool.cs:78-84 | releasing the same member twice below capacity puts it into the idle queue twice |
| BuffPools.GuardedReleasedIdle | Assets/Scripts/BuffSystem/BuffPool.cs:78-84 | corrected release: an instance already idle is not enqueued again; otherwise it behaves as `ReleasedIdle` |
| BuffPools.GuardedReleaseNoDups | Assets/Scripts/BuffSystem/BuffPool.cs:78-84 | the corrected release keeps the idle queue free of duplicates |
| BuffPools.BuffPool.ReleaseGuarded | Assets/Scripts/BuffSystem/BuffPool.cs:72-86 | the corrected release keeps the invariants that the idle queue has no duplicates and holds only members |
| BuffPools.BuffPool.FindIdleBuffs | Assets/Scripts/BuffSystem/BuffPool.cs:88-94 | returns exactly the idle instances the predicate accepts, judged on the instance and its current runtime data, in queue order, and changes nothing |
| BuffPools.BuffPool.FindAllBuffs | Assets/Scripts/BuffSystem/BuffPool.cs:96-102 | returns exactly the members the predicate accepts, judged on the instance and its current runtime data, each once, and changes nothing |
| BuffPools.Select | Assets/Scripts/BuffSystem/BuffPool.cs:92 | the `Where` filter keeps exactly the instances the predicate accepts on the instance and its runtime data, and never more than it was given |
| Buffs.BuffManager.GetOrCreatePool | Assets/Scripts/BuffSystem/BuffManager.cs:47-70 | an existing pool for the kind is returned unchanged; otherwise one fresh pool for the kind is registered and returned |
| Buffs.BuffManager.StartObserving | Assets/Scripts/BuffSystem/BuffManager.cs:81-99 | appends the listener to the target's delegate, creating the entry if needed; returns the live list when the target has one and a new empty list otherwise, never null |
| Buffs.BuffManager.StopObserving | Assets/Scripts/BuffSystem/BuffManager.cs:104-115 | fails exactly when the target has no entry; otherwise removes the last occurrence of the listener and drops the entry once no listener is left |
| Buffs.BuffManager.FindBuff | Assets/Scripts/BuffSystem/BuffManager.cs:182-197 | returns exactly the target's instances of the kind, in list order, and an empty list for an unknown target |
| Buffs.BuffManager.FindAllBuff | Assets/Scripts/BuffSystem/BuffManager.cs:204-213 | returns the target's live list, or a new empty list when the target has no entry |
| Buffs.BuffManager.Obtain | Assets/Scripts/BuffSystem/BuffManager.cs:246-249 | a new instance comes from the kind's pool and is fresh; it is initialised with the extra args only when they are non-empty, so provider and level are never passed to it |
| Buffs.BuffManager.AddNewBuff | Assets/Scripts/BuffSystem/BuffManager.cs:244-256 | on success exactly one new instance is appended at the end of the target's list, gets `OnGet`, and every listener of the target is called with it in order; other lists are unchanged; a failing `Init` changes no list |
| Buffs.BuffManager.Attach | Assets/Scripts/BuffSystem/BuffManager.cs:250-255 | appends the instance, calls its `OnGet` and then notifies the target's listeners in order |
| Buffs.BuffManager.RemoveBuff | Assets/Scripts/BuffSystem/BuffManager.cs:220-240 | returns true exactly when the target has an entry whose list holds the instance; then sets its level to 0, calls `OnLost` and removes exactly that element, keeping the order of the rest; otherwise changes nothing |
| Buffs.KindIndex | Assets/Scripts/BuffSystem/BuffManager.cs:133-140 | the position of the first instance of the kind, or -1 when there is none |
| Buffs.KindIndexFilter | Assets/Scripts/BuffSystem/BuffManager.cs:133-148 | the first element of the filtered list `temp01` is the first instance of the kind in the owner's list |
| Buffs.MatchIndexFilter | Assets/Scripts/BuffSystem/BuffManager.cs:153-163 | the first instance of the kind with a matching provider, found by scanning `temp01`, is the first such instance in the owner's list |
| Buffs.MatchIndex | Assets/Scripts/BuffSystem/BuffManager.cs:153-163 | the position of the first instance of the kind with the given provider, or -1 exactly when there is none |
| Buffs.FindProvider | Assets/Scripts/BuffSystem/BuffManager.cs:155-163 | the scan over `temp01` stops at the first instance with the given provider, or reports none |
| Buffs.Resolve | Assets/Scripts/BuffSystem/BuffManager.cs:120-172 | a new instance is appended exactly when no instance of the kind exists, or the policy is Separate and no instance of the kind has this provider; Cover replaces the first instance of the kind; Combine raises the first instance of the kind; Separate raises the first instance with the same provider |
| Buffs.BuffManager.Decide | Assets/Scripts/BuffSystem/BuffManager.cs:127-163 | the scans of `AddBuff` choose exactly the plan `Resolve` describes |
| Buffs.RaiseLevel | Assets/Scripts/BuffSystem/BuffManager.cs:151 | the chosen instance's level rises by exactly `level`, wrapping as `uint`, with no clamp to maxLevel; nothing else in its state changes |
| Buffs.BuffManager.RaiseListed | Assets/Scripts/BuffSystem/BuffManager.cs:151-159 | the chosen listed instance's level rises by `level`, wrapping as `uint`, and every other instance of the owner keeps its runtime data |
| Buffs.BuffManager.CreateEntry | Assets/Scripts/BuffSystem/BuffManager.cs:120-122 | a target with no entry gets a new, empty list under its key |
| Buffs.BuffManager.AddFresh | Assets/Scripts/BuffSystem/BuffManager.cs:120-145 | with no entry, an empty list or no instance of the kind, the target's list becomes the old list plus the one new instance (or stays as it was if `Init` fails), and the listeners are notified |
| Buffs.BuffManager.CoverFirst | Assets/Scripts/BuffSystem/BuffManager.cs:169-172 | the first instance of the kind is removed through `RemoveBuff` (level 0, `OnLost`) and one new instance is appended |
| Buffs.CoverCount | Assets/Scripts/BuffSystem/BuffManager.cs:169-172 | after Cover, the number of instances of the kind is unchanged |
| Buffs.AppendCount | Assets/Scripts/BuffSystem/BuffManager.cs:250 | appending a new instance of the kind raises that kind's count by exactly one |
| Buffs.BuffManager.AddBuff | Assets/Scripts/BuffSystem/BuffManager.cs:117-175 | the owner's list afterwards is determined by the plan: AppendNew appends exactly one new instance, Raise leaves the list as it is and raises one level by `level` with no clamp, and Replace removes the first instance of the kind (level 0, `OnLost`) and appends one. A new instance has the fresh-pool `Init` state and the hook calls of `Init` followed by `OnGet`; the raised instance records no hook call; every other instance of the owner keeps its state and hook calls. Other owners' lists and the observers are untouched, and the listeners hear only of a newly added instance |
| Buffs.TickCalls | Assets/Scripts/BuffSystem/BuffManager.cs:272-275 | `FixedUpdate` is called exactly when the level is positive and the owner is set and not destroyed |
| Buffs.TickList | Assets/Scripts/BuffSystem/BuffManager.cs:270-276 | every instance of one list gets exactly the hook calls `TickCalls` gives for its state |
| Buffs.BuffManager.Tick | Assets/Scripts/BuffSystem/BuffManager.cs:262-279 | every listed instance of every owner gets `FixedUpdate` exactly when its level is positive and its owner is alive |
| Buffs.BuffManager.RefreshCopy | Assets/Scripts/BuffSystem/BuffManager.cs:289-292 | every owner entry is copied into the copy dictionary, which shares the live list objects |
| Buffs.BuffManager.Sweep | Assets/Scripts/BuffSystem/BuffManager.cs:294-308 | exactly the entries whose owner is destroyed or whose list is empty are removed; all other entries are unchanged |
| Buffs.BuffManager.Housekeep | Assets/Scripts/BuffSystem/BuffManager.cs:284-310 | the copy is refreshed, then exactly the destroyed or empty owners leave the dictionary and every other entry keeps its list |
| Buffs.AddEntries | Assets/Scripts/BuffSystem/BuffManager.cs:289-292 | as written, the copy loop throws exactly when it meets a key the copy already holds (for distinct keys); when it does not throw, every earlier entry is kept and every live entry is added |
| Buffs.SecondSweepThrows | Assets/Scripts/BuffSystem/BuffManager.cs:289-292 | as written, once a pass has copied an owner, any later pass that enumerates that owner again throws |
| Buffs.RefreshCovers | Assets/Scripts/BuffSystem/BuffManager.cs:289-292 | with the add replaced by an overwrite, every pass leaves every live owner in the copy with its live list |
| BuffDecay.Decay | Assets/Scripts/BuffSystem/BuffManager.cs:327-353 | an instance is removed exactly when its level is 0, or its duration is exactly 0 and demotion would take its level to 0; a removed instance gets level 0. A kept instance with time left loses one step of duration, with no floor at 0; one at duration 0 is demoted by `demotion` (wrapping as `uint` below it) and restarts at maxDuration less one step; provider, owner and the initialised flag never change |
| Buffs.Survivors | Assets/Scripts/BuffSystem/BuffManager.cs:327-345 | the instances that outlive one pass are exactly those that do not expire, in their original order |
| Buffs.KeptSurvivors | Assets/Scripts/BuffSystem/BuffManager.cs:327-345 | removing expired instances one at a time while walking back to front leaves exactly `Survivors` |
| Buffs.DecayInstance | Assets/Scripts/BuffSystem/BuffManager.cs:331-352 | one instance's new state is `Decay` of its old state, and it is dropped exactly when `Decay` says so |
| Buffs.DecayRun | Assets/Scripts/BuffSystem/BuffManager.cs:327-353 | the back-to-front loop leaves every instance in its decayed state, calls `OnLost` on exactly the removed ones and leaves the kept ones in order |
| Buffs.DecayWalk | Assets/Scripts/BuffSystem/BuffManager.cs:327-353 | one owner's pass: states decay, and the list becomes `Survivors` when the owner's entry is still live; when the entry is gone, `RemoveBuff` fails and the list is unchanged |
| Buffs.WalkCopy | Assets/Scripts/BuffSystem/BuffManager.cs:323-354 | every owner in the copy dictionary is decayed, and lists not reached from the copy are unchanged |
| Buffs.BuffManager.DecayPass | Assets/Scripts/BuffSystem/BuffManager.cs:320-355 | the decay pass over the copy dictionary: every instance in a copied list decays, each live owner's list becomes its survivors, and every other list is unchanged |
| BuffDecay.PassesAdd | Assets/Scripts/BuffSystem/BuffManager.cs:327-353 | a + b consecutive passes equal a passes followed by b passes |
| BuffDecay.RemovedStaysRemoved | Assets/Scripts/BuffSystem/BuffManager.cs:331-345 | once an instance is removed, later passes never bring it back |
| BuffDecay.CountDown | Assets/Scripts/BuffSystem/BuffManager.cs:352 | an instance with duration j steps counts down one step per pass for j passes |
| BuffDecay.DecayLifetime | Assets/Scripts/BuffSystem/BuffManager.cs:327-353 | with demotion 1 and maxDuration m steps, an instance at level L with k steps left survives every pass before pass k + 1 + (L-1)·m and is removed on that pass |
| BuffDecay.OffStepNeverExpires | Assets/Scripts/BuffSystem/BuffManager.cs:338-352 | a duration that is not a whole number of steps never reaches exactly 0, so the instance is never demoted or removed by decay |
| ObjectPools.Preloaded | Assets/_Project/Code/Scripts/Core/Utils/ObjectPool.cs:33-43 | preloading creates exactly n objects when n > 0, in creation order, and none otherwise |
| ObjectPools.SafeObjectPool.Create | Assets/_Project/Code/Scripts/Core/Utils/ObjectPool.cs:27-44 | ArgumentException exactly for a null factory; otherwise the pool starts with `initialCapacity` idle objects, even above `maxCapacity` |
| ObjectPools.SafeObjectPool.Get | Assets/_Project/Code/Scripts/Core/Utils/ObjectPool.cs:46-54 | returns the front idle object when there is one, and a freshly created one otherwise |
| ObjectPools.SafeObjectPool.Release | Assets/_Project/Code/Scripts/Core/Utils/ObjectPool.cs:56-67 | `Release(null)` fails with ArgumentException; otherwise reset runs and the object is enqueued only below `maxCapacity`, so the idle count never exceeds the maximum |
| ObjectPools.SafeObjectPool.Clear | Assets/_Project/Code/Scripts/Core/Utils/ObjectPool.cs:69-75 | empties the idle queue, and `IdleCount` is 0 afterwards |
| ObjectPools.SafeObjectPool.IdleCount | Assets/_Project/Code/Scripts/Core/Utils/ObjectPool.cs:19-25 | the number of objects in the idle queue, 0 exactly when the queue is empty |
| ObjectPools.SafeObjectPool.TryGet | Assets/_Project/Code/Scripts/Core/Utils/ObjectPool.cs:77-90 | on an empty pool returns false and null; otherwise returns true and dequeues the front |
| ObjectPools.RunBound | Assets/_Project/Code/Scripts/Core/Utils/ObjectPool.cs:46-75 | over any sequence of gets, releases and clears, the idle count never exceeds the larger of its start and `maxCapacity` |
| ObjectPools.ReleasesQueue | Assets/_Project/Code/Scripts/Core/Utils/ObjectPool.cs:56-67 | releases below capacity enqueue in order (FIFO) |
| ObjectPools.GetsQueue | Assets/_Project/Code/Scripts/Core/Utils/ObjectPool.cs:46-54 | n gets take the first n idle objects in order |
| Ecs.IndexedIff | Assets/_Project/Code/Scripts/Core/Patterns/ECS/EcsEntityManager.cs:39-65 | the index invariant holds exactly when the type-to-entities index is the one computed from the components: an id is listed under t iff t is one of its components, and no type maps to an empty set |
| Ecs.EcsEntityManager.CreateEntity | Assets/_Project/Code/Scripts/Core/Patterns/ECS/EcsEntityManager.cs:9-20 | ids are handed out 0, 1, 2, … and never reused; the new entity exists and has no components |
| Ecs.EcsEntityManager.DestroyEntity | Assets/_Project/Code/Scripts/Core/Patterns/ECS/EcsEntityManager.cs:22-32 | the entity leaves both maps, after which it does not exist; an unknown entity is a no-op |
| Ecs.EcsEntityManager.Exists | Assets/_Project/Code/Scripts/Core/Patterns/ECS/EcsEntityManager.cs:34-37 | true exactly when the id has a component map, and then the id is one already handed out |
| Ecs.EcsEntityManager.HasComponent | Assets/_Project/Code/Scripts/Core/Patterns/ECS/EcsEntityManager.cs:67-71 | only an existing entity holds a component, and the answer agrees with the type-to-entities index |
| Ecs.EcsEntityManager.RemoveAllComponents | Assets/_Project/Code/Scripts/Core/Patterns/ECS/EcsEntityManager.cs:26-29 | each component of the entity is removed, leaving it with none, and no other entity changes |
| Ecs.EcsEntityManager.AddComponent | Assets/_Project/Code/Scripts/Core/Patterns/ECS/EcsEntityManager.cs:39-49 | ArgumentException exactly for an entity that does not exist, changing nothing; otherwise `HasComponent` holds, `GetComponent` returns the new value (replacing any older one), and the entity is among the entities with that component |
| Ecs.EcsEntityManager.StoreComponent | Assets/_Project/Code/Scripts/Core/Patterns/ECS/EcsEntityManager.cs:44-48 | storing a component that is not yet present adds it to the entity's map and lists the entity under its type |
| Ecs.EcsEntityManager.RemoveComponent | Assets/_Project/Code/Scripts/Core/Patterns/ECS/EcsEntityManager.cs:51-65 | removes the component and unlists the entity, dropping a type whose set becomes empty; a missing entity or component is a no-op |
| Ecs.EcsEntityManager.GetComponent | Assets/_Project/Code/Scripts/Core/Patterns/ECS/EcsEntityManager.cs:73-81 | InvalidOperationException exactly when the component is absent; otherwise the stored value |
| Ecs.EcsEntityManager.SetComponent | Assets/_Project/Code/Scripts/Core/Patterns/ECS/EcsEntityManager.cs:84-94 | InvalidOperationException exactly when the component is absent; otherwise replaces only the value and leaves the index unchanged |
| Ecs.EcsEntityManager.GetEntitiesWithComponent | Assets/_Project/Code/Scripts/Core/Patterns/ECS/EcsEntityManager.cs:96-102 | exactly the entities that have the component |
| Ecs.EcsEntityManager.GetEntitiesWithAll | Assets/_Project/Code/Scripts/Core/Patterns/ECS/EcsEntityManager.cs:104-121 | empty for no types; otherwise exactly the entities having every listed type |
| Ecs.UnlistedIndexed | Assets/_Project/Code/Scripts/Core/Patterns/ECS/EcsEntityManager.cs:56-65 | removing a component and unlisting the entity preserves the index invariant |
| Ecs.ListedIndexed | Assets/_Project/Code/Scripts/Core/Patterns/ECS/EcsEntityManager.cs:44-48 | adding a component and listing the entity preserves the index invariant |
| EcsWorlds.InsertionPoint | Assets/_Project/Code/Scripts/Core/Patterns/ECS/EcsWorld.cs:68-71 | the insert index is past every system with a smaller update order and before the first one with an equal or greater order |
| EcsWorlds.InsertSorted | Assets/_Project/Code/Scripts/Core/Patterns/ECS/EcsWorld.cs:68-72 | inserting at that index keeps the list sorted by update order |
| EcsWorlds.InsertBeforeEqual | Assets/_Project/Code/Scripts/Core/Patterns/ECS/EcsWorld.cs:69-71 | a new system goes before every existing system with an equal update order |
| EcsWorlds.InsertValid | Assets/_Project/Code/Scripts/Core/Patterns/ECS/EcsWorld.cs:68-73 | the two lists stay index-aligned, sorted and free of duplicates after an insert |
| EcsWorlds.EcsWorld.AddEcsSystem | Assets/_Project/Code/Scripts/Core/Patterns/ECS/EcsWorld.cs:57-74 | null or an already present system changes nothing and calls no `Initialize`; otherwise the system and its delegate are inserted at the same index and `Initialize` is called once |
| EcsWorlds.EcsWorld.RemoveEcsSystem | Assets/_Project/Code/Scripts/Core/Patterns/ECS/EcsWorld.cs:76-85 | an absent system changes nothing; a present one is removed from both lists at the same index and its `Destroy` is called once |
| EcsWorlds.FirstOfKind | Assets/_Project/Code/Scripts/Core/Patterns/ECS/EcsWorld.cs:46-55 | the first system of the requested type in list order, or null when there is none |
| EcsWorlds.EcsWorld.GetEcsSystem | Assets/_Project/Code/Scripts/Core/Patterns/ECS/EcsWorld.cs:46-55 | the loop returns `FirstOfKind` |
| EcsWorlds.EcsWorld.Update | Assets/_Project/Code/Scripts/Core/Patterns/ECS/EcsWorld.cs:94-100 | every delegate is invoked once, in list order, so the i-th call updates the i-th system |
| EcsWorlds.EcsWorld.OnDestroy | Assets/_Project/Code/Scripts/Core/Patterns/ECS/EcsWorld.cs:35-44 | every system is destroyed in list order and both lists are emptied |
| EntityData.Lookup | Assets/Scripts/Core/Entity/EntityDataComponent.cs:44-54 | 0 when the table does not exist and for a missing key; otherwise the stored value |
| EntityData.EntityDataComponent.InitializeDefaults | Assets/Scripts/Core/Entity/EntityDataComponent.cs:13-42 | both tables are replaced by the default tables |
| EntityData.DefaultsSize | Assets/Scripts/Core/Entity/EntityDataComponent.cs:13-41 | the defaults hold exactly 12 core keys and 9 bonus keys |
| EntityData.CoreDefaultsComplete | Assets/Scripts/Core/Entity/EntityDataComponent.cs:15-28 | every core stat has a default |
| EntityData.BonusDefaultsComplete | Assets/Scripts/Core/Entity/EntityDataComponent.cs:30-41 | every bonus stat has a default |
| EntityData.DefaultsFull | Assets/Scripts/Core/Entity/EntityDataComponent.cs:17-20 | after `InitializeDefaults`, CrtHp = HpLimit = 1000 and CrtMp = MpLimit = 200 |
| EntityData.LookupView | Assets/Scripts/Core/Entity/EntityDataComponent.cs:44-64 | `GetData` agrees with the read-only view, which is empty when the table does not exist |
| EntityData.EntityDataComponent.GetCore | Assets/Scripts/Core/Entity/EntityDataComponent.cs:44-48 | 0 when the core table does not exist or lacks the key; otherwise the stored core value |
| EntityData.EntityDataComponent.GetBonus | Assets/Scripts/Core/Entity/EntityDataComponent.cs:50-54 | 0 when the bonus table does not exist or lacks the key; otherwise the stored bonus value |
| EntityData.EntityDataComponent.GetBonusData | Assets/Scripts/Core/Entity/EntityDataComponent.cs:56-59 | an empty view when the bonus table does not exist; otherwise exactly its keys, each with the value `GetData` returns |
| EntityData.EntityDataComponent.GetCoreData | Assets/Scripts/Core/Entity/EntityDataComponent.cs:61-64 | an empty view when the core table does not exist; otherwise exactly its keys, each with the value `GetData` returns |
| EntityData.StoredFresh | Assets/Scripts/Core/Entity/EntityDataComponent.cs:66-76 | `SetData` on a table that does not exist creates one holding only that key |
| EntityData.StoredLookup | Assets/Scripts/Core/Entity/EntityDataComponent.cs:66-76 | after `SetData`, `GetData` of the same key returns the value set and every other key is unchanged |
| EntityData.EntityDataComponent.SetCore | Assets/Scripts/Core/Entity/EntityDataComponent.cs:66-70 | the core value is stored, reads back, and no other core key changes |
| EntityData.EntityDataComponent.SetBonus | Assets/Scripts/Core/Entity/EntityDataComponent.cs:72-76 | the bonus value is stored, reads back, and no other bonus key changes |
| Logging.RankInjective | Assets/_Project/Code/Scripts/Basement/Tools/Debug/Log/LogManager.cs:73 | the level order compares distinct levels as distinct |
| Logging.NamesDistinct | Assets/_Project/Code/Scripts/Basement/Tools/Debug/Log/LogManager.cs:144 | the upper-case names and the bracket tags are non-empty and tell the levels apart |
| Logging.Contains | Assets/_Project/Code/Scripts/Basement/Tools/Debug/Log/DebugWindow.cs:126-139 | `string.Contains` holds exactly when the text occurs at some position |
| Logging.ContainsSlice | Assets/_Project/Code/Scripts/Basement/Tools/Debug/Log/DebugWindow.cs:94 | every slice of a line, the empty text included, is contained in it |
| ConsoleOutputs.TagField | Assets/_Project/Code/Scripts/Basement/Tools/Debug/Log/ConsoleOutput.cs:55 | a null or empty tag gives an empty field, and any other tag gives "[tag]" |
| ConsoleOutputs.FormatMessage | Assets/_Project/Code/Scripts/Basement/Tools/Debug/Log/ConsoleOutput.cs:48-57 | with timestamps disabled the formatted message is the raw message |
| ConsoleOutputs.FormatMessageLayout | Assets/_Project/Code/Scripts/Basement/Tools/Debug/Log/ConsoleOutput.cs:53-56 | with timestamps enabled the message starts with "[t] " and then the upper-case level name, ends with the message itself, and is exactly five separator characters longer than its parts |
| ConsoleOutputs.EmptyTagDoubleSpace | Assets/_Project/Code/Scripts/Basement/Tools/Debug/Log/ConsoleOutput.cs:55-56 | an empty or null tag yields "[t] LEVEL  message", with a double space |
| ConsoleOutputs.FormatMessageInjective | Assets/_Project/Code/Scripts/Basement/Tools/Debug/Log/ConsoleOutput.cs:48-57 | for the same level, tag and time, different messages format differently |
| ConsoleOutputs.Route | Assets/_Project/Code/Scripts/Basement/Tools/Debug/Log/ConsoleOutput.cs:23-40 | Error and Fatal go to the error sink, Warning to the warning sink and Info to the plain sink; Debug goes to the plain sink only in development builds |
| ConsoleOutputs.ConsoleOutput.Log | Assets/_Project/Code/Scripts/Basement/Tools/Debug/Log/ConsoleOutput.cs:16-41 | a message below the configured level emits nothing; an Info, Warning, Error or Fatal message at or above it emits exactly one line, on the sink `Route` chooses |
| ConsoleOutputs.ConsoleOutput.SetLogLevel | Assets/_Project/Code/Scripts/Basement/Tools/Debug/Log/ConsoleOutput.cs:43-46 | the configured level becomes the given one |
| LogManagers.FormatLogMessage | Assets/_Project/Code/Scripts/Basement/Tools/Debug/Log/LogManager.cs:133-157 | the message is, in order, "[ts] " only if timestamps are on, the upper-case level name and a space, "[tag] " only for a non-empty tag, then the message |
| LogManagers.FormatLogMessageBare | Assets/_Project/Code/Scripts/Basement/Tools/Debug/Log/LogManager.cs:133-157 | without timestamp or tag the result is "LEVEL message" |
| LogManagers.FormatLogMessageInjective | Assets/_Project/Code/Scripts/Basement/Tools/Debug/Log/LogManager.cs:133-157 | for the same level, tag and time, different messages format differently |
| LogManagers.FormatLogMessageUntagged | Assets/_Project/Code/Scripts/Basement/Tools/Debug/Log/LogManager.cs:137-145 | without a timestamp the line starts with the level name without brackets, so it never starts with the level's "[LEVEL]" tag |
| LogManagers.Dispatch | Assets/_Project/Code/Scripts/Basement/Tools/Debug/Log/LogManager.cs:71-89 | below the current level no output is called; otherwise every output is called once, in list order, with the same formatted message |
| LogManagers.LogManager.Log | Assets/_Project/Code/Scripts/Basement/Tools/Debug/Log/LogManager.cs:71-89 | the calls made are exactly `Dispatch` |
| LogManagers.LogManager.Broadcast | Assets/_Project/Code/Scripts/Basement/Tools/Debug/Log/LogManager.cs:78-88 | every output receives the message once, in list order |
| LogManagers.LogManager.LogDebug | Assets/_Project/Code/Scripts/Basement/Tools/Debug/Log/LogManager.cs:91-96 | logs at Debug only in development builds |
| LogManagers.LogManager.LogInfo | Assets/_Project/Code/Scripts/Basement/Tools/Debug/Log/LogManager.cs:98-101 | logs at Info |
| LogManagers.LogManager.LogWarning | Assets/_Project/Code/Scripts/Basement/Tools/Debug/Log/LogManager.cs:103-106 | logs at Warning |
| LogManagers.LogManager.LogError | Assets/_Project/Code/Scripts/Basement/Tools/Debug/Log/LogManager.cs:108-111 | logs at Error |
| LogManagers.LogManager.LogFatal | Assets/_Project/Code/Scripts/Basement/Tools/Debug/Log/LogManager.cs:113-116 | logs at Fatal |
| LogManagers.ExceptionMessage | Assets/_Project/Code/Scripts/Basement/Tools/Debug/Log/LogManager.cs:123-128 | the text names the exception type and message, and the stack trace is appended only when that option is on and a trace exists |
| LogManagers.LogManager.LogException | Assets/_Project/Code/Scripts/Basement/Tools/Debug/Log/LogManager.cs:118-131 | a null exception does nothing; otherwise it logs `ExceptionMessage` at Error |
| LogManagers.LogManager.AddOutput | Assets/_Project/Code/Scripts/Basement/Tools/Debug/Log/LogManager.cs:159-177 | null or an output already present leaves the list and the calls unchanged; otherwise the output is appended, given the current level, and the addition is logged at Info |
| LogManagers.LogManager.RemoveOutput | Assets/_Project/Code/Scripts/Basement/Tools/Debug/Log/LogManager.cs:179-189 | a present output is removed, and the list stays free of duplicates; null or an absent output changes nothing |
| LogManagers.LogManager.SetOutputLevels | Assets/_Project/Code/Scripts/Basement/Tools/Debug/Log/LogManager.cs:195-205 | every output is given the new level, in list order |
| LogManagers.LogManager.SetLogLevel | Assets/_Project/Code/Scripts/Basement/Tools/Debug/Log/LogManager.cs:191-208 | the current level and every output's level become the new level; the Info notice about it is filtered out when the new level is above Info |
| LogManagers.CreatedNoDups | Assets/_Project/Code/Scripts/Basement/Tools/Debug/Log/LogManager.cs:40-60 | the configured outputs keep the output list free of duplicates |
| LogManagers.LogManager.AddConfiguredOutputs | Assets/_Project/Code/Scripts/Basement/Tools/Debug/Log/LogManager.cs:40-60 | the console, file and debug-window outputs are added as the configuration enables them |
| LogManagers.LogManager.Initialize | Assets/_Project/Code/Scripts/Basement/Tools/Debug/Log/LogManager.cs:26-69 | a second call is skipped, leaving outputs and settings unchanged; the first call applies the configuration, adds the configured outputs and logs completion |
| LogManagers.LogManager.EnableTimestamp | Assets/_Project/Code/Scripts/Basement/Tools/Debug/Log/LogManager.cs:210-213 | sets the timestamp option |
| LogManagers.LogManager.EnableStackTrace | Assets/_Project/Code/Scripts/Basement/Tools/Debug/Log/LogManager.cs:215-218 | sets the stack-trace option |
| LogManagers.DisposeCalls | Assets/_Project/Code/Scripts/Basement/Tools/Debug/Log/LogManager.cs:220-242 | exactly the disposable outputs are disposed |
| LogManagers.LogManager.OnDestroy | Assets/_Project/Code/Scripts/Basement/Tools/Debug/Log/LogManager.cs:220-242 | disposable outputs are disposed in list order, the list is emptied and the manager is no longer initialised |
| DebugWindows.ClampMaxLines | Assets/_Project/Code/Scripts/Basement/Tools/Debug/Log/DebugWindow.cs:27-31 | the setter stores max(100, value) |
| DebugWindows.DebugWindow.SetMaxLines | Assets/_Project/Code/Scripts/Basement/Tools/Debug/Log/DebugWindow.cs:27-31 | the line limit becomes `ClampMaxLines(value)` |
| DebugWindows.Appended | Assets/_Project/Code/Scripts/Basement/Tools/Debug/Log/DebugWindow.cs:189-192 | the message is appended at the end, and if the count then exceeds the limit exactly the oldest line is dropped |
| DebugWindows.AppendedLast | Assets/_Project/Code/Scripts/Basement/Tools/Debug/Log/DebugWindow.cs:189-192 | one append keeps the last `maxLines` lines of the old buffer plus the message |
| DebugWindows.AppendedAllLast | Assets/_Project/Code/Scripts/Basement/Tools/Debug/Log/DebugWindow.cs:184-193 | after any sequence of logged messages the buffer holds exactly the last `maxLines` lines |
| DebugWindows.DebugWindow.Log | Assets/_Project/Code/Scripts/Basement/Tools/Debug/Log/DebugWindow.cs:184-193 | a message below the configured level leaves the buffer unchanged; otherwise the buffer becomes `Appended`; a count within the limit stays within it |
| DebugWindows.DebugWindow.SetLogLevel | Assets/_Project/Code/Scripts/Basement/Tools/Debug/Log/DebugWindow.cs:195-198 | the configured level becomes the given one |
| DebugWindows.DebugWindow.ClearLogs | Assets/_Project/Code/Scripts/Basement/Tools/Debug/Log/DebugWindow.cs:178-182 | the buffer is emptied |
| DebugWindows.DebugWindow.ToggleWindow | Assets/_Project/Code/Scripts/Basement/Tools/Debug/Log/DebugWindow.cs:206-209 | visibility is inverted, so two toggles restore it |
| DebugWindows.DebugWindow.ShowWindow | Assets/_Project/Code/Scripts/Basement/Tools/Debug/Log/DebugWindow.cs:211-214 | the window becomes visible |
| DebugWindows.DebugWindow.HideWindow | Assets/_Project/Code/Scripts/Basement/Tools/Debug/Log/DebugWindow.cs:216-219 | the window becomes hidden |
| DebugWindows.GetLogLevel | Assets/_Project/Code/Scripts/Basement/Tools/Debug/Log/DebugWindow.cs:126-139 | the level of the first tag found, checked in the order [DEBUG], [INFO], [WARNING], [ERROR], [FATAL], and Debug when the line has no tag |
| DebugWindows.SearchHidesAll | Assets/_Project/Code/Scripts/Basement/Tools/Debug/Log/DebugWindow.cs:94-95 | as written, any non-empty search text hides every line |
| DebugWindows.SearchHidesMatch | Assets/_Project/Code/Scripts/Basement/Tools/Debug/Log/DebugWindow.cs:94-95 | as written, the line "[INFO] hello" is hidden when searching for "hello", although it contains it |
| DebugWindows.ShownIff | Assets/_Project/Code/Scripts/Basement/Tools/Debug/Log/DebugWindow.cs:92-103 | corrected filter: a line is shown exactly when it contains the search text and its level is at or above the filter level |
| DebugWindows.EmptySearchAgrees | Assets/_Project/Code/Scripts/Basement/Tools/Debug/Log/DebugWindow.cs:94-99 | with an empty search the corrected and the as-written filters agree |
| DebugWindows.ShownLinesMembers | Assets/_Project/Code/Scripts/Basement/Tools/Debug/Log/DebugWindow.cs:92-103 | the drawn lines are exactly the buffered lines the corrected filter keeps |
| DebugWindows.DebugWindow.VisibleLines | Assets/_Project/Code/Scripts/Basement/Tools/Debug/Log/DebugWindow.cs:88-109 | the drawing loop keeps the buffered lines the corrected filter shows, in order |
| JsonManagers.Lookup | Assets/_Project/Code/Scripts/Basement/Json/JsonManager.cs:82-91 | `GetStorage` returns the registered storage, or null |
| JsonManagers.JsonManager.GetStorage | Assets/_Project/Code/Scripts/Basement/Json/JsonManager.cs:82-91 | the storage registered under the name, and null exactly when no storage is registered under it |
| JsonManagers.RegisteredLookup | Assets/_Project/Code/Scripts/Basement/Json/JsonManager.cs:55-80 | a null or empty name or a null storage changes no lookup; otherwise the name now finds the new storage (overwriting any older one) and every other name is unchanged |
| JsonManagers.RegisteredNames | Assets/_Project/Code/Scripts/Basement/Json/JsonManager.cs:69-77 | registering never loses a name and adds at most one |
| JsonManagers.JsonManager.RegisterStorage | Assets/_Project/Code/Scripts/Basement/Json/JsonManager.cs:55-80 | the registry becomes `Registered` of the old registry |
| JsonManagers.JsonManager.SetDefaultStorage | Assets/_Project/Code/Scripts/Basement/Json/JsonManager.cs:93-102 | a registered name becomes the default; an unregistered name leaves the default unchanged |
| JsonManagers.JsonManager.Initialize | Assets/_Project/Code/Scripts/Basement/Json/JsonManager.cs:25-53 | a second call changes nothing; the first registers "File" and "PlayerPrefs", sets the serializer and makes the file storage the default |
| JsonManagers.JsonManager.Target | Assets/_Project/Code/Scripts/Basement/Json/JsonManager.cs:104-157 | an operation without a storage name goes to the default storage, and one with a name goes to the named storage or to none |
| JsonManagers.JsonManager.Save | Assets/_Project/Code/Scripts/Basement/Json/JsonManager.cs:104-113 | saves through the target storage; with no target nothing happens |
| JsonManagers.JsonManager.Load | Assets/_Project/Code/Scripts/Basement/Json/JsonManager.cs:115-124 | loads through the target storage; with no target returns default |
| JsonManagers.JsonManager.Exists | Assets/_Project/Code/Scripts/Basement/Json/JsonManager.cs:126-135 | asks the target storage; with no target returns false |
| JsonManagers.JsonManager.Delete | Assets/_Project/Code/Scripts/Basement/Json/JsonManager.cs:137-146 | deletes through the target storage; with no target nothing happens |
| JsonManagers.JsonManager.Clear | Assets/_Project/Code/Scripts/Basement/Json/JsonManager.cs:148-157 | clears the target storage; with no target nothing happens |
| JsonManagers.JsonManager.Serialize | Assets/_Project/Code/Scripts/Basement/Json/JsonManager.cs:159-162 | uses the serializer when one is set, and gives null otherwise |
| JsonManagers.JsonManager.Deserialize | Assets/_Project/Code/Scripts/Basement/Json/JsonManager.cs:164-167 | uses the serializer when one is set, and gives default otherwise |
| JsonManagers.JsonManager.OnDestroy | Assets/_Project/Code/Scripts/Basement/Json/JsonManager.cs:184-191 | the registry is emptied and the default storage, the serializer and the initialised flag are cleared |
| PlayerPrefsJsonStorages.FullKey | Assets/_Project/Code/Scripts/Basement/Json/PlayerPrefsJsonStorage.cs:23-26 | data for key k is stored under prefix + k |
| PlayerPrefsJsonStorages.FullKeyInjective | Assets/_Project/Code/Scripts/Basement/Json/PlayerPrefsJsonStorage.cs:23-26 | distinct keys are stored under distinct entries |
| PlayerPrefsJsonStorages.TrackedKeysCollision | Assets/_Project/Code/Scripts/Basement/Json/PlayerPrefsJsonStorage.cs:23-30 | a data entry coincides with the tracked-key entry exactly for the key "_TrackedKeys" |
| PlayerPrefsJsonStorages.LoadedKeys | Assets/_Project/Code/Scripts/Basement/Json/PlayerPrefsJsonStorage.cs:28-46 | the tracked keys load from the bookkeeping entry; a missing or empty entry, a null list or a decoding failure gives an empty list |
| PlayerPrefsJsonStorages.PlayerPrefsJsonStorage.constructor | Assets/_Project/Code/Scripts/Basement/Json/PlayerPrefsJsonStorage.cs:15-21 | the default prefix is "JSON_", and the tracked keys are loaded from the store |
| PlayerPrefsJsonStorages.PlayerPrefsJsonStorage.SaveTrackedKeys | Assets/_Project/Code/Scripts/Basement/Json/PlayerPrefsJsonStorage.cs:48-53 | the encoded tracked list is written to the bookkeeping entry |
| PlayerPrefsJsonStorages.PlayerPrefsJsonStorage.TrackKey | Assets/_Project/Code/Scripts/Basement/Json/PlayerPrefsJsonStorage.cs:55-62 | a key already tracked changes nothing; otherwise it is appended and the list is saved, so the list never holds duplicates |
| PlayerPrefsJsonStorages.PlayerPrefsJsonStorage.UntrackKey | Assets/_Project/Code/Scripts/Basement/Json/PlayerPrefsJsonStorage.cs:64-68 | the key is removed from the list and the list is saved |
| PlayerPrefsJsonStorages.PlayerPrefsJsonStorage.Save | Assets/_Project/Code/Scripts/Basement/Json/PlayerPrefsJsonStorage.cs:70-84 | the entry is stored under prefix + key and the key is tracked; afterwards `Load` returns the saved data for every key except "_TrackedKeys" |
| PlayerPrefsJsonStorages.PlayerPrefsJsonStorage.Load | Assets/_Project/Code/Scripts/Basement/Json/PlayerPrefsJsonStorage.cs:86-105 | a missing key gives default; otherwise the stored entry |
| PlayerPrefsJsonStorages.PlayerPrefsJsonStorage.Exists | Assets/_Project/Code/Scripts/Basement/Json/PlayerPrefsJsonStorage.cs:107-110 | true exactly when PlayerPrefs holds an entry under the prefix followed by the key |
| PlayerPrefsJsonStorages.PlayerPrefsJsonStorage.Delete | Assets/_Project/Code/Scripts/Basement/Json/PlayerPrefsJsonStorage.cs:112-129 | an absent key changes nothing; a present key's entry is removed and the key is untracked |
| PlayerPrefsJsonStorages.PlayerPrefsJsonStorage.DeleteTracked | Assets/_Project/Code/Scripts/Basement/Json/PlayerPrefsJsonStorage.cs:135-138 | every tracked key's entry is deleted |
| PlayerPrefsJsonStorages.PlayerPrefsJsonStorage.Clear | Assets/_Project/Code/Scripts/Basement/Json/PlayerPrefsJsonStorage.cs:131-148 | every tracked key's entry is deleted and the tracked list is emptied and saved |
| PlayerPrefsJsonStorages.PlayerPrefsJsonStorage.GetAllKeys | Assets/_Project/Code/Scripts/Basement/Json/PlayerPrefsJsonStorage.cs:150-153 | a copy of the tracked keys, in insertion order |
| PlayerPrefsJsonStorages.SaveCollisionLost | Assets/_Project/Code/Scripts/Basement/Json/PlayerPrefsJsonStorage.cs:70-78 | saving data under the key "_TrackedKeys" is overwritten by the tracked-key list in the same call |
| FileJsonStorages.Sanitize | Assets/_Project/Code/Scripts/Basement/Json/FileJsonStorage.cs:30 | the safe key has the same length, with each '/', '\\' and ':' replaced by '_' |
| FileJsonStorages.SanitizeSafe | Assets/_Project/Code/Scripts/Basement/Json/FileJsonStorage.cs:30 | a safe key contains no '/', '\\' or ':', and every other character is unchanged |
| FileJsonStorages.SanitizeIdempotent | Assets/_Project/Code/Scripts/Basement/Json/FileJsonStorage.cs:30 | sanitising twice equals sanitising once |
| FileJsonStorages.FileJsonStorage.constructor | Assets/_Project/Code/Scripts/Basement/Json/FileJsonStorage.cs:16-20 | the storage keeps its root and its extension, which defaults to ".json" |
| FileJsonStorages.RelativeOfFilePath | Assets/_Project/Code/Scripts/Basement/Json/FileJsonStorage.cs:28-31 | the path relative to the root (as line 125 computes it) of a key's file is the safe key followed by the extension |
| FileJsonStorages.Combine | Assets/_Project/Code/Scripts/Basement/Json/FileJsonStorage.cs:31 | as `Path.Combine` does, a file name that is already rooted replaces the root |
| FileJsonStorages.RecoveredChars | Assets/_Project/Code/Scripts/Basement/Json/FileJsonStorage.cs:122-126 | recovery of a key written by `GetFilePath` (lines 30-31) turns every '_', '\\', ':' and '/' of the key into '/' and keeps every other character |
| FileJsonStorages.KeyRoundTrip | Assets/_Project/Code/Scripts/Basement/Json/FileJsonStorage.cs:122-126 | a key written by `GetFilePath` (lines 30-31) round-trips through `GetAllKeys` exactly when it contains no '_', '\\' or ':' |

## Left out

- Locks in `BuffPool`, `BuffManager` and `SafeObjectPool` are not modelled, because the model is single-threaded.
- The coroutine scheduling (`StartCoroutine`, `WaitForSeconds`) is not modelled. The shared, unsynchronised use of the lists by the two coroutines and `FixedUpdate` is not modelled either. Their loop bodies are the methods `Tick`, `Housekeep` and `DecayPass`.
- Float time is integer milliseconds. `Time.fixedDeltaTime` is the `step` parameter, and the `ResidualDuration == 0` float comparison is integer equality.
- Buffs.BuffManager.Housekeep: `_buffDictionaryCopy` is never cleared (BuffManager.cs:282, 289-292), so from the second pass on `_buffDictionaryCopy.Add` throws on any owner still in the live dictionary. The exception ends the coroutine, owners registered later never enter the copy, and `FixedUpdate` (BuffManager.cs:323) never decays their instances. Buffs.BuffManager.RefreshCopy overwrites the key instead, so in the model every live owner is decayed by `DecayPass`. The as-written loop is `Buffs.AddEntries`, and the defect is listed under Findings.
- Buffs.BuffManager.DecayPass: the order in which owners of the copy dictionary are visited is not modelled. The copied lists are disjoint, so the result does not depend on it.
- The `LogLevel` enum file is not part of this model. Its order is taken to be Debug < Info < Warning < Error < Fatal, as its use throughout the logging code implies.
- GUI drawing (`OnGUI`, styles, scroll position, the F12 key) is not modelled. Only the line filter of `DrawLogContent` is, as `VisibleLines`.
- `FileJsonStorage` file I/O is not modelled: its `Save`, `Load`, `Exists`, `Delete`, `Clear` and `*Async` bodies. Only `GetFilePath` and the key recovery of `GetAllKeys` are. Paths use `/` as the directory separator.
- The `*Async` methods of every storage are not modelled, because they only wrap the synchronous ones in tasks.
- Serialization is opaque. `JsonManager` and `PlayerPrefsJsonStorage` take the serializer's encode and decode functions as parameters. Storages store JSON text, so `Load` returns the stored text rather than a deserialized object.
- `PlayerPrefs` is a `map<string, string>`. `PlayerPrefs.Save()` (flushing to disk) is not modelled.
- `LogManager`'s log outputs are ids with a kind. `FileOutput`, the `LogBridge` and `Singleton` glue, and the config provider are not part of this model.
- Hook bodies (`OnGet`, `OnLost`, `FixedUpdate`, `HandleCustomArgs`) are empty in the base class. Their calls are recorded, not their effects.
- Buffs.RaiseLevel: the level is not clamped to `maxLevel`; BuffManager.cs:151 and 159 add `level` without a clamp, and the model does the same.
- BuffDecay.Decay: duration is not floored at 0 after the step is subtracted; BuffManager.cs:352 subtracts `Time.fixedDeltaTime` with no floor, and the model does the same.
- BuffRuntime.BuffBase.Init: an instance that is already initialised is initialised again; BuffBase.cs:67-97 does not look at `IsInitialized` before overwriting the runtime data, and the model does the same.
- Outputs, serializers and storages are taken never to throw, so the catch-and-continue paths are not modelled: the per-output catch in `LogManager.Log` (LogManager.cs:80-87), the try/catch in `LogManager.Initialize` and `SetLogLevel`, `JsonManager.Initialize` (JsonManager.cs:33-52), and the catches in `PlayerPrefsJsonStorage.Save`, `Delete` and `Clear` (PlayerPrefsJsonStorage.cs:72-83, 114-128, 133-147). The Unity console diagnostics these paths and `RegisterStorage`/`GetStorage` (JsonManager.cs:57-71, 89) and `EcsWorld` write are not modelled either.
- The `FileJsonStorage` constructor's null check on the serializer and its directory creation (FileJsonStorage.cs:19-25) are not modelled; the model starts from a base path.
- PlayerPrefsJsonStorages.PlayerPrefsJsonStorage.Save: the read-back promise excludes the key "_TrackedKeys". For that key the data entry is the bookkeeping entry, and the tracked list overwrites it (`SaveCollisionLost`).
- ConsoleOutputs.ConsoleOutput.Log: the console line for Debug is written only in development builds, as the conditional compilation of the code does. The build flag is a constructor parameter.
- The `EntityBase` null checks on `Initialize` are `Option` values. Unity's destroyed-object equality is the `destroyed` set.
- PlayerPrefsJsonStorages.PlayerPrefsJsonStorage.constructor: the ArgumentNullException for a null serializer is not modelled. The encode and decode functions are always given.
- `EcsWorld` systems are values with a kind number for their runtime type, and `GetEcsSystem<T>` takes the set of kinds that are a `T`.
- EntityData.EntityDataComponent: `EntityDataComponent` is a C# `struct` (EntityDataComponent.cs:6). Its copies share the dictionary tables once those exist, and a `SetData` on a copy whose table is still null creates a table in that copy only. The model is a class over map values and does not capture this copy or sharing behaviour.
- EntityData.EntityDataComponent.GetCoreData: returns the live table, not a snapshot; the model returns the table's value, so later writes through the component are not seen through an earlier result. The same holds for EntityData.EntityDataComponent.GetBonusData.
- Ecs.EcsEntityManager.GetEntitiesWithComponent: returns a lazy `Select` over the live set (EcsEntityManager.cs:96-102); the model returns a snapshot set, so a result does not follow later changes to the store.
- Buffs.Resolve: the Separate policy compares providers by entity id. Unity's `==` treats a destroyed object as equal to null, and the model does not capture that.
- JsonManagers.JsonManager.GetStorage: a null name makes `TryGetValue` throw ArgumentNullException (JsonManager.cs:82-91). Names are non-null strings in the model, so this path is not modelled, and neither is it for the named overloads that look a storage up.

## Findings

| source | as written | input that shows it | evidently intended | confidence | as-written member | corrected member |
|---|---|---|---|---|---|---|
| Assets/_Project/Code/Scripts/Basement/Tools/Debug/Log/DebugWindow.cs:94 | a line is skipped when the search text is non-empty OR the line does not contain it | search text "hello" and the line "[INFO] hello": the line is hidden, and so is every other line | skip a line only when the search text is non-empty AND the line does not contain it | high; not executed | DebugWindows.SearchHidesMatch | DebugWindows.ShownIff |
| Assets/Scripts/BuffSystem/BuffPool.cs:78-84 | `Release` enqueues any member below capacity, even one that is already idle | a pool of capacity 20 with member b and an empty idle queue; releasing b twice gives the idle queue [b, b], and two later `Get` calls hand out the same instance | a second release of an idle instance is ignored, so the idle queue never holds an instance twice | medium; not executed | BuffPools.DoubleReleaseEnqueuesTwice | BuffPools.GuardedReleaseNoDups |
| Assets/Scripts/BuffSystem/BuffManager.cs:289-292 | `_buffDictionaryCopy.Add` runs on every housekeeping pass, and the copy is never cleared | owner A gets an instance, and the first pass copies A; owner B then gets one; at the next pass the enumeration meets A first, `Add(A, …)` throws, the housekeeping coroutine ends, and B never enters the copy, so `FixedUpdate` never decays B's instances | each pass brings the copy up to date with the live dictionary, so every live owner is decayed | high; not executed | Buffs.SecondSweepThrows | Buffs.RefreshCovers |
