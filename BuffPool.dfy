/**
 * The per-kind instance pool `BuffPool<T>`: a FIFO queue of idle instances
 * and the set of every instance the pool has handed out and not discarded.
 *
 * The two factories are the ones the buff manager installs: `new T()` and
 * `new T()` followed by `Init(args)`. The reset action is `buff.Reset()`, or
 * absent when `hasReset` is false.
 */
module BuffPools {
  import opened Common
  import BuffConfigs
  import opened BuffRuntime

  /** The idle queue after `Release(b)` (with `b` non-null). */
  function ReleasedIdle(idle: seq<BuffBase>, all: set<BuffBase>, b: BuffBase, maxCapacity: int): (r: seq<BuffBase>)
    ensures b !in all ==> r == idle
    ensures b in all && |idle| >= maxCapacity ==> r == idle
    ensures b in all && |idle| < maxCapacity ==> r == idle + [b]
    ensures |idle| <= maxCapacity ==> |r| <= maxCapacity
  {
    if b in all && |idle| < maxCapacity then idle + [b] else idle
  }

  /** The membership set after `Release(b)` (with `b` non-null). */
  function ReleasedAll(idle: seq<BuffBase>, all: set<BuffBase>, b: BuffBase, maxCapacity: int): (r: set<BuffBase>)
    ensures b in all && |idle| >= maxCapacity ==> r == all - {b} && b !in r
    ensures !(b in all && |idle| >= maxCapacity) ==> r == all
  {
    if b in all && |idle| >= maxCapacity then all - {b} else all
  }

  /**
   * Releasing a member twice while the queue has room puts it in the queue
   * twice, so two later `Get` calls hand out the same instance.
   */
  lemma DoubleReleaseEnqueuesTwice(b: BuffBase, maxCapacity: int)
    requires maxCapacity >= 2
    ensures var once := ReleasedIdle([], {b}, b, maxCapacity);
            var all1 := ReleasedAll([], {b}, b, maxCapacity);
            ReleasedIdle(once, all1, b, maxCapacity) == [b, b]
  {
  }

  /** The idle queue after a release that ignores an instance that is already idle. */
  function GuardedReleasedIdle(idle: seq<BuffBase>, all: set<BuffBase>, b: BuffBase, maxCapacity: int): (r: seq<BuffBase>)
    ensures b in idle ==> r == idle
    ensures b !in idle ==> r == ReleasedIdle(idle, all, b, maxCapacity)
  {
    if b in idle then idle else ReleasedIdle(idle, all, b, maxCapacity)
  }

  /**
   * The instances of `bs` that a `Predicate<T>` accepts, in order. The
   * predicate sees the instance (its kind, configuration and metadata) and
   * its runtime data as they are when the filter runs.
   */
  function Select(bs: seq<BuffBase>, p: (BuffBase, RuntimeState) -> bool): (r: seq<BuffBase>)
    reads set b | b in bs :: b.runtime
    ensures |r| <= |bs|
    ensures forall x :: x in r ==> x in bs && p(x, x.runtime.State())
    ensures forall x :: x in bs && p(x, x.runtime.State()) ==> x in r
  {
    if bs == [] then []
    else if p(bs[0], bs[0].runtime.State()) then [bs[0]] + Select(bs[1..], p)
    else Select(bs[1..], p)
  }

  /** Filtering a sequence with one more instance at its end filters that instance last. */
  lemma {:induction false} SelectSnoc(bs: seq<BuffBase>, b: BuffBase, p: (BuffBase, RuntimeState) -> bool)
    ensures Select(bs + [b], p) == Select(bs, p) + (if p(b, b.runtime.State()) then [b] else [])
  {
    if bs != [] {
      assert (bs + [b])[1..] == bs[1..] + [b];
      SelectSnoc(bs[1..], b, p);
    } else {
      assert [] + [b] == [b];
    }
  }

  /** The guarded release never puts an instance in the queue twice. */
  lemma GuardedReleaseNoDups(idle: seq<BuffBase>, all: set<BuffBase>, b: BuffBase, maxCapacity: int)
    requires NoDups(idle)
    ensures NoDups(GuardedReleasedIdle(idle, all, b, maxCapacity))
    ensures var r := GuardedReleasedIdle(idle, all, b, maxCapacity);
            b in r ==> forall i, j :: 0 <= i < j < |r| && r[i] == b ==> r[j] != b
  {
  }

  class BuffPool {
    const kind: Kind
    const config: BuffConfigs.BuffConfig
    const metadata: BuffMetadata
    const maxCapacity: int
    const hasReset: bool
    /** `_idleBuffs`, front first. */
    var idle: seq<BuffBase>
    /** `_allBuffs`. */
    var all: set<BuffBase>

    /** The idle queue is within capacity. */
    predicate Valid()
      reads this`idle
    {
      |idle| <= (if maxCapacity < 0 then 0 else maxCapacity)
    }

    /**
     * Every idle instance is a member. `Release` does not keep this: releasing
     * an idle member into a full queue drops it from membership while it is
     * still queued. The guarded release keeps it.
     */
    predicate IdleAreMembers()
      reads this
    {
      forall i :: 0 <= i < |idle| ==> idle[i] in all
    }

    /** The constructor once its null checks on the factories have passed. */
    constructor (kind: Kind, config: BuffConfigs.BuffConfig, metadata: BuffMetadata, hasReset: bool, maxCapacity: int := 20)
      ensures this.kind == kind && this.config == config && this.metadata == metadata
      ensures this.hasReset == hasReset && this.maxCapacity == maxCapacity
      ensures idle == [] && all == {}
      ensures Valid()
    {
      this.kind := kind;
      this.config := config;
      this.metadata := metadata;
      this.hasReset := hasReset;
      this.maxCapacity := maxCapacity;
      idle := [];
      all := {};
    }

    /** `new BuffPool(createFunc, createFuncArgs, resetAction, maxCapacity)`: a missing factory throws ArgumentException. */
    static method Create(kind: Kind, config: BuffConfigs.BuffConfig, metadata: BuffMetadata,
                         hasCreateFunc: bool, hasCreateFuncArgs: bool, hasReset: bool, maxCapacity: int := 20)
      returns (r: Result<BuffPool, BuffError>)
      ensures r.Err? <==> !hasCreateFunc || !hasCreateFuncArgs
      ensures r.Err? ==> r.error == ArgumentException
      ensures r.Ok? ==> fresh(r.value) && r.value.Valid() && r.value.idle == [] && r.value.all == {} &&
                        r.value.kind == kind && r.value.config == config && r.value.metadata == metadata &&
                        r.value.hasReset == hasReset && r.value.maxCapacity == maxCapacity
    {
      if !hasCreateFunc || !hasCreateFuncArgs {
        return Err(ArgumentException);
      }
      var p := new BuffPool(kind, config, metadata, hasReset, maxCapacity);
      return Ok(p);
    }

    /**
     * `Get()`: the front of the idle queue if there is one (membership
     * unchanged), otherwise a new uninitialised instance that joins the
     * membership set.
     */
    method Get() returns (b: BuffBase)
      requires Valid()
      modifies this
      ensures Valid()
      ensures old(idle) != [] ==> b == old(idle)[0] && idle == old(idle)[1..] && all == old(all)
      ensures old(idle) == [] ==>
                fresh(b) && fresh(b.runtime) && b.kind == kind && b.config == config &&
                b.metadata == metadata && b.runtime.State() == Cleared && b.hooks == [] &&
                idle == [] && all == old(all) + {b}
    {
      if |idle| > 0 {
        b := idle[0];
        idle := idle[1..];
        return;
      }
      b := new BuffBase(kind, config, metadata);
      all := all + {b};
    }

    /**
     * `Get(args)`. A reused idle instance is re-initialised only when `args`
     * is non-null and non-empty; with no idle instance the args factory builds
     * a new one and runs `Init(args)` on it. An exception from `Init` leaves
     * the pool as it was, except that a reused instance has already left the
     * queue.
     */
    method GetWithArgs(args: Option<seq<Arg>>) returns (r: Result<BuffBase, BuffError>)
      requires Valid()
      modifies this, if idle != [] then {idle[0], idle[0].runtime} else {}
      ensures Valid()
      ensures old(idle) != [] ==>
                idle == old(idle)[1..] && all == old(all) &&
                (if args.Some? && |args.value| > 0 then
                   var t := InitTransition(old(idle[0].runtime.State()), old(idle[0].config).maxDuration, args);
                   old(idle[0]).runtime.State() == t.state &&
                   old(idle[0]).hooks ==
                     old(idle[0].hooks) + (if t.outcome.Pass? then [CustomArgsCall(CustomArgs(args.value))] else []) &&
                   (t.outcome.Pass? ==> r == Ok(old(idle[0]))) &&
                   (t.outcome.Fail? ==> r == Err(t.outcome.error))
                 else
                   r == Ok(old(idle[0])) && old(idle[0]).runtime.State() == old(idle[0].runtime.State()) &&
                   old(idle[0]).hooks == old(idle[0].hooks))
      ensures old(idle) == [] ==>
                var t := InitTransition(Cleared, config.maxDuration, args);
                idle == [] &&
                (t.outcome.Fail? ==> r == Err(t.outcome.error) && all == old(all)) &&
                (t.outcome.Pass? ==>
                   r.Ok? && fresh(r.value) && fresh(r.value.runtime) && r.value.kind == kind &&
                   r.value.config == config && r.value.runtime.State() == t.state &&
                   r.value.hooks == [CustomArgsCall(CustomArgs(args.value))] &&
                   all == old(all) + {r.value})
    {
      if |idle| > 0 {
        var b := idle[0];
        idle := idle[1..];
        if args.Some? && |args.value| > 0 {
          var outcome := b.Init(args);
          if outcome.Fail? {
            return Err(outcome.error);
          }
        }
        return Ok(b);
      }
      var b := new BuffBase(kind, config, metadata);
      var outcome := b.Init(args);
      if outcome.Fail? {
        return Err(outcome.error);
      }
      all := all + {b};
      return Ok(b);
    }

    /**
     * `Release(b)`: null is ignored; otherwise the reset action always runs,
     * a non-member is then ignored, and a member is enqueued at the back when
     * the queue has room and dropped from membership when it does not.
     */
    method Release(b: Option<BuffBase>)
      requires Valid()
      modifies this, if b.Some? && hasReset then {b.value.runtime} else {}
      ensures Valid()
      ensures b.None? ==> idle == old(idle) && all == old(all)
      ensures b.Some? && hasReset ==> b.value.runtime.State() == Cleared
      ensures b.Some? ==> idle == ReleasedIdle(old(idle), old(all), b.value, maxCapacity)
      ensures b.Some? ==> all == ReleasedAll(old(idle), old(all), b.value, maxCapacity)
      ensures |idle| <= |old(idle)| + 1
    {
      if b.None? {
        return;
      }
      if hasReset {
        b.value.Reset();
      }
      if b.value !in all {
        return;
      }
      if |idle| >= maxCapacity {
        all := all - {b.value};
        return;
      }
      idle := idle + [b.value];
    }

    /** `Release` with the double-release guard: an instance that is already idle is ignored. */
    method ReleaseGuarded(b: Option<BuffBase>)
      requires Valid() && NoDups(idle) && IdleAreMembers()
      modifies this, if b.Some? && hasReset then {b.value.runtime} else {}
      ensures Valid() && NoDups(idle) && IdleAreMembers()
      ensures b.None? ==> idle == old(idle) && all == old(all)
      ensures b.Some? && hasReset ==> b.value.runtime.State() == Cleared
      ensures b.Some? ==> idle == GuardedReleasedIdle(old(idle), old(all), b.value, maxCapacity)
      ensures b.Some? && b.value in old(idle) ==> all == old(all)
      ensures b.Some? && b.value !in old(idle) ==> all == ReleasedAll(old(idle), old(all), b.value, maxCapacity)
    {
      if b.None? {
        return;
      }
      if hasReset {
        b.value.Reset();
      }
      if b.value !in all || b.value in idle {
        return;
      }
      if |idle| >= maxCapacity {
        all := all - {b.value};
        return;
      }
      idle := idle + [b.value];
    }

    /** `FindIdleBuffs(p)`: the idle instances satisfying `p`, in queue order. */
    method FindIdleBuffs(p: (BuffBase, RuntimeState) -> bool) returns (r: seq<BuffBase>)
      ensures r == Select(idle, p)
      ensures forall x :: x in r <==> x in idle && p(x, x.runtime.State())
    {
      r := [];
      var i := 0;
      while i < |idle|
        invariant 0 <= i <= |idle|
        invariant r == Select(idle[..i], p)
      {
        SelectSnoc(idle[..i], idle[i], p);
        assert idle[..i + 1] == idle[..i] + [idle[i]];
        if p(idle[i], idle[i].runtime.State()) {
          r := r + [idle[i]];
        }
        i := i + 1;
      }
      assert idle[..i] == idle;
    }

    /** `FindAllBuffs(p)`: every member satisfying `p`, each once, in no particular order. */
    method FindAllBuffs(p: (BuffBase, RuntimeState) -> bool) returns (r: seq<BuffBase>)
      ensures NoDups(r)
      ensures forall x :: x in r <==> x in all && p(x, x.runtime.State())
    {
      r := [];
      var rest := all;
      while rest != {}
        invariant rest <= all
        invariant NoDups(r)
        invariant forall x :: x in r <==> x in all && x !in rest && p(x, x.runtime.State())
        decreases |rest|
      {
        var x :| x in rest;
        if p(x, x.runtime.State()) {
          r := r + [x];
        }
        rest := rest - {x};
      }
    }
  }
}
