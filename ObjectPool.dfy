/**
 * The generic bounded pool `SafeObjectPool<T>`: a FIFO queue of idle
 * objects, a factory and an optional reset action.
 *
 * The factory is `create`, where `create(n)` stands for the object its
 * `n`-th call returns; `created` counts the calls made so far. Calls of the
 * reset action are recorded, in order, in `resets`.
 */
module ObjectPools {
  import opened Common

  datatype PoolError = ArgumentException

  /** The objects the preload loop makes for an initial capacity of `n`: the factory's first `n` results, or none. */
  function Preloaded<T>(create: nat -> T, n: int): (r: seq<T>)
    ensures |r| == if n > 0 then n else 0
    ensures forall i :: 0 <= i < |r| ==> r[i] == create(i)
    decreases if n > 0 then n else 0
  {
    if n <= 0 then [] else Preloaded(create, n - 1) + [create(n - 1)]
  }

  /** An operation on the idle queue. */
  datatype PoolOp<T> = GetOp | ReleaseOp(obj: T) | ClearOp

  /** The idle queue after one operation: `get`/`TryGet`, `Release` of a non-null object, or `Clear`. */
  function Apply<T>(idle: seq<T>, op: PoolOp<T>, maxCapacity: int): seq<T>
  {
    match op
    case GetOp => if |idle| > 0 then idle[1..] else idle
    case ReleaseOp(x) => if |idle| < maxCapacity then idle + [x] else idle
    case ClearOp => []
  }

  /** The idle queue after a series of operations. */
  function Run<T>(idle: seq<T>, ops: seq<PoolOp<T>>, maxCapacity: int): seq<T>
    decreases |ops|
  {
    if ops == [] then idle else Run(Apply(idle, ops[0], maxCapacity), ops[1..], maxCapacity)
  }

  function Max(a: int, b: int): int
  {
    if a < b then b else a
  }

  /**
   * No series of operations takes the idle count above the larger of its
   * starting value and the capacity: a release never enqueues into a full
   * queue, and an over-full preloaded queue only shrinks.
   */
  lemma {:induction false} RunBound<T>(idle: seq<T>, ops: seq<PoolOp<T>>, maxCapacity: int)
    ensures |Run(idle, ops, maxCapacity)| <= Max(|idle|, maxCapacity)
    decreases |ops|
  {
    if ops != [] {
      var next := Apply(idle, ops[0], maxCapacity);
      assert |next| <= Max(|idle|, maxCapacity);
      RunBound(next, ops[1..], maxCapacity);
    }
  }

  /** The operations releasing `xs` one after the other. */
  function Releases<T>(xs: seq<T>): (r: seq<PoolOp<T>>)
    ensures |r| == |xs|
    ensures forall i :: 0 <= i < |xs| ==> r[i] == ReleaseOp(xs[i])
  {
    if xs == [] then [] else [ReleaseOp(xs[0])] + Releases(xs[1..])
  }

  /** Releases into a queue with room for all of them join it at the back, in release order. */
  lemma {:induction false} ReleasesQueue<T>(idle: seq<T>, xs: seq<T>, maxCapacity: int)
    requires |idle| + |xs| <= maxCapacity
    ensures Run(idle, Releases(xs), maxCapacity) == idle + xs
    decreases |xs|
  {
    if xs != [] {
      var ops := Releases(xs);
      assert ops[0] == ReleaseOp(xs[0]);
      assert ops[1..] == Releases(xs[1..]);
      ReleasesQueue(idle + [xs[0]], xs[1..], maxCapacity);
      assert idle + [xs[0]] + xs[1..] == idle + xs;
    }
  }

  /** The operations taking `n` objects. */
  function Gets<T>(n: nat): (r: seq<PoolOp<T>>)
    ensures |r| == n && forall i :: 0 <= i < n ==> r[i] == GetOp
  {
    if n == 0 then [] else [GetOp] + Gets(n - 1)
  }

  /** Taking `n` objects from a queue of at least `n` hands out its first `n`, leaving the rest in order. */
  lemma {:induction false} GetsQueue<T>(idle: seq<T>, n: nat, maxCapacity: int)
    requires n <= |idle|
    ensures Run(idle, Gets(n), maxCapacity) == idle[n..]
    decreases n
  {
    if n > 0 {
      var ops: seq<PoolOp<T>> := Gets(n);
      assert ops[0] == GetOp && ops[1..] == Gets(n - 1);
      GetsQueue(idle[1..], n - 1, maxCapacity);
      assert idle[1..][n - 1..] == idle[n..];
    }
  }

  class SafeObjectPool<T> {
    const create: nat -> T
    const hasReset: bool
    const maxCapacity: int
    /** `_idleObjects`, front first. */
    var idle: seq<T>
    /** How many times the factory has been called. */
    var created: nat
    /** The objects passed to the reset action, in call order. */
    var resets: seq<T>

    /** `IdleCount`: the number of objects waiting in the idle queue. */
    function IdleCount(): (r: nat)
      reads this`idle
      ensures r == |idle|
      ensures r == 0 <==> idle == []
    {
      |idle|
    }

    /** The constructor once its null check on the factory has passed: the preload loop runs the factory `initialCapacity` times, ignoring the capacity. */
    constructor (create: nat -> T, hasReset: bool, initialCapacity: int := 0, maxCapacity: int := 100)
      ensures this.create == create && this.hasReset == hasReset && this.maxCapacity == maxCapacity
      ensures idle == Preloaded(create, initialCapacity) && created == |idle| && resets == []
    {
      this.create := create;
      this.hasReset := hasReset;
      this.maxCapacity := maxCapacity;
      idle := [];
      created := 0;
      resets := [];
      new;
      if initialCapacity > 0 {
        for i := 0 to initialCapacity
          invariant idle == Preloaded(create, i) && created == i && resets == []
        {
          var obj := create(created);
          created := created + 1;
          idle := idle + [obj];
        }
      }
    }

    /** `new SafeObjectPool(createFunc, ...)`: a missing factory throws ArgumentException. */
    static method Create(hasCreateFunc: bool, create: nat -> T, hasReset: bool, initialCapacity: int := 0, maxCapacity: int := 100)
      returns (r: Result<SafeObjectPool<T>, PoolError>)
      ensures r.Err? <==> !hasCreateFunc
      ensures r.Err? ==> r.error == ArgumentException
      ensures r.Ok? ==> fresh(r.value) && r.value.create == create && r.value.hasReset == hasReset &&
                        r.value.maxCapacity == maxCapacity && r.value.resets == [] &&
                        r.value.idle == Preloaded(create, initialCapacity) && r.value.created == |r.value.idle|
    {
      if !hasCreateFunc {
        return Err(ArgumentException);
      }
      var p := new SafeObjectPool(create, hasReset, initialCapacity, maxCapacity);
      return Ok(p);
    }

    /** `get()`: the front idle object, or else the factory's next object. */
    method Get() returns (obj: T)
      modifies this`idle, this`created
      ensures |old(idle)| > 0 ==> obj == old(idle[0]) && created == old(created)
      ensures |old(idle)| == 0 ==> obj == create(old(created)) && created == old(created) + 1
      ensures idle == Apply(old(idle), GetOp, maxCapacity)
    {
      if |idle| > 0 {
        obj := idle[0];
        idle := idle[1..];
        return;
      }
      obj := create(created);
      created := created + 1;
    }

    /**
     * `Release(obj)`: null throws ArgumentException; otherwise the reset
     * action runs and the object is enqueued only while the queue is below
     * capacity.
     */
    method Release(obj: Option<T>) returns (r: Outcome<PoolError>)
      modifies this`idle, this`resets
      ensures obj.None? ==> r == Fail(ArgumentException) && idle == old(idle) && resets == old(resets)
      ensures obj.Some? ==> r == Pass && idle == Apply(old(idle), ReleaseOp(obj.value), maxCapacity)
      ensures obj.Some? ==> resets == old(resets) + if hasReset then [obj.value] else []
      ensures |old(idle)| <= maxCapacity ==> |idle| <= maxCapacity
    {
      if obj.None? {
        return Fail(ArgumentException);
      }
      if hasReset {
        resets := resets + [obj.value];
      }
      if |idle| < maxCapacity {
        idle := idle + [obj.value];
      }
      return Pass;
    }

    /** `Clear()`. */
    method Clear()
      modifies this`idle
      ensures idle == Apply(old(idle), ClearOp, maxCapacity) && IdleCount() == 0
    {
      idle := [];
    }

    /** `TryGet(out obj)`: false and null on an empty queue, otherwise true and the front object. */
    method TryGet() returns (ok: bool, obj: Option<T>)
      modifies this`idle
      ensures ok <==> |old(idle)| > 0
      ensures ok ==> obj == Some(old(idle[0]))
      ensures !ok ==> obj == None
      ensures idle == Apply(old(idle), GetOp, maxCapacity)
    {
      if |idle| > 0 {
        obj := Some(idle[0]);
        idle := idle[1..];
        return true, obj;
      }
      return false, None;
    }
  }
}
