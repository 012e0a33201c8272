/**
 * One applied effect: `BuffRuntimeData` (the mutable runtime record) and
 * `BuffBase` (the instance with its read-only definition and its hooks).
 *
 * The hooks `OnGet`, `OnLost`, `FixedUpdate` and `HandleCustomArgs` are empty
 * virtual methods in the base class; the model records each call in the
 * instance's `hooks` log instead of giving them an effect.
 */
module BuffRuntime {
  import opened Common
  import BuffConfigs

  /** The concrete effect class (`typeof(T)`), as an identifier. */
  type Kind = nat

  /** One element of the `object[] args` passed to `Init`. */
  datatype Arg =
    | EntityArg(entity: Entity)   // an EntityBase
    | UIntArg(u: u32)             // a boxed uint
    | FloatArg(ms: int)           // a boxed float duration, in milliseconds
    | OtherArg(code: int)         // any other boxed value (an int, a string, ...)
    | NullArg                     // null

  datatype BuffMetadata = BuffMetadata(name: string, desc: string, iconPath: string)

  /** The exceptions the buff runtime throws. */
  datatype BuffError =
    | ArgumentNullException
    | ArgumentException
    | InvalidOperationException
    | InvalidCastException
    | NullReferenceException
    | TargetNotObserved   // the plain `Exception` of StopObserving

  /** A snapshot of the five runtime properties. */
  datatype RuntimeState = RuntimeState(
    provider: Option<Entity>,
    owner: Option<Entity>,
    level: u32,
    duration: int,
    initialized: bool)

  /** The state `Clear` leaves, which is also the C# default of every property. */
  const Cleared: RuntimeState := RuntimeState(None, None, 0, 0, false)

  /** A recorded call of one of the no-op virtual hooks. */
  datatype Hook = OnGetCall | OnLostCall | FixedUpdateCall | CustomArgsCall(args: seq<Arg>)

  /** What `Init(args)` throws (if anything) and the state it leaves behind. */
  datatype InitStep = InitStep(outcome: Outcome<BuffError>, state: RuntimeState)

  /**
   * The effect of `Init(args)` on a runtime state `s`. The properties are
   * written one by one: the argument checks, the partial writes left behind
   * by a late check, and the fields set on success.
   */
  function InitTransition(s: RuntimeState, maxDuration: int, args: Option<seq<Arg>>): (t: InitStep)
    // fewer than three arguments (or a null array): rejected, nothing written
    ensures (args.None? || |args.value| < 3) ==> t == InitStep(Fail(ArgumentException), s)
    // the first two arguments must be entities
    ensures args.Some? && |args.value| >= 3 && !args.value[0].EntityArg? ==>
              t == InitStep(Fail(ArgumentException), s)
    ensures args.Some? && |args.value| >= 3 && args.value[0].EntityArg? && !args.value[1].EntityArg? ==>
              t == InitStep(Fail(ArgumentException), s.(provider := Some(args.value[0].entity)))
    // the third must unbox to uint; provider and owner are already written
    ensures args.Some? && |args.value| >= 3 && args.value[0].EntityArg? && args.value[1].EntityArg? &&
            !args.value[2].UIntArg? ==>
              t.state == s.(provider := Some(args.value[0].entity), owner := Some(args.value[1].entity)) &&
              t.outcome == Fail(if args.value[2].NullArg? then NullReferenceException else InvalidCastException)
    // success exactly when all three checks pass
    ensures t.outcome.Pass? <==>
              args.Some? && |args.value| >= 3 && args.value[0].EntityArg? && args.value[1].EntityArg? &&
              args.value[2].UIntArg?
    ensures t.outcome.Pass? ==>
              t.state.provider == Some(args.value[0].entity) &&
              t.state.owner == Some(args.value[1].entity) &&
              t.state.level == args.value[2].u &&
              t.state.initialized &&
              t.state.duration == (if |args.value| >= 4 && args.value[3].FloatArg? then args.value[3].ms else maxDuration)
  {
    if args.None? || |args.value| < 3 then InitStep(Fail(ArgumentException), s)
    else
      var a := args.value;
      if !a[0].EntityArg? then InitStep(Fail(ArgumentException), s)
      else
        var s1 := s.(provider := Some(a[0].entity));
        if !a[1].EntityArg? then InitStep(Fail(ArgumentException), s1)
        else
          var s2 := s1.(owner := Some(a[1].entity));
          if a[2].NullArg? then InitStep(Fail(NullReferenceException), s2)
          else if !a[2].UIntArg? then InitStep(Fail(InvalidCastException), s2)
          else
            var d := if |a| >= 4 && a[3].FloatArg? then a[3].ms else maxDuration;
            InitStep(Pass, s2.(level := a[2].u, duration := d, initialized := true))
  }

  /** The arguments `Init` hands to `HandleCustomArgs`: `args.Skip(4)`. */
  function CustomArgs(a: seq<Arg>): (r: seq<Arg>)
    ensures |a| <= 4 ==> r == []
    ensures |a| > 4 ==> |r| == |a| - 4
    ensures forall i :: 0 <= i < |r| ==> i + 4 < |a| && r[i] == a[i + 4]
  {
    if |a| >= 4 then a[4..] else []
  }

  class BuffRuntimeData {
    var provider: Option<Entity>
    var owner: Option<Entity>
    var currentLevel: u32
    var residualDuration: int
    var isInitialized: bool

    function State(): RuntimeState
      reads this
    {
      RuntimeState(provider, owner, currentLevel, residualDuration, isInitialized)
    }

    /** A new record holds the C# defaults, which are the cleared values. */
    constructor ()
      ensures State() == Cleared
    {
      provider, owner := None, None;
      currentLevel, residualDuration := 0, 0;
      isInitialized := false;
    }

    /**
     * Provider and owner become null, level and duration 0, the flag false.
     * The new state does not depend on the old one, so `Clear` is idempotent.
     */
    method Clear()
      modifies this
      ensures provider == None && owner == None
      ensures currentLevel == 0 && residualDuration == 0
      ensures !isInitialized
      ensures State() == Cleared
    {
      provider := None;
      owner := None;
      currentLevel := 0;
      residualDuration := 0;
      isInitialized := false;
    }
  }

  /** Clearing a record twice leaves the same state as clearing it once. */
  method ClearTwice(d: BuffRuntimeData) returns (once: RuntimeState, twice: RuntimeState)
    modifies d
    ensures once == twice == Cleared
  {
    d.Clear();
    once := d.State();
    d.Clear();
    twice := d.State();
  }

  class BuffBase {
    const kind: Kind
    const config: BuffConfigs.BuffConfig
    const metadata: BuffMetadata
    const runtime: BuffRuntimeData
    /** The calls of the no-op virtual hooks, oldest first. */
    var hooks: seq<Hook>

    /** The constructor once its null checks have passed. */
    constructor (kind: Kind, config: BuffConfigs.BuffConfig, metadata: BuffMetadata)
      ensures this.kind == kind && this.config == config && this.metadata == metadata
      ensures fresh(runtime) && runtime.State() == Cleared
      ensures hooks == []
    {
      this.kind := kind;
      this.config := config;
      this.metadata := metadata;
      runtime := new BuffRuntimeData();
      hooks := [];
    }

    /** `new BuffBase(config, metadata)`: a null config or metadata throws ArgumentNullException. */
    static method Create(kind: Kind, config: Option<BuffConfigs.BuffConfig>, metadata: Option<BuffMetadata>)
      returns (r: Result<BuffBase, BuffError>)
      ensures r.Err? <==> config.None? || metadata.None?
      ensures r.Err? ==> r.error == ArgumentNullException
      ensures r.Ok? ==> fresh(r.value) && fresh(r.value.runtime) &&
                        r.value.kind == kind && r.value.config == config.value &&
                        r.value.metadata == metadata.value &&
                        r.value.runtime.State() == Cleared && r.value.hooks == []
    {
      if config.None? || metadata.None? {
        return Err(ArgumentNullException);
      }
      var b := new BuffBase(kind, config.value, metadata.value);
      return Ok(b);
    }

    method OnGet()
      modifies this
      ensures hooks == old(hooks) + [OnGetCall]
    {
      hooks := hooks + [OnGetCall];
    }

    method OnLost()
      modifies this
      ensures hooks == old(hooks) + [OnLostCall]
    {
      hooks := hooks + [OnLostCall];
    }

    method FixedUpdate()
      modifies this
      ensures hooks == old(hooks) + [FixedUpdateCall]
    {
      hooks := hooks + [FixedUpdateCall];
    }

    /**
     * `Initialize(provider, owner)`: refuses an initialised instance, then
     * null entities; otherwise sets the two entities and the flag, leaving
     * level and duration as they were.
     */
    method Initialize(paramProvider: Option<Entity>, paramOwner: Option<Entity>) returns (r: Outcome<BuffError>)
      modifies runtime
      ensures old(runtime.isInitialized) ==> r == Fail(InvalidOperationException)
      ensures !old(runtime.isInitialized) && (paramOwner.None? || paramProvider.None?) ==>
                r == Fail(ArgumentException)
      ensures r.Fail? ==> runtime.State() == old(runtime.State())
      ensures r.Pass? <==> !old(runtime.isInitialized) && paramOwner.Some? && paramProvider.Some?
      ensures r.Pass? ==>
                runtime.State() ==
                old(runtime.State()).(provider := paramProvider, owner := paramOwner, initialized := true)
    {
      if runtime.isInitialized {
        return Fail(InvalidOperationException);
      }
      if paramOwner.None? || paramProvider.None? {
        return Fail(ArgumentException);
      }
      runtime.provider := paramProvider;
      runtime.owner := paramOwner;
      runtime.isInitialized := true;
      return Pass;
    }

    /**
     * `Init(args)`: the state it leaves and what it throws are those of
     * `InitTransition`; on success the arguments from index 4 on go to
     * `HandleCustomArgs`. There is no check for an already initialised
     * instance.
     */
    method Init(args: Option<seq<Arg>>) returns (r: Outcome<BuffError>)
      modifies this, runtime
      ensures InitTransition(old(runtime.State()), config.maxDuration, args) == InitStep(r, runtime.State())
      ensures hooks == old(hooks) + (if r.Pass? then [CustomArgsCall(CustomArgs(args.value))] else [])
    {
      if args.None? || |args.value| < 3 {
        return Fail(ArgumentException);
      }
      var a := args.value;
      if !a[0].EntityArg? {
        return Fail(ArgumentException);
      }
      runtime.provider := Some(a[0].entity);
      if !a[1].EntityArg? {
        return Fail(ArgumentException);
      }
      runtime.owner := Some(a[1].entity);
      if a[2].NullArg? {
        return Fail(NullReferenceException);
      }
      if !a[2].UIntArg? {
        return Fail(InvalidCastException);
      }
      runtime.currentLevel := a[2].u;
      if |a| >= 4 && a[3].FloatArg? {
        runtime.residualDuration := a[3].ms;
      } else {
        runtime.residualDuration := config.maxDuration;
      }
      hooks := hooks + [CustomArgsCall(CustomArgs(a))];
      runtime.isInitialized := true;
      return Pass;
    }

    /** `Reset` clears all runtime data. */
    method Reset()
      modifies runtime
      ensures runtime.State() == Cleared
    {
      runtime.Clear();
    }
  }
}
