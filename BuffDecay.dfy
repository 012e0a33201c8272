/**
 * What one pass of the buff manager's `FixedUpdate` does to one instance,
 * and what repeated passes do to it.
 *
 * Durations are integer milliseconds and `step` is `Time.fixedDeltaTime`.
 * The level is a `uint`, so the demotion wraps below zero.
 */
module BuffDecay {
  import opened Common
  import opened BuffRuntime

  /** The instance's data after the pass, and whether the pass asks to remove it. */
  datatype DecayStep = Keep(state: RuntimeState) | Drop(state: RuntimeState)

  /**
   * One pass over one instance: a level-0 instance is removed; an expired one
   * (duration exactly 0) loses `demotion` levels and is removed when that
   * leaves 0, otherwise its duration is refilled; an instance that stays
   * then loses one step of duration, with no floor.
   */
  function Decay(s: RuntimeState, maxDuration: int, demotion: u32, step: int): (r: DecayStep)
    ensures r.Drop? <==> s.level == 0 || (s.duration == 0 && s.level == demotion)
    ensures r.Drop? ==> r.state == s.(level := 0)
    ensures s.level != 0 && s.duration != 0 ==> r == Keep(s.(duration := s.duration - step))
    ensures s.level != 0 && s.duration == 0 && s.level > demotion ==>
              r == Keep(s.(level := s.level - demotion, duration := maxDuration - step))
    ensures s.level != 0 && s.duration == 0 && s.level < demotion ==>
              r == Keep(s.(level := s.level - demotion + U32_LIMIT, duration := maxDuration - step))
    ensures r.state.provider == s.provider && r.state.owner == s.owner && r.state.initialized == s.initialized
  {
    if s.level == 0 then Drop(s)
    else if s.duration == 0 then
      var l := SubU32(s.level, demotion);
      if l == 0 then Drop(s.(level := 0))
      else Keep(s.(level := l, duration := maxDuration - step))
    else Keep(s.(duration := s.duration - step))
  }

  /** One pass, with `None` standing for an instance that was removed. */
  function After(s: Option<RuntimeState>, maxDuration: int, demotion: u32, step: int): Option<RuntimeState>
  {
    if s.None? then None
    else match Decay(s.value, maxDuration, demotion, step)
      case Keep(t) => Some(t)
      case Drop(_) => None
  }

  /** `n` consecutive passes. */
  function Passes(s: Option<RuntimeState>, maxDuration: int, demotion: u32, step: int, n: nat): Option<RuntimeState>
    decreases n
  {
    if n == 0 then s else Passes(After(s, maxDuration, demotion, step), maxDuration, demotion, step, n - 1)
  }

  /** Helper for `RemovedStaysRemoved`: once removed, further passes keep the instance removed. */
  lemma {:induction false} PassesNone(maxDuration: int, demotion: u32, step: int, n: nat)
    ensures Passes(None, maxDuration, demotion, step, n) == None
  {
    if n > 0 {
      PassesNone(maxDuration, demotion, step, n - 1);
    }
  }

  /** Passes compose: `a` passes then `b` passes are `a + b` passes. */
  lemma {:induction false} PassesAdd(s: Option<RuntimeState>, maxDuration: int, demotion: u32, step: int, a: nat, b: nat)
    ensures Passes(s, maxDuration, demotion, step, a + b) ==
            Passes(Passes(s, maxDuration, demotion, step, a), maxDuration, demotion, step, b)
    decreases a
  {
    if a > 0 {
      PassesAdd(After(s, maxDuration, demotion, step), maxDuration, demotion, step, a - 1, b);
    }
  }

  /** A removed instance stays removed: once `Passes` is `None` it is `None` for every later pass. */
  lemma RemovedStaysRemoved(s: Option<RuntimeState>, maxDuration: int, demotion: u32, step: int, a: nat, n: nat)
    requires a <= n
    requires Passes(s, maxDuration, demotion, step, a) == None
    ensures Passes(s, maxDuration, demotion, step, n) == None
  {
    PassesAdd(s, maxDuration, demotion, step, a, n - a);
    PassesNone(maxDuration, demotion, step, n - a);
  }

  /** While the level is positive and the duration has `j` steps left, each pass takes one step off. */
  lemma {:induction false} CountDown(s: RuntimeState, maxDuration: int, demotion: u32, step: int, j: nat, n: nat)
    requires s.level > 0 && step > 0 && s.duration == j * step && n <= j
    ensures Passes(Some(s), maxDuration, demotion, step, n) == Some(s.(duration := (j - n) * step))
    decreases n
  {
    if n > 0 {
      assert s.duration != 0;
      var t := s.(duration := s.duration - step);
      assert After(Some(s), maxDuration, demotion, step) == Some(t);
      assert t.duration == (j - 1) * step;
      CountDown(t, maxDuration, demotion, step, j - 1, n - 1);
    }
  }

  /** The pass on which an instance is removed: `k + 1 + (level - 1) * m`. */
  function Lifetime(level: nat, k: nat, m: nat): nat
  {
    if level == 0 then 0 else k + 1 + (level - 1) * m
  }

  /**
   * With a demotion step of 1, a maximum duration of `m` steps and an initial
   * duration of `k` steps, an instance at level `L > 0` is present after every
   * pass before pass `k + 1 + (L - 1) * m`, and removed on that pass: it loses
   * one level each time its duration runs out, and goes once the last level
   * is lost.
   */
  lemma {:induction false} DecayLifetime(s: RuntimeState, maxDuration: int, step: int, k: nat, m: nat, n: nat)
    requires step > 0 && m >= 1 && maxDuration == m * step
    requires s.level > 0 && s.duration == k * step
    ensures n < Lifetime(s.level, k, m) ==> Passes(Some(s), maxDuration, 1, step, n).Some?
    ensures Passes(Some(s), maxDuration, 1, step, Lifetime(s.level, k, m)) == None
    decreases s.level
  {
    var life := Lifetime(s.level, k, m);
    var z := s.(duration := 0);
    CountDown(s, maxDuration, 1, step, k, k);
    assert Passes(Some(s), maxDuration, 1, step, k) == Some(z);
    if s.level == 1 {
      assert After(Some(z), maxDuration, 1, step) == None;
      assert Passes(Some(z), maxDuration, 1, step, 1) == None;
      PassesAdd(Some(s), maxDuration, 1, step, k, 1);
      if n < life {
        CountDown(s, maxDuration, 1, step, k, n);
      }
    } else {
      var t := z.(level := s.level - 1, duration := maxDuration - step);
      assert After(Some(z), maxDuration, 1, step) == Some(t);
      assert t.duration == (m - 1) * step;
      assert Passes(Some(z), maxDuration, 1, step, 1) == Some(t);
      PassesAdd(Some(s), maxDuration, 1, step, k, 1);
      assert Passes(Some(s), maxDuration, 1, step, k + 1) == Some(t);
      assert life == (k + 1) + Lifetime(t.level, m - 1, m);
      DecayLifetime(t, maxDuration, step, m - 1, m, Lifetime(t.level, m - 1, m));
      PassesAdd(Some(s), maxDuration, 1, step, k + 1, Lifetime(t.level, m - 1, m));
      if n < life {
        if n <= k {
          CountDown(s, maxDuration, 1, step, k, n);
        } else {
          DecayLifetime(t, maxDuration, step, m - 1, m, n - (k + 1));
          PassesAdd(Some(s), maxDuration, 1, step, k + 1, n - (k + 1));
        }
      }
    }
  }

  /** `q * step + r` is not 0 when `r` lies strictly between 0 and `step`. */
  lemma OffStepNonZero(q: int, step: int, r: int)
    requires 0 < r < step
    ensures q * step + r != 0
  {
    if q >= 0 {
      assert q * step >= 0;
    } else {
      assert q * step <= -step;
    }
  }

  /**
   * An instance whose duration is not a whole number of steps (`q` steps and
   * a remainder `r`) never reaches exactly 0, so it is never demoted or
   * removed: its level stays, and its duration falls by one step per pass
   * without bound.
   */
  lemma {:induction false} OffStepNeverExpires(s: RuntimeState, maxDuration: int, demotion: u32, step: int,
                                               q: int, r: int, n: nat)
    requires s.level > 0 && 0 < r < step && s.duration == q * step + r
    ensures Passes(Some(s), maxDuration, demotion, step, n) == Some(s.(duration := s.duration - n * step))
    decreases n
  {
    if n > 0 {
      OffStepNonZero(q, step, r);
      var t := s.(duration := s.duration - step);
      assert After(Some(s), maxDuration, demotion, step) == Some(t);
      assert t.duration == (q - 1) * step + r;
      OffStepNeverExpires(t, maxDuration, demotion, step, q - 1, r, n - 1);
      assert t.duration - (n - 1) * step == s.duration - n * step;
    }
  }
}
