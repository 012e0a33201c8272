/**
 * The static description of one effect kind (`BuffConfig`) and the enums it
 * uses. Durations are kept in integer milliseconds: the source's
 * `maxDuration = 5.0f` seconds is 5000 here and `frequency = 1.0f` is 1000.
 */
module BuffConfigs {
  import Common

  datatype BuffType = Buff | Debuff | None

  datatype BuffConflictResolution = Combine | Separate | Cover

  datatype BuffConfig = BuffConfig(
    id: int,
    buffType: BuffType,
    resolution: BuffConflictResolution,
    maxDuration: int,
    frequency: int,
    maxLevel: Common.u32,
    demotion: Common.u32,
    dispellable: bool)

  /**
   * The `BuffConfig` constructor: every argument lands in the field of the
   * same name; `id` is not an argument and keeps the C# default 0.
   */
  function NewBuffConfig(
    buffType: BuffType := BuffType.None,
    resolution: BuffConflictResolution := Cover,
    maxDuration: int := 5000,
    frequency: int := 1000,
    maxLevel: Common.u32 := 5,
    demotion: Common.u32 := 1,
    dispellable: bool := true): (c: BuffConfig)
    ensures c.id == 0
    ensures c.buffType == buffType && c.resolution == resolution
    ensures c.maxDuration == maxDuration && c.frequency == frequency
    ensures c.maxLevel == maxLevel && c.demotion == demotion
    ensures c.dispellable == dispellable
  {
    BuffConfig(0, buffType, resolution, maxDuration, frequency, maxLevel, demotion, dispellable)
  }

  /** The defaults of a `BuffConfig` built with no arguments. */
  lemma DefaultConfig()
    ensures NewBuffConfig().buffType == BuffType.None && NewBuffConfig().resolution == Cover
    ensures NewBuffConfig().maxDuration == 5000 && NewBuffConfig().frequency == 1000
    ensures NewBuffConfig().maxLevel == 5 && NewBuffConfig().demotion == 1
    ensures NewBuffConfig().dispellable
  {
  }
}
