/**
 * The stat tables of `EntityDataComponent`: the core stats
 * (`_coreData`) and the bonus stats (`_bonusData`), each a dictionary that
 * may not exist yet. Values are `double`s that are only stored and read
 * back, so they are modelled as reals.
 */
module EntityData {
  import opened Common

  /** `EntityBaseDataCore`. */
  datatype CoreStat =
    HpLimit | CrtHp | MpLimit | CrtMp | AtkAD | AtkAP | DefenceAD | DefenceAP |
    AtkSpeed | SkillCd | CriticalRate | MoveSpeed

  /** `EntityBaseData`. */
  datatype BonusStat =
    HpRecoverPerSecond | MpRecoverPerSecond | PenAD | PenAP | LifeSteal | OmniVamp |
    AtkDistance | CriticalDamage | Resilience

  /** A stat table that is either not created yet (`None`, the C# null) or a dictionary. */
  type Table<K> = Option<map<K, real>>

  const DefaultCore: map<CoreStat, real> := map[
    HpLimit := 1000.0, CrtHp := 1000.0, MpLimit := 200.0, CrtMp := 200.0,
    AtkAD := 100.0, AtkAP := 50.0, DefenceAD := 50.0, DefenceAP := 30.0,
    AtkSpeed := 1.0, SkillCd := 1.0, CriticalRate := 0.05, MoveSpeed := 3.5]

  const DefaultBonus: map<BonusStat, real> := map[
    HpRecoverPerSecond := 5.0, MpRecoverPerSecond := 2.0, PenAD := 0.0, PenAP := 0.0,
    LifeSteal := 0.0, OmniVamp := 0.0, AtkDistance := 1.5, CriticalDamage := 1.5,
    Resilience := 0.0]

  /** The core defaults name all 12 core stats. */
  lemma CoreDefaultsComplete()
    ensures forall s: CoreStat :: s in DefaultCore
  {
    forall s: CoreStat ensures s in DefaultCore {
      match s
      case HpLimit => case CrtHp => case MpLimit => case CrtMp => case AtkAD => case AtkAP =>
      case DefenceAD => case DefenceAP => case AtkSpeed => case SkillCd => case CriticalRate => case MoveSpeed =>
    }
  }

  /** The bonus defaults name all 9 bonus stats. */
  lemma BonusDefaultsComplete()
    ensures forall s: BonusStat :: s in DefaultBonus
  {
    forall s: BonusStat ensures s in DefaultBonus {
      match s
      case HpRecoverPerSecond => case MpRecoverPerSecond => case PenAD => case PenAP => case LifeSteal =>
      case OmniVamp => case AtkDistance => case CriticalDamage => case Resilience =>
    }
  }

  /** The twelve core stats, counted. */
  lemma CoreStatCount()
    ensures |{HpLimit, CrtHp, MpLimit, CrtMp, AtkAD, AtkAP, DefenceAD, DefenceAP,
              AtkSpeed, SkillCd, CriticalRate, MoveSpeed}| == 12
  {
    var a: set<CoreStat> := {HpLimit, CrtHp, MpLimit};
    var b: set<CoreStat> := {CrtMp, AtkAD, AtkAP};
    var c: set<CoreStat> := {DefenceAD, DefenceAP, AtkSpeed};
    var d: set<CoreStat> := {SkillCd, CriticalRate, MoveSpeed};
    assert |a| == 3 && |b| == 3 && |c| == 3 && |d| == 3;
    assert |a + b| == 6 by { assert a * b == {}; }
    assert |c + d| == 6 by { assert c * d == {}; }
    assert (a + b) * (c + d) == {};
    assert a + b + (c + d) == {HpLimit, CrtHp, MpLimit, CrtMp, AtkAD, AtkAP, DefenceAD, DefenceAP,
                               AtkSpeed, SkillCd, CriticalRate, MoveSpeed};
  }

  /** The nine bonus stats, counted. */
  lemma BonusStatCount()
    ensures |{HpRecoverPerSecond, MpRecoverPerSecond, PenAD, PenAP, LifeSteal,
              OmniVamp, AtkDistance, CriticalDamage, Resilience}| == 9
  {
    var first: set<BonusStat> := {HpRecoverPerSecond, MpRecoverPerSecond, PenAD, PenAP, LifeSteal};
    assert |first| == 5 by {
      assert |{HpRecoverPerSecond, MpRecoverPerSecond, PenAD}| == 3;
      assert first == {HpRecoverPerSecond, MpRecoverPerSecond, PenAD} + {PenAP} + {LifeSteal};
    }
    var second: set<BonusStat> := {OmniVamp, AtkDistance, CriticalDamage, Resilience};
    assert |second| == 4 by {
      assert second == {OmniVamp, AtkDistance} + {CriticalDamage} + {Resilience};
    }
    assert first * second == {};
    assert first + second == {HpRecoverPerSecond, MpRecoverPerSecond, PenAD, PenAP, LifeSteal,
                              OmniVamp, AtkDistance, CriticalDamage, Resilience};
  }

  /** `InitializeDefaults` creates exactly 12 core keys and 9 bonus keys. */
  lemma DefaultsSize()
    ensures |DefaultCore| == 12 && |DefaultBonus| == 9
  {
    CoreStatCount();
    BonusStatCount();
  }

  /** The current values start at their limits. */
  lemma DefaultsFull()
    ensures DefaultCore[CrtHp] == DefaultCore[HpLimit] == 1000.0
    ensures DefaultCore[CrtMp] == DefaultCore[MpLimit] == 200.0
  {
  }

  /** `GetData`: 0 for a table that does not exist, and `GetValueOrDefault` (0 for a missing key) otherwise. */
  function Lookup<K>(t: Table<K>, k: K): (r: real)
    ensures t.None? ==> r == 0.0
    ensures t.Some? && k !in t.value ==> r == 0.0
    ensures t.Some? && k in t.value ==> r == t.value[k]
  {
    if t.None? then 0.0 else if k in t.value then t.value[k] else 0.0
  }

  /** `SetData`: the table is created empty if needed, then the key is written. */
  function Stored<K>(t: Table<K>, k: K, v: real): (r: Table<K>)
    ensures r.Some? && k in r.value
  {
    var m := if t.None? then map[] else t.value;
    Some(m[k := v])
  }

  /** `GetCoreData`/`GetBonusData`: the table, or an empty one when it does not exist. */
  function View<K>(t: Table<K>): map<K, real>
  {
    if t.None? then map[] else t.value
  }

  /** A write reads back on its key and changes no other key. */
  lemma StoredLookup<K>(t: Table<K>, k: K, v: real, j: K)
    ensures Lookup(Stored(t, k, v), j) == if j == k then v else Lookup(t, j)
  {
  }

  /** A write into a table that does not exist creates one holding only that key. */
  lemma StoredFresh<K>(k: K, v: real)
    ensures Stored(None, k, v) == Some(map[k := v])
  {
  }

  /** The two ways of reading agree: `GetData` is the viewed table's entry, or 0 when the view lacks the key. */
  lemma LookupView<K>(t: Table<K>, k: K)
    ensures Lookup(t, k) == if k in View(t) then View(t)[k] else 0.0
  {
  }

  class EntityDataComponent {
    /** `_coreData`. */
    var core: Table<CoreStat>
    /** `_bonusData`. */
    var bonus: Table<BonusStat>

    /** The component as `default(EntityDataComponent)` leaves it: neither table exists. */
    constructor ()
      ensures core == None && bonus == None
    {
      core := None;
      bonus := None;
    }

    /** `InitializeDefaults()`: both tables are replaced by fresh tables of the default values. */
    method InitializeDefaults()
      modifies this
      ensures core == Some(DefaultCore) && bonus == Some(DefaultBonus)
    {
      core := Some(DefaultCore);
      bonus := Some(DefaultBonus);
    }

    /** `GetData(EntityBaseDataCore)`: 0 without a core table or for a key it lacks. */
    function GetCore(k: CoreStat): (r: real)
      reads this
      ensures core.None? || k !in core.value ==> r == 0.0
      ensures core.Some? && k in core.value ==> r == core.value[k]
    {
      Lookup(core, k)
    }

    /** `GetData(EntityBaseData)`: 0 without a bonus table or for a key it lacks. */
    function GetBonus(k: BonusStat): (r: real)
      reads this
      ensures bonus.None? || k !in bonus.value ==> r == 0.0
      ensures bonus.Some? && k in bonus.value ==> r == bonus.value[k]
    {
      Lookup(bonus, k)
    }

    /** `GetCoreData()`: empty without a core table; every key it shows reads back through `GetData`. */
    function GetCoreData(): (r: map<CoreStat, real>)
      reads this
      ensures core.None? ==> r == map[]
      ensures core.Some? ==> r.Keys == core.value.Keys
      ensures forall k :: k in r ==> r[k] == GetCore(k)
    {
      View(core)
    }

    /** `GetBonusData()`: empty without a bonus table; every key it shows reads back through `GetData`. */
    function GetBonusData(): (r: map<BonusStat, real>)
      reads this
      ensures bonus.None? ==> r == map[]
      ensures bonus.Some? ==> r.Keys == bonus.value.Keys
      ensures forall k :: k in r ==> r[k] == GetBonus(k)
    {
      View(bonus)
    }

    /** `SetData(EntityBaseDataCore, value)`. */
    method SetCore(k: CoreStat, v: real)
      modifies this`core
      ensures core == Stored(old(core), k, v)
      ensures GetCore(k) == v && forall j :: j != k ==> GetCore(j) == old(GetCore(j))
    {
      if core.None? {
        core := Some(map[]);
      }
      core := Some(core.value[k := v]);
      forall j ensures GetCore(j) == if j == k then v else old(GetCore(j)) {
        StoredLookup(old(core), k, v, j);
      }
    }

    /** `SetData(EntityBaseData, value)`. */
    method SetBonus(k: BonusStat, v: real)
      modifies this`bonus
      ensures bonus == Stored(old(bonus), k, v)
      ensures GetBonus(k) == v && forall j :: j != k ==> GetBonus(j) == old(GetBonus(j))
    {
      if bonus.None? {
        bonus := Some(map[]);
      }
      bonus := Some(bonus.value[k := v]);
      forall j ensures GetBonus(j) == if j == k then v else old(GetBonus(j)) {
        StoredLookup(old(bonus), k, v, j);
      }
    }
  }
}
