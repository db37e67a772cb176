/** The state of one run: the towers unlocked, the global and per-kind
    modifiers the cards have granted, the enemy curses, the flags and the
    relics held. Multipliers are exact reals. */
module Runs {
  import opened Basics
  import opened CardAssets

  /** The value of one kind's modifiers. */
  datatype Mods = Mods(damage: real, range: real, attackSpeed: real, costReduction: int)

  /** A kind that has no modifiers yet behaves as these. */
  const DefaultMods := Mods(1.0, 1.0, 1.0, 0)

  /** The value of a whole run state. */
  datatype Run = Run(unlocked: seq<TowerRef>, globalDamage: real, extraGoldPerKill: int,
                     mods: map<TowerType, Mods>, enemySpeed: real, enemyHp: real,
                     skipNextBoss: bool, rerollsRemaining: int, bonusGridRows: int,
                     relics: seq<CardData>)

  /** The run a fresh run state stands for. */
  function FreshRun(rerollsPerDraw: int): (r: Run)
    ensures r.unlocked == [] && r.relics == [] && r.mods == map[]
    ensures r.globalDamage == 1.0 && r.enemySpeed == 1.0 && r.enemyHp == 1.0
    ensures r.extraGoldPerKill == 0 && r.bonusGridRows == 0 && !r.skipNextBoss
    ensures r.rerollsRemaining == rerollsPerDraw
  {
    Run([], 1.0, 0, map[], 1.0, 1.0, false, rerollsPerDraw, 0, [])
  }

  /** The modifiers a kind has in effect: its entry, or the defaults. */
  function ModsOf(r: Run, t: TowerType): Mods {
    if t in r.mods then r.mods[t] else DefaultMods
  }

  /** Get-or-create on values: the kind gets an entry, the defaults when it
      had none; every other entry stays as it was. */
  function Touch(r: Run, t: TowerType): (r': Run)
    ensures r'.mods.Keys == r.mods.Keys + {t}
    ensures r'.(mods := r.mods) == r
  {
    r.(mods := r.mods[t := ModsOf(r, t)])
  }

  /** Get-or-create changes no kind's modifiers in effect, and a second call
      changes nothing at all. */
  lemma TouchKeepsMods(r: Run, t: TowerType, k: TowerType)
    ensures ModsOf(Touch(r, t), k) == ModsOf(r, k)
    ensures Touch(Touch(r, t), t) == Touch(r, t)
    ensures t in r.mods ==> Touch(r, t) == r
  {
    if t in r.mods {
      assert r.mods[t := r.mods[t]] == r.mods;
    }
  }

  /** The modifiers of one tower kind. */
  class TowerModifiers {
    var damageMultiplier: real
    var rangeMultiplier: real
    var attackSpeedMultiplier: real
    var costReduction: int

    constructor ()
      ensures View() == DefaultMods
    {
      damageMultiplier := 1.0;
      rangeMultiplier := 1.0;
      attackSpeedMultiplier := 1.0;
      costReduction := 0;
    }

    function View(): Mods
      reads this
    {
      Mods(damageMultiplier, rangeMultiplier, attackSpeedMultiplier, costReduction)
    }
  }

  /** The value of a modifier table. */
  ghost function ModsView(table: map<TowerType, TowerModifiers>): (m: map<TowerType, Mods>)
    reads table.Values
    ensures m.Keys == table.Keys
  {
    map t | t in table :: table[t].View()
  }

  class RunState {
    var unlockedTowers: seq<TowerRef>
    var globalDamageMultiplier: real
    var extraGoldPerKill: int
    var towerMods: map<TowerType, TowerModifiers>
    var enemySpeedMultiplier: real
    var enemyHpMultiplier: real
    var skipNextBoss: bool
    var rerollsRemaining: int
    var bonusGridRows: int
    var activeRelics: seq<CardData>

    /** No two kinds share one modifiers object, and the unlock and relic
        lists hold no repeats. */
    ghost predicate Valid()
      reads this
    {
      (forall a, b | a in towerMods && b in towerMods && a != b :: towerMods[a] != towerMods[b])
      && Distinct(unlockedTowers)
      && Distinct(activeRelics)
    }

    /** The value of this run state. */
    ghost function Snapshot(): Run
      reads this, towerMods.Values
    {
      Run(unlockedTowers, globalDamageMultiplier, extraGoldPerKill,
          ModsView(towerMods),
          enemySpeedMultiplier, enemyHpMultiplier, skipNextBoss, rerollsRemaining,
          bonusGridRows, activeRelics)
    }

    /** A new run: multipliers 1, counters 0, no flags, empty lists and an
        empty modifier table; `rerollsPerDraw` is `Constants.CardRerollsPerDraw`. */
    constructor (rerollsPerDraw: int)
      ensures Valid() && Snapshot() == FreshRun(rerollsPerDraw)
    {
      unlockedTowers := [];
      globalDamageMultiplier := 1.0;
      extraGoldPerKill := 0;
      towerMods := map[];
      enemySpeedMultiplier := 1.0;
      enemyHpMultiplier := 1.0;
      skipNextBoss := false;
      rerollsRemaining := rerollsPerDraw;
      bonusGridRows := 0;
      activeRelics := [];
    }

    /** GetTowerMods: the kind's existing modifiers, or new default ones
        entered into the table. No other entry and no other field changes,
        so a second call finds the same object and the table does not grow. */
    method GetTowerMods(t: TowerType) returns (mods: TowerModifiers)
      requires Valid()
      modifies this
      ensures Valid() && Snapshot() == Touch(old(Snapshot()), t)
      ensures forall o | o in towerMods.Values :: o in old(towerMods.Values) || fresh(o)
      ensures t in old(towerMods) ==> towerMods == old(towerMods) && mods == old(towerMods[t])
      ensures t !in old(towerMods) ==> fresh(mods) && towerMods == old(towerMods)[t := mods] && mods.View() == DefaultMods
      ensures unlockedTowers == old(unlockedTowers) && activeRelics == old(activeRelics)
      ensures globalDamageMultiplier == old(globalDamageMultiplier) && extraGoldPerKill == old(extraGoldPerKill)
      ensures enemySpeedMultiplier == old(enemySpeedMultiplier) && enemyHpMultiplier == old(enemyHpMultiplier)
      ensures skipNextBoss == old(skipNextBoss) && rerollsRemaining == old(rerollsRemaining)
      ensures bonusGridRows == old(bonusGridRows)
    {
      ghost var r0 := Snapshot();
      TouchKeepsMods(r0, t, t);
      if t in towerMods {
        mods := towerMods[t];
      } else {
        ghost var table := ModsView(towerMods);
        mods := new TowerModifiers();
        towerMods := towerMods[t := mods];
        assert ModsView(towerMods) == table[t := DefaultMods];
      }
    }
  }
}
