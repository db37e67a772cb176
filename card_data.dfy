/** The data assets of the card system: cards, their effects and the tower
    kinds they refer to. */
module CardAssets {
  import opened Basics

  /** A tower kind (the tower-type enumeration). */
  datatype TowerType = TowerType(code: nat)

  /** A tower asset a card can unlock, by identity. */
  datatype TowerRef = TowerRef(id: nat)

  datatype CardEffectType =
    | UnlockTower
    | TowerDamagePercent
    | TowerRangePercent
    | TowerAttackSpeedPercent
    | TowerCostFlat
    | GlobalDamagePercent
    | GlobalGoldPerKill
    | BonusLives
    | AddGridRow
    | RelicPassive
    | EnemySpeedPercent
    | EnemyHpPercent
    | SkipNextBoss

  /** One effect of a card: its kind, its number, and the tower asset or
      tower kind it targets (None stands for a missing asset). */
  datatype CardEffect = CardEffect(effectType: CardEffectType, value: real,
                                   targetTower: Option<TowerRef>, targetTowerType: TowerType)

  /** A card asset. Two cards are the same card exactly when they are equal
      values, standing for reference identity of the assets. */
  datatype CardData = CardData(id: nat, weight: int, effects: seq<CardEffect>)

  /** C#'s `(int)` conversion of a number: truncation toward zero. */
  function TruncateToInt(v: real): (n: int)
    ensures v >= 0.0 ==> n as real <= v < n as real + 1.0
    ensures v < 0.0 ==> n as real - 1.0 < v <= n as real
  {
    if v >= 0.0 then v.Floor else -((-v).Floor)
  }
}
