/** Applying a chosen card: each of its effects in order changes the run
    state, then the card is taken out of the pool for the rest of the run. */
module CardEffects {
  import opened Basics
  import opened CardAssets
  import opened Runs
  import opened CardPool

  /** `1f + value` as a factor. */
  function Factor(v: real): real {
    1.0 + v
  }

  /** What a per-kind effect does to its kind's modifiers: scale one
      multiplier by `1 + value`, or add `(int)value` to the cost reduction. */
  function KindUpdate(m: Mods, e: CardEffect): Mods {
    match e.effectType
    case TowerDamagePercent => m.(damage := m.damage * Factor(e.value))
    case TowerRangePercent => m.(range := m.range * Factor(e.value))
    case TowerAttackSpeedPercent => m.(attackSpeed := m.attackSpeed * Factor(e.value))
    case _ => m.(costReduction := m.costReduction + TruncateToInt(e.value))
  }

  /** The effects that act on one tower kind's modifiers. */
  predicate IsKindEffect(e: CardEffect) {
    e.effectType.TowerDamagePercent? || e.effectType.TowerRangePercent?
    || e.effectType.TowerAttackSpeedPercent? || e.effectType.TowerCostFlat?
  }

  /** A per-kind effect on the run: only its kind's entry changes, and the
      entry is created with the defaults first when it is missing. */
  function KindEffect(r: Run, e: CardEffect): Run {
    r.(mods := r.mods[e.targetTowerType := KindUpdate(ModsOf(r, e.targetTowerType), e)])
  }

  /** A per-kind effect is get-or-create followed by the update of the
      entry found. */
  lemma KindEffectAfterTouch(r: Run, e: CardEffect)
    ensures var t := e.targetTowerType; var s := Touch(r, t);
      KindEffect(r, e) == s.(mods := s.mods[t := KindUpdate(s.mods[t], e)])
  {
    var t := e.targetTowerType;
    var v := KindUpdate(ModsOf(r, t), e);
    assert Touch(r, t).mods[t := v] == r.mods[t := v];
  }

  /** ApplyEffect on the value of the run. Lives are granted elsewhere (see
      LifeGrant), so a bonus-lives effect leaves the run as it is. */
  function Effect(r: Run, e: CardEffect, card: CardData): Run
  {
    match e.effectType
    case UnlockTower =>
      if e.targetTower.Some? && e.targetTower.value !in r.unlocked
      then r.(unlocked := r.unlocked + [e.targetTower.value])
      else r
    case TowerDamagePercent => KindEffect(r, e)
    case TowerRangePercent => KindEffect(r, e)
    case TowerAttackSpeedPercent => KindEffect(r, e)
    case TowerCostFlat => KindEffect(r, e)
    case GlobalDamagePercent => r.(globalDamage := r.globalDamage * Factor(e.value))
    case GlobalGoldPerKill => r.(extraGoldPerKill := r.extraGoldPerKill + TruncateToInt(e.value))
    case BonusLives => r
    case AddGridRow => r.(bonusGridRows := r.bonusGridRows + TruncateToInt(e.value))
    case RelicPassive => if card !in r.relics then r.(relics := r.relics + [card]) else r
    case EnemySpeedPercent => r.(enemySpeed := r.enemySpeed * Factor(e.value))
    case EnemyHpPercent => r.(enemyHp := r.enemyHp * Factor(e.value))
    case SkipNextBoss => r.(skipNextBoss := true)
  }

  /** An unlock adds its target, a relic effect adds the card, each only when
      it is missing, and no other effect touches the two lists; so neither
      list ever gains a repeat. */
  lemma EffectLists(r: Run, e: CardEffect, card: CardData)
    ensures var r' := Effect(r, e, card);
      (Distinct(r.unlocked) ==> Distinct(r'.unlocked))
      && (Distinct(r.relics) ==> Distinct(r'.relics))
      && (forall x :: x in r'.unlocked <==> x in r.unlocked || (e.effectType == UnlockTower && e.targetTower == Some(x)))
      && (forall c :: c in r'.relics <==> c in r.relics || (e.effectType == RelicPassive && c == card))
  {
  }

  /** The lives an effect grants: `(int)Value` for a bonus-lives effect. */
  function LifeGrant(e: CardEffect): (n: int)
    ensures e.effectType != BonusLives ==> n == 0
    ensures e.effectType == BonusLives && e.value >= 0.0 ==> n as real <= e.value < n as real + 1.0
  {
    if e.effectType == BonusLives then TruncateToInt(e.value) else 0
  }

  /** The effects of a card applied in list order. */
  function Effects(r: Run, effects: seq<CardEffect>, card: CardData): Run
  {
    if effects == [] then r
    else Effect(Effects(r, effects[..|effects| - 1], card), effects[|effects| - 1], card)
  }

  /** A card never puts a repeat into the unlock or relic list. */
  lemma {:induction false} EffectsKeepListsDistinct(r: Run, effects: seq<CardEffect>, card: CardData)
    ensures Distinct(r.unlocked) ==> Distinct(Effects(r, effects, card).unlocked)
    ensures Distinct(r.relics) ==> Distinct(Effects(r, effects, card).relics)
  {
    if effects != [] {
      var n := |effects| - 1;
      EffectsKeepListsDistinct(r, effects[..n], card);
      EffectLists(Effects(r, effects[..n], card), effects[n], card);
    }
  }

  /** The lives granted by each effect, in order. */
  function LifeGrants(effects: seq<CardEffect>): (g: seq<int>)
    ensures |g| == |effects| && forall k | 0 <= k < |g| :: g[k] == LifeGrant(effects[k])
  {
    seq(|effects|, k requires 0 <= k < |effects| => LifeGrant(effects[k]))
  }

  /** Applying two lists of effects one after the other is applying their
      concatenation. */
  lemma {:induction false} EffectsAppend(r: Run, a: seq<CardEffect>, b: seq<CardEffect>, card: CardData)
    ensures Effects(r, a + b, card) == Effects(Effects(r, a, card), b, card)
  {
    if b == [] {
      assert a + b == a;
    } else {
      assert (a + b)[..|a + b| - 1] == a + b[..|b| - 1];
      EffectsAppend(r, a, b[..|b| - 1], card);
    }
  }

  /** An unlock effect naming `x`. */
  predicate Unlocks(e: CardEffect, x: TowerRef) {
    e.effectType == UnlockTower && e.targetTower == Some(x)
  }

  /** A tower once unlocked stays unlocked, every unlock effect with a
      target leaves its target unlocked, and nothing else gets unlocked. */
  lemma {:induction false} EffectsUnlock(r: Run, effects: seq<CardEffect>, card: CardData, x: TowerRef)
    ensures x in Effects(r, effects, card).unlocked <==>
      x in r.unlocked || exists e | e in effects :: Unlocks(e, x)
  {
    if effects != [] {
      var n := |effects| - 1;
      var before := Effects(r, effects[..n], card);
      EffectsUnlock(r, effects[..n], card, x);
      EffectLists(before, effects[n], card);
      assert effects == effects[..n] + [effects[n]];
      assert (exists e | e in effects :: Unlocks(e, x))
         <==> (exists e | e in effects[..n] :: Unlocks(e, x)) || Unlocks(effects[n], x);
    }
  }

  /** Unlocking, taking a relic and skipping the next boss are idempotent:
      the same effect a second time changes nothing. */
  lemma RepeatIsIdempotent(r: Run, e: CardEffect, card: CardData)
    requires e.effectType == UnlockTower || e.effectType == RelicPassive || e.effectType == SkipNextBoss
    ensures Effect(Effect(r, e, card), e, card) == Effect(r, e, card)
    ensures e.effectType == SkipNextBoss ==> Effect(r, e, card).skipNextBoss
  {
  }

  /** The integer effects add `(int)Value` to their own counter and change
      nothing else; the flat cost reduction does so for its kind only. */
  lemma IntegerEffectsAreLocal(r: Run, e: CardEffect, card: CardData)
    ensures e.effectType == GlobalGoldPerKill ==>
      Effect(r, e, card).extraGoldPerKill == r.extraGoldPerKill + TruncateToInt(e.value)
      && Effect(r, e, card).(extraGoldPerKill := r.extraGoldPerKill) == r
    ensures e.effectType == AddGridRow ==>
      Effect(r, e, card).bonusGridRows == r.bonusGridRows + TruncateToInt(e.value)
      && Effect(r, e, card).(bonusGridRows := r.bonusGridRows) == r
    ensures e.effectType == TowerCostFlat ==>
      var t := e.targetTowerType;
      var r' := Effect(r, e, card);
      ModsOf(r', t).costReduction == ModsOf(r, t).costReduction + TruncateToInt(e.value)
      && ModsOf(r', t).(costReduction := ModsOf(r, t).costReduction) == ModsOf(r, t)
      && (forall k | k != t :: ModsOf(r', k) == ModsOf(r, k))
      && r'.(mods := r.mods) == r
  {
  }

  /** No effect but a cost reduction changes what a tower costs to build,
      and no effect touches the kinds it does not target. */
  lemma EffectTouchesOneKind(r: Run, e: CardEffect, card: CardData, k: TowerType)
    requires k != e.targetTowerType
    ensures ModsOf(Effect(r, e, card), k) == ModsOf(r, k)
  {
  }

  class CardEffectApplier {
    const cardPool: CardPoolManager

    constructor (cardPool: CardPoolManager)
      ensures this.cardPool == cardPool
    {
      this.cardPool := cardPool;
    }

    /** Apply: every effect in list order, then the card is marked taken in
        the pool, once. The result lists the lives each effect grants, in
        order, for the caller to add, and the card announced as applied
        (the notification that lets the phase machine leave the reward
        phase). */
    method Apply(card: CardData, run: RunState) returns (lifeGrants: seq<int>, applied: CardData)
      requires run.Valid()
      modifies run, run.towerMods.Values, cardPool
      ensures run.Valid()
      ensures run.Snapshot() == Effects(old(run.Snapshot()), card.effects, card)
      ensures lifeGrants == LifeGrants(card.effects)
      ensures cardPool.drawnThisRun == old(cardPool.drawnThisRun) + {card}
      ensures applied == card && applied in cardPool.drawnThisRun
    {
      lifeGrants := ApplyEffects(card, run);
      ghost var final := run.Snapshot();
      cardPool.MarkPicked(card);
      assert run.Snapshot() == final;
      applied := card;
    }

    /** The effect loop of Apply: every effect of the card, in list order. */
    method ApplyEffects(card: CardData, run: RunState) returns (lifeGrants: seq<int>)
      requires run.Valid()
      modifies run, run.towerMods.Values
      ensures run.Valid()
      ensures run.Snapshot() == Effects(old(run.Snapshot()), card.effects, card)
      ensures lifeGrants == LifeGrants(card.effects)
    {
      lifeGrants := [];
      for i := 0 to |card.effects|
        invariant run.Valid()
        invariant run.Snapshot() == Effects(old(run.Snapshot()), card.effects[..i], card)
        invariant lifeGrants == LifeGrants(card.effects[..i])
        invariant forall o | o in run.towerMods.Values :: o in old(run.towerMods.Values) || fresh(o)
      {
        var lives := ApplyEffect(card.effects[i], run, card);
        lifeGrants := lifeGrants + [lives];
        assert card.effects[..i + 1][..i] == card.effects[..i];
      }
      assert card.effects[..|card.effects|] == card.effects;
    }

    /** ApplyEffect: one effect on the run state. */
    method ApplyEffect(effect: CardEffect, run: RunState, card: CardData) returns (livesGranted: int)
      requires run.Valid()
      modifies run, run.towerMods.Values
      ensures run.Valid()
      ensures run.Snapshot() == Effect(old(run.Snapshot()), effect, card)
      ensures livesGranted == LifeGrant(effect)
      ensures forall o | o in run.towerMods.Values :: o in old(run.towerMods.Values) || fresh(o)
    {
      livesGranted := 0;
      if IsKindEffect(effect) {
        ApplyTowerEffect(effect, run);
      } else {
        livesGranted := ApplyRunEffect(effect, run, card);
      }
    }

    /** The cases of ApplyEffect that change the run state's own fields. */
    method ApplyRunEffect(effect: CardEffect, run: RunState, card: CardData) returns (livesGranted: int)
      requires run.Valid() && !IsKindEffect(effect)
      modifies run
      ensures run.Valid()
      ensures run.Snapshot() == Effect(old(run.Snapshot()), effect, card)
      ensures livesGranted == LifeGrant(effect)
      ensures run.towerMods == old(run.towerMods)
    {
      ghost var mv := ModsView(run.towerMods);
      livesGranted := 0;
      match effect.effectType {
      case UnlockTower =>
        if effect.targetTower.Some? && effect.targetTower.value !in run.unlockedTowers {
          run.unlockedTowers := run.unlockedTowers + [effect.targetTower.value];
        }
      case GlobalDamagePercent =>
        run.globalDamageMultiplier := run.globalDamageMultiplier * Factor(effect.value);
      case GlobalGoldPerKill =>
        run.extraGoldPerKill := run.extraGoldPerKill + TruncateToInt(effect.value);
      case BonusLives =>
        livesGranted := TruncateToInt(effect.value);
      case AddGridRow =>
        run.bonusGridRows := run.bonusGridRows + TruncateToInt(effect.value);
      case RelicPassive =>
        if card !in run.activeRelics {
          run.activeRelics := run.activeRelics + [card];
        }
      case EnemySpeedPercent =>
        run.enemySpeedMultiplier := run.enemySpeedMultiplier * Factor(effect.value);
      case EnemyHpPercent =>
        run.enemyHpMultiplier := run.enemyHpMultiplier * Factor(effect.value);
      case SkipNextBoss =>
        run.skipNextBoss := true;
      case TowerDamagePercent =>
      case TowerRangePercent =>
      case TowerAttackSpeedPercent =>
      case TowerCostFlat =>
      }
      assert ModsView(run.towerMods) == mv;
    }

    /** The four per-kind cases of ApplyEffect: fetch or create the target
        kind's modifiers and change one of its fields. */
    method ApplyTowerEffect(effect: CardEffect, run: RunState)
      requires run.Valid()
      requires IsKindEffect(effect)
      modifies run, run.towerMods.Values
      ensures run.Valid()
      ensures run.Snapshot() == KindEffect(old(run.Snapshot()), effect)
      ensures forall o | o in run.towerMods.Values :: o in old(run.towerMods.Values) || fresh(o)
    {
      var t := effect.targetTowerType;
      var mods := run.GetTowerMods(t);
      ghost var s1 := run.Snapshot();
      ghost var table := ModsView(run.towerMods);
      ghost var before := mods.View();
      assert table[t] == before;
      WriteKind(effect, mods);
      forall k | k in run.towerMods
        ensures ModsView(run.towerMods)[k] == table[t := mods.View()][k]
      {
        if k != t {
          assert run.towerMods[k] != mods;
        }
      }
      assert ModsView(run.towerMods) == table[t := mods.View()];
      assert run.Snapshot() == s1.(mods := s1.mods[t := mods.View()]);
      ghost var r0 := old(run.Snapshot());
      assert s1 == Touch(r0, t) && before == ModsOf(r0, t);
      KindEffectAfterTouch(r0, effect);
    }

    /** The field write of ApplyTowerEffect: one field of the kind's
        modifiers changes as the effect says. */
    method WriteKind(effect: CardEffect, mods: TowerModifiers)
      modifies mods
      ensures mods.View() == KindUpdate(old(mods.View()), effect)
    {
      if effect.effectType == TowerDamagePercent {
        mods.damageMultiplier := mods.damageMultiplier * Factor(effect.value);
      } else if effect.effectType == TowerRangePercent {
        mods.rangeMultiplier := mods.rangeMultiplier * Factor(effect.value);
      } else if effect.effectType == TowerAttackSpeedPercent {
        mods.attackSpeedMultiplier := mods.attackSpeedMultiplier * Factor(effect.value);
      } else {
        mods.costReduction := mods.costReduction + TruncateToInt(effect.value);
      }
    }
  }
}
