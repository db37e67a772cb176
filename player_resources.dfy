/** The player's purse: gold and the kill count. */
module Economy {
  import opened Basics

  /** The purse. Gold changes through spending, kill rewards and refunds; each
      change reports the new balance (the `OnGoldChanged` notification). */
  class PlayerResources {
    var gold: int
    var killCount: int

    /** Awake: gold starts at the configured starting gold (100 in the game
        asset), the kill count at zero. */
    constructor (startingGold: int)
      ensures gold == startingGold && killCount == 0
    {
      gold := startingGold;
      killCount := 0;
    }

    /** The balance never goes negative, given a non-negative start, since
        spending only happens when the balance covers the amount and rewards
        and refunds are non-negative. */
    predicate Solvent()
      reads this
    {
      gold >= 0 && killCount >= 0
    }

    /** TrySpend: refuses an amount larger than the balance and changes
        nothing; otherwise deducts exactly that amount. A successful spend
        leaves a non-negative balance whatever the balance was before. */
    method TrySpend(amount: int) returns (ok: bool, goldChanged: Option<int>)
      modifies this
      ensures (ok, gold) == Spend(old(gold), amount)
      ensures goldChanged == if ok then Some(gold) else None
      ensures killCount == old(killCount)
    {
      if gold < amount {
        return false, None;
      }
      gold := gold - amount;
      return true, Some(gold);
    }

    /** HandleEnemyKilled: the enemy's reward is added and the kill count rises
        by one; both new values are reported. */
    method HandleEnemyKilled(rewardGold: nat) returns (goldChanged: int, killsChanged: int)
      modifies this
      ensures gold == old(gold) + rewardGold && killCount == old(killCount) + 1
      ensures goldChanged == gold && killsChanged == killCount
      ensures old(Solvent()) ==> Solvent()
    {
      gold := gold + rewardGold;
      killCount := killCount + 1;
      return gold, killCount;
    }

    /** AddGold (declared outside this file): a plain addition. */
    method AddGold(amount: nat) returns (goldChanged: int)
      modifies this
      ensures gold == old(gold) + amount && killCount == old(killCount)
      ensures goldChanged == gold
      ensures old(Solvent()) ==> Solvent()
    {
      gold := gold + amount;
      return gold;
    }
  }

  /** The outcome of a spend on a balance, as a value: whether it succeeded and
      the balance afterwards. */
  function Spend(gold: int, amount: int): (r: (bool, int))
    ensures r.0 <==> gold >= amount
    ensures r.0 ==> r.1 >= 0 && r.1 + amount == gold
    ensures !r.0 ==> r.1 == gold
  {
    if gold < amount then (false, gold) else (true, gold - amount)
  }
}
