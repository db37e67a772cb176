/** The card pool: weighted draws without replacement from the cards not yet
    taken this run. */
module CardPool {
  import opened Basics
  import opened CardAssets
  import opened Waves

  /** A card passes both exclusion sets. */
  predicate Keeps(exclude: set<CardData>, alsoExclude: Option<set<CardData>>, c: CardData) {
    c !in exclude && (alsoExclude.None? || c !in alsoExclude.value)
  }

  /** The cards a draw chooses from, in pool order. */
  function Eligible(cards: seq<CardData>, exclude: set<CardData>, alsoExclude: Option<set<CardData>>): (r: seq<CardData>)
    ensures |r| <= |cards|
  {
    if cards == [] then []
    else (if Keeps(exclude, alsoExclude, cards[0]) then [cards[0]] else []) + Eligible(cards[1..], exclude, alsoExclude)
  }

  /** One step of the eligible-list loop: the list built so far, followed by
      the eligible cards from index j on. */
  lemma EligibleStep(cards: seq<CardData>, exclude: set<CardData>, alsoExclude: Option<set<CardData>>,
                     acc: seq<CardData>, j: nat)
    requires j < |cards|
    ensures acc + Eligible(cards[j..], exclude, alsoExclude)
            == (if Keeps(exclude, alsoExclude, cards[j]) then acc + [cards[j]] else acc)
               + Eligible(cards[j + 1..], exclude, alsoExclude)
  {
    assert cards[j..][1..] == cards[j + 1..] && cards[j..][0] == cards[j];
    var tail := Eligible(cards[j + 1..], exclude, alsoExclude);
    assert (acc + [cards[j]]) + tail == acc + ([cards[j]] + tail);
  }

  /** The eligible cards are exactly the pool's cards that pass both
      exclusions, and a pool without repeats gives a list without repeats. */
  lemma {:induction false} EligibleMembers(cards: seq<CardData>, exclude: set<CardData>, alsoExclude: Option<set<CardData>>)
    ensures forall c :: c in Eligible(cards, exclude, alsoExclude) <==> c in cards && Keeps(exclude, alsoExclude, c)
    ensures Distinct(cards) ==> Distinct(Eligible(cards, exclude, alsoExclude))
  {
    if cards != [] {
      EligibleMembers(cards[1..], exclude, alsoExclude);
      assert forall c :: c in cards <==> c == cards[0] || c in cards[1..];
      if Distinct(cards) {
        assert cards[0] !in cards[1..];
        assert Distinct(cards[1..]) by {
          forall a, b | 0 <= a < b < |cards[1..]| ensures cards[1..][a] != cards[1..][b] {
            assert cards[1..][a] == cards[a + 1] && cards[1..][b] == cards[b + 1];
          }
        }
      }
    }
  }

  /** The summed weight of the cards not yet picked in this draw. */
  function TotalWeight(cards: seq<CardData>, picked: set<CardData>): (w: int)
    ensures (forall c | c in cards :: c.weight >= 0) ==> w >= 0
  {
    if cards == [] then 0
    else (if cards[0] in picked then 0 else cards[0].weight) + TotalWeight(cards[1..], picked)
  }

  /** The first unpicked card whose running weight exceeds the roll. */
  function PickFrom(cards: seq<CardData>, picked: set<CardData>, roll: int): (r: Option<CardData>)
    ensures r.Some? ==> r.value in cards && r.value !in picked
  {
    if cards == [] then None
    else if cards[0] in picked then PickFrom(cards[1..], picked, roll)
    else if roll < cards[0].weight then Some(cards[0])
    else PickFrom(cards[1..], picked, roll - cards[0].weight)
  }

  /** One step of PickFrom on the suffix of `cards` from index j, with the
      running weight `cumulative` of the cards before it. */
  lemma PickStep(cards: seq<CardData>, picked: set<CardData>, roll: int, cumulative: int, j: nat)
    requires j < |cards|
    ensures cards[j] in picked ==>
      PickFrom(cards[j..], picked, roll - cumulative) == PickFrom(cards[j + 1..], picked, roll - cumulative)
    ensures cards[j] !in picked && roll < cumulative + cards[j].weight ==>
      PickFrom(cards[j..], picked, roll - cumulative) == Some(cards[j])
    ensures cards[j] !in picked && roll >= cumulative + cards[j].weight ==>
      PickFrom(cards[j..], picked, roll - cumulative)
      == PickFrom(cards[j + 1..], picked, roll - (cumulative + cards[j].weight))
  {
    assert cards[j..][1..] == cards[j + 1..] && cards[j..][0] == cards[j];
  }

  /** `Random.Range(0, n)` for the entropy value e: some value in [0, n), and
      0 when the range is empty. */
  function RandomRange(n: int, e: nat): (r: int)
    ensures n > 0 ==> 0 <= r < n
    ensures n <= 0 ==> r == 0
  {
    if n <= 0 then 0 else e % n
  }

  /** Slots i .. take - 1 of a draw from `el`, given the cards picked so far
      and the entropy of each slot. A slot whose search finds no card stays
      empty (a null entry). */
  function Draws(el: seq<CardData>, picked: set<CardData>, entropy: nat -> nat, i: nat, take: nat): (r: seq<Option<CardData>>)
    ensures |r| == if i <= take then take - i else 0
    decreases take - i
  {
    if i >= take then []
    else
      var p := PickFrom(el, picked, RandomRange(TotalWeight(el, picked), entropy(i)));
      [p] + Draws(el, if p.Some? then picked + {p.value} else picked, entropy, i + 1, take)
  }

  /** Every filled slot holds a card of `el` not in `picked`, and no card
      fills two slots. */
  predicate SoundSlots(r: seq<Option<CardData>>, el: seq<CardData>, picked: set<CardData>) {
    (forall k | 0 <= k < |r| && r[k].Some? :: r[k].value in el && r[k].value !in picked)
    && (forall k, l | 0 <= k < l < |r| && r[k].Some? && r[l].Some? :: r[k].value != r[l].value)
  }

  /** Every card a draw returns comes from the list and was not picked
      before, and no card fills two slots. */
  lemma {:induction false} DrawsSound(el: seq<CardData>, picked: set<CardData>, entropy: nat -> nat, i: nat, take: nat)
    ensures SoundSlots(Draws(el, picked, entropy, i, take), el, picked)
    decreases take - i
  {
    if i < take {
      var p := PickFrom(el, picked, RandomRange(TotalWeight(el, picked), entropy(i)));
      var picked' := if p.Some? then picked + {p.value} else picked;
      DrawsSound(el, picked', entropy, i + 1, take);
      var rest := Draws(el, picked', entropy, i + 1, take);
      assert SoundSlots(rest, el, picked');
      var r := Draws(el, picked, entropy, i, take);
      assert r == [p] + rest;
      forall k | 0 <= k < |r| && r[k].Some?
        ensures r[k].value in el && r[k].value !in picked
      {
        if k > 0 {
          assert r[k] == rest[k - 1];
        } else {
          assert r[k] == p;
        }
      }
      forall k, l | 0 <= k < l < |r| && r[k].Some? && r[l].Some?
        ensures r[k].value != r[l].value
      {
        assert r[l] == rest[l - 1];
        if k > 0 {
          assert r[k] == rest[k - 1];
        } else {
          assert r[l].value !in picked';
        }
      }
    }
  }

  /** WeightedSample as a value: up to `count` slots drawn from the
      eligible cards. */
  function Sample(cards: seq<CardData>, exclude: set<CardData>, alsoExclude: Option<set<CardData>>,
                  count: nat, entropy: nat -> nat): (r: seq<Option<CardData>>)
    ensures |r| == Min(count, |Eligible(cards, exclude, alsoExclude)|)
  {
    var el := Eligible(cards, exclude, alsoExclude);
    Draws(el, {}, entropy, 0, Min(count, |el|))
  }

  /** A draw returns at most `count` slots, and exactly that many when the
      pool has enough eligible cards; every card in it is in the pool and
      passes both exclusions; no card appears twice. */
  lemma SampleSound(cards: seq<CardData>, exclude: set<CardData>, alsoExclude: Option<set<CardData>>,
                    count: nat, entropy: nat -> nat)
    ensures var r := Sample(cards, exclude, alsoExclude, count, entropy);
      |r| <= count && |r| <= |cards|
      && (forall k | 0 <= k < |r| && r[k].Some? :: r[k].value in cards && Keeps(exclude, alsoExclude, r[k].value))
      && (forall k, l | 0 <= k < l < |r| && r[k].Some? && r[l].Some? :: r[k].value != r[l].value)
  {
    var el := Eligible(cards, exclude, alsoExclude);
    EligibleMembers(cards, exclude, alsoExclude);
    DrawsSound(el, {}, entropy, 0, Min(count, |el|));
    var r := Sample(cards, exclude, alsoExclude, count, entropy);
    assert r == Draws(el, {}, entropy, 0, Min(count, |el|));
    forall k | 0 <= k < |r| && r[k].Some?
      ensures r[k].value in cards && Keeps(exclude, alsoExclude, r[k].value)
    {
      assert r[k].value in el;
    }
  }

  function Min(a: int, b: int): int {
    if a < b then a else b
  }

  /** A roll below the total weight always finds a card. */
  lemma {:induction false} PickSucceeds(cards: seq<CardData>, picked: set<CardData>, roll: int)
    requires forall c | c in cards :: c.weight >= 0
    requires 0 <= roll < TotalWeight(cards, picked)
    ensures PickFrom(cards, picked, roll).Some?
  {
    if cards[0] in picked {
      PickSucceeds(cards[1..], picked, roll);
    } else if roll >= cards[0].weight {
      PickSucceeds(cards[1..], picked, roll - cards[0].weight);
    }
  }

  /** An unpicked card contributes its whole weight to the total. */
  lemma {:induction false} UnpickedWeight(cards: seq<CardData>, picked: set<CardData>, c: CardData)
    requires forall x | x in cards :: x.weight >= 0
    requires c in cards && c !in picked
    ensures TotalWeight(cards, picked) >= c.weight
  {
    if cards[0] != c {
      UnpickedWeight(cards[1..], picked, c);
    } else {
      assert TotalWeight(cards[1..], picked) >= 0;
    }
  }

  lemma {:induction false} DistinctSize(s: seq<CardData>)
    requires Distinct(s)
    ensures |set c | c in s| == |s|
  {
    if s != [] {
      DistinctSize(s[1..]);
      assert (set c | c in s) == {s[0]} + (set c | c in s[1..]);
      assert s[0] !in (set c | c in s[1..]);
    }
  }

  /** With distinct cards of positive weight, every slot of a draw holds a
      card. */
  lemma {:induction false} DrawsFilled(el: seq<CardData>, picked: set<CardData>, entropy: nat -> nat, i: nat, take: nat)
    requires Distinct(el) && forall c | c in el :: c.weight >= 1
    requires picked <= (set c | c in el) && |picked| == i && take <= |el|
    ensures forall k | 0 <= k < |Draws(el, picked, entropy, i, take)| :: Draws(el, picked, entropy, i, take)[k].Some?
    decreases take - i
  {
    if i < take {
      var E := set c | c in el;
      DistinctSize(el);
      if E <= picked {
        SubsetSize(E, picked);
        assert false;
      }
      var c :| c in E && c !in picked;
      UnpickedWeight(el, picked, c);
      var tw := TotalWeight(el, picked);
      var roll := RandomRange(tw, entropy(i));
      PickSucceeds(el, picked, roll);
      var p := PickFrom(el, picked, roll);
      assert |picked + {p.value}| == i + 1;
      DrawsFilled(el, picked + {p.value}, entropy, i + 1, take);
    }
  }

  /** A pool of distinct cards with positive weights fills every slot of a
      draw. */
  lemma SampleFilled(cards: seq<CardData>, exclude: set<CardData>, alsoExclude: Option<set<CardData>>,
                     count: nat, entropy: nat -> nat)
    requires Distinct(cards) && forall c | c in cards :: c.weight >= 1
    ensures forall k | 0 <= k < |Sample(cards, exclude, alsoExclude, count, entropy)| ::
      Sample(cards, exclude, alsoExclude, count, entropy)[k].Some?
  {
    var el := Eligible(cards, exclude, alsoExclude);
    EligibleMembers(cards, exclude, alsoExclude);
    DrawsFilled(el, {}, entropy, 0, Min(count, |el|));
  }

  /** The same card listed twice counts twice towards the number of slots
      but can be picked only once, so a slot stays empty. */
  lemma DuplicateCardLeavesEmptySlot(entropy: nat -> nat)
    ensures var a := CardData(0, 10, []);
      Sample([a, a], {}, None, 2, entropy) == [Some(a), None]
  {
    var a := CardData(0, 10, []);
    var el := Eligible([a, a], {}, None);
    assert [a, a][1..] == [a] && [a][1..] == [];
    assert Eligible([a], {}, None) == [a] + Eligible([], {}, None) == [a];
    assert el == [a, a];
    assert el[1..] == [a];
    assert TotalWeight([a], {}) == 10 && TotalWeight([a], {a}) == 0;
    assert TotalWeight(el, {}) == 20;
    var roll := RandomRange(20, entropy(0));
    assert PickFrom(el, {}, roll) == Some(a);
    assert TotalWeight(el, {a}) == 0;
    assert PickFrom(el, {a}, 0) == None;
  }

  class CardPoolManager {
    const allCards: seq<CardData>
    /** `Constants.CardDrawCount`: the number of cards offered per draw. */
    const drawCount: nat
    var drawnThisRun: set<CardData>

    /** Start: nothing has been taken yet. */
    constructor (allCards: seq<CardData>, drawCount: nat)
      ensures this.allCards == allCards && this.drawCount == drawCount && drawnThisRun == {}
    {
      this.allCards := allCards;
      this.drawCount := drawCount;
      drawnThisRun := {};
    }

    /** HandlePhaseChanged: entering the reward phase draws an offer, which
        is announced only when it holds at least one slot. */
    method HandlePhaseChanged(phase: GamePhase, entropy: nat -> nat) returns (announced: Option<seq<Option<CardData>>>)
      ensures phase != Reward ==> announced.None?
      ensures phase == Reward ==>
        var drawn := Sample(allCards, drawnThisRun, None, drawCount, entropy);
        announced == if |drawn| > 0 then Some(drawn) else None
    {
      if phase != Reward {
        return None;
      }
      var drawn := Draw(entropy);
      if drawn.Length > 0 {
        return Some(drawn[..]);
      }
      return None;
    }

    /** Draw: a sample avoiding the cards taken this run. */
    method Draw(entropy: nat -> nat) returns (drawn: array<Option<CardData>>)
      ensures fresh(drawn)
      ensures drawn[..] == Sample(allCards, drawnThisRun, None, drawCount, entropy)
    {
      drawn := WeightedSample(drawnThisRun, None, drawCount, entropy);
    }

    /** Reroll: a sample avoiding the cards taken this run and the cards of
        the previous offer. */
    method Reroll(previousOffer: seq<Option<CardData>>, entropy: nat -> nat) returns (drawn: array<Option<CardData>>)
      ensures fresh(drawn)
      ensures drawn[..] == Sample(allCards, drawnThisRun, Some(set o | o in previousOffer && o.Some? :: o.value),
                                  drawCount, entropy)
    {
      drawn := WeightedSample(drawnThisRun, Some(set o | o in previousOffer && o.Some? :: o.value), drawCount, entropy);
    }

    /** MarkPicked: the card is taken for the rest of the run. */
    method MarkPicked(card: CardData)
      modifies this
      ensures drawnThisRun == old(drawnThisRun) + {card}
    {
      drawnThisRun := drawnThisRun + {card};
    }

    /** WeightedSample: collect the eligible cards, then fill each slot by
        rolling against the summed weight of the cards still unpicked. */
    method WeightedSample(exclude: set<CardData>, alsoExclude: Option<set<CardData>>, count: nat, entropy: nat -> nat)
      returns (result: array<Option<CardData>>)
      ensures fresh(result)
      ensures result[..] == Sample(allCards, exclude, alsoExclude, count, entropy)
    {
      var eligible := CollectEligible(exclude, alsoExclude);
      var take := Min(count, |eligible|);
      result := new Option<CardData>[take](_ => None);
      var pickedThisDraw: set<CardData> := {};
      for i := 0 to take
        invariant result[..i] + Draws(eligible, pickedThisDraw, entropy, i, take) == Draws(eligible, {}, entropy, 0, take)
        invariant forall k | i <= k < take :: result[k] == None
      {
        pickedThisDraw := FillSlot(result, i, eligible, pickedThisDraw, entropy);
      }
    }

    /** One slot of WeightedSample: roll against the summed weight of the
        unpicked cards and store the card found, if any. */
    method FillSlot(result: array<Option<CardData>>, i: nat, eligible: seq<CardData>, picked: set<CardData>,
                    entropy: nat -> nat) returns (picked': set<CardData>)
      requires i < result.Length
      modifies result
      ensures result[..i + 1] + Draws(eligible, picked', entropy, i + 1, result.Length)
           == old(result[..i]) + Draws(eligible, picked, entropy, i, result.Length)
      ensures forall k | i < k < result.Length :: result[k] == old(result[k])
    {
      var totalWeight := SumUnpicked(eligible, picked);
      var roll := RandomRange(totalWeight, entropy(i));
      var pick := FirstAbove(eligible, picked, roll);
      picked' := if pick.Some? then picked + {pick.value} else picked;
      ghost var rest := Draws(eligible, picked', entropy, i + 1, result.Length);
      assert Draws(eligible, picked, entropy, i, result.Length) == [pick] + rest;
      result[i] := pick;
      assert result[..i + 1] == old(result[..i]) + [pick];
    }

    /** The eligible-list loop of WeightedSample. */
    method CollectEligible(exclude: set<CardData>, alsoExclude: Option<set<CardData>>) returns (eligible: seq<CardData>)
      ensures eligible == Eligible(allCards, exclude, alsoExclude)
    {
      eligible := [];
      ghost var goal := Eligible(allCards, exclude, alsoExclude);
      assert allCards[0..] == allCards;
      for j := 0 to |allCards|
        invariant eligible + Eligible(allCards[j..], exclude, alsoExclude) == goal
      {
        var card := allCards[j];
        EligibleStep(allCards, exclude, alsoExclude, eligible, j);
        if card in exclude {
          continue;
        }
        if alsoExclude.Some? && card in alsoExclude.value {
          continue;
        }
        eligible := eligible + [card];
      }
      assert allCards[|allCards|..] == [];
    }

    /** The total-weight loop of WeightedSample. */
    method SumUnpicked(eligible: seq<CardData>, picked: set<CardData>) returns (totalWeight: int)
      ensures totalWeight == TotalWeight(eligible, picked)
    {
      totalWeight := 0;
      for j := 0 to |eligible|
        invariant totalWeight + TotalWeight(eligible[j..], picked) == TotalWeight(eligible, picked)
      {
        assert eligible[j..][1..] == eligible[j + 1..];
        if eligible[j] !in picked {
          totalWeight := totalWeight + eligible[j].weight;
        }
      }
    }

    /** The cumulative-weight loop of WeightedSample: the first unpicked card
        whose running weight exceeds the roll, or nothing. */
    method FirstAbove(eligible: seq<CardData>, picked: set<CardData>, roll: int) returns (pick: Option<CardData>)
      ensures pick == PickFrom(eligible, picked, roll)
    {
      var cumulative := 0;
      ghost var goal := PickFrom(eligible, picked, roll);
      assert eligible[0..] == eligible;
      for j := 0 to |eligible|
        invariant goal == PickFrom(eligible[j..], picked, roll - cumulative)
      {
        var c := eligible[j];
        PickStep(eligible, picked, roll, cumulative, j);
        if c in picked {
          continue;
        }
        cumulative := cumulative + c.weight;
        if roll < cumulative {
          return Some(c);
        }
      }
      return None;
    }
  }
}
