/** The game's phase machine: build, wave, reward, then the next build or the
    end of the game. Timers count whole ticks. */
module Waves {
  import opened Basics
  import opened Spawning
  import opened Economy

  datatype GamePhase = Build | Wave | Reward | GameOver

  /** The notifications the phase machine raises. */
  datatype Notice =
    | PhaseChanged(phase: GamePhase)
    | WaveStarted(index: int)
    | GameEnded(victory: bool)
    | EnemySpawned(enemy: EnemyData)   // the spawner released an enemy
    | GoldChanged(gold: int)           // the purse's new balance

  class WaveManager {
    const waves: seq<WaveData>
    const spawner: WaveSpawner
    const resources: PlayerResources
    const buildPhaseDuration: int
    const rewardPhaseDuration: int

    var phase: GamePhase
    var currentWaveIndex: int
    var phaseTimer: int
    var cardDrawPending: bool

    /** The wave index stays within the wave list, and the wave and reward
        phases always refer to an existing wave. */
    ghost predicate Valid()
      reads this, spawner
    {
      spawner.Valid()
      && 0 <= currentWaveIndex <= |waves|
      && (phase == Wave || phase == Reward ==> currentWaveIndex < |waves|)
      && (phase == Build && |waves| > 0 ==> currentWaveIndex < |waves|)
    }

    /** What StartWave leaves behind once wave `i` has begun, given the timer
        `timer0` and the gold `gold0` before it: the spawner holds the wave
        and has released its first enemy while the timer stands still, or,
        for a wave without enemies, the wave is already over, its reward paid
        and the reward phase begun. */
    ghost predicate WaveBegun(i: int, timer0: int, gold0: int, events: seq<Notice>)
      reads this, spawner, resources
      requires 0 <= i < |waves|
    {
      var wave := waves[i];
      var schedule := Schedule(wave.entries);
      spawner.total == TotalCount(wave.entries)
      && (TotalCount(wave.entries) > 0 ==>
            phase == Wave && phaseTimer == timer0 && spawner.waveActive && spawner.running
            && spawner.remainingEnemies == 1 && spawner.pending == schedule[1..] && !spawner.spawningDone
            && resources.gold == gold0
            && events == [PhaseChanged(Wave), WaveStarted(i), EnemySpawned(schedule[0])])
      && (TotalCount(wave.entries) == 0 ==>
            phase == Reward && phaseTimer == rewardPhaseDuration
            && !spawner.waveActive && spawner.spawningDone && !spawner.running
            && spawner.remainingEnemies == 0 && spawner.pending == []
            && resources.gold == gold0 + wave.goldReward
            && events == [PhaseChanged(Wave), WaveStarted(i), GoldChanged(resources.gold), PhaseChanged(Reward)])
    }

    /** What AdvanceWave leaves behind after wave `i`, given the timer
        `timer0` before it: the index moves on; past the last wave the game
        is won and the timer stands still, otherwise the build phase begins
        with a full timer. */
    ghost predicate Advanced(i: int, timer0: int, events: seq<Notice>)
      reads this
    {
      currentWaveIndex == i + 1
      && (currentWaveIndex == |waves| ==>
            phase == GameOver && phaseTimer == timer0 && events == [PhaseChanged(GameOver), GameEnded(true)])
      && (currentWaveIndex < |waves| ==>
            phase == Build && phaseTimer == buildPhaseDuration && events == [PhaseChanged(Build)])
    }

    /** Start: the first wave is next and the build phase begins. */
    constructor (waves: seq<WaveData>, spawner: WaveSpawner, resources: PlayerResources,
                 buildPhaseDuration: int, rewardPhaseDuration: int)
      requires spawner.Valid()
      ensures Valid()
      ensures this.waves == waves && this.spawner == spawner && this.resources == resources
      ensures this.buildPhaseDuration == buildPhaseDuration && this.rewardPhaseDuration == rewardPhaseDuration
      ensures phase == Build && currentWaveIndex == 0 && phaseTimer == buildPhaseDuration && !cardDrawPending
    {
      this.waves := waves;
      this.spawner := spawner;
      this.resources := resources;
      this.buildPhaseDuration := buildPhaseDuration;
      this.rewardPhaseDuration := rewardPhaseDuration;
      phase := Build;
      currentWaveIndex := 0;
      phaseTimer := buildPhaseDuration;
      cardDrawPending := false;
    }

    /** Update: the build timer runs down and starts the wave at zero; the
        reward timer runs down only while no card draw is pending and moves
        on at zero. The wave and game-over phases ignore the clock. */
    method Update(ticks: int) returns (events: seq<Notice>)
      requires Valid()
      modifies this, spawner, resources
      ensures Valid() && currentWaveIndex >= old(currentWaveIndex)
      ensures cardDrawPending == old(cardDrawPending) && resources.killCount == old(resources.killCount)
      ensures old(phase) == Wave || old(phase) == GameOver ==>
        phase == old(phase) && currentWaveIndex == old(currentWaveIndex) && phaseTimer == old(phaseTimer)
        && unchanged(spawner, resources) && events == []
      ensures old(phase) == Reward && old(cardDrawPending) ==>
        phase == Reward && currentWaveIndex == old(currentWaveIndex) && phaseTimer == old(phaseTimer)
        && unchanged(spawner, resources) && events == []
      ensures old(phase) == Build && old(phaseTimer) - ticks > 0 ==>
        phase == Build && currentWaveIndex == old(currentWaveIndex) && phaseTimer == old(phaseTimer) - ticks
        && unchanged(spawner, resources) && events == []
      ensures old(phase) == Build && old(phaseTimer) - ticks <= 0 && old(currentWaveIndex) < |waves| ==>
        currentWaveIndex == old(currentWaveIndex)
        && WaveBegun(currentWaveIndex, old(phaseTimer) - ticks, old(resources.gold), events)
      ensures old(phase) == Build && old(phaseTimer) - ticks <= 0 && old(currentWaveIndex) >= |waves| ==>
        phase == Build && currentWaveIndex == old(currentWaveIndex) && phaseTimer == old(phaseTimer) - ticks
        && unchanged(spawner, resources) && events == []
      ensures old(phase) == Reward && !old(cardDrawPending) && old(phaseTimer) - ticks > 0 ==>
        phase == Reward && currentWaveIndex == old(currentWaveIndex) && phaseTimer == old(phaseTimer) - ticks
        && unchanged(spawner, resources) && events == []
      ensures old(phase) == Reward && !old(cardDrawPending) && old(phaseTimer) - ticks <= 0 ==>
        Advanced(old(currentWaveIndex), old(phaseTimer) - ticks, events) && unchanged(spawner, resources)
    {
      events := [];
      if phase == Build {
        phaseTimer := phaseTimer - ticks;
        if phaseTimer <= 0 {
          events := StartWave();
        }
      } else if phase == Reward {
        if !cardDrawPending {
          phaseTimer := phaseTimer - ticks;
          if phaseTimer <= 0 {
            events := AdvanceWave();
          }
        }
      }
    }

    method EnterBuildPhase() returns (events: seq<Notice>)
      modifies this
      ensures phase == Build && phaseTimer == buildPhaseDuration
      ensures currentWaveIndex == old(currentWaveIndex) && cardDrawPending == old(cardDrawPending)
      ensures events == [PhaseChanged(Build)]
    {
      phase := Build;
      phaseTimer := buildPhaseDuration;
      events := [PhaseChanged(Build)];
    }

    /** StartWave: only from the build phase with a wave left; the wave phase
        begins and the spawner starts the current wave. A wave with no
        enemies completes at once and goes straight to the reward phase. */
    method StartWave() returns (events: seq<Notice>)
      requires Valid()
      modifies this, spawner, resources
      ensures Valid() && currentWaveIndex == old(currentWaveIndex) && cardDrawPending == old(cardDrawPending)
      ensures resources.killCount == old(resources.killCount)
      ensures old(phase) != Build || old(currentWaveIndex) >= |waves| ==>
        phase == old(phase) && phaseTimer == old(phaseTimer) && unchanged(spawner, resources) && events == []
      ensures old(phase) == Build && old(currentWaveIndex) < |waves| ==>
        WaveBegun(currentWaveIndex, old(phaseTimer), old(resources.gold), events)
    {
      if phase != Build {
        return [];
      }
      if currentWaveIndex >= |waves| {
        return [];
      }
      phase := Wave;
      events := [PhaseChanged(Wave), WaveStarted(currentWaveIndex)];
      var first, completed := spawner.StartWave(waves[currentWaveIndex]);
      if first.Some? {
        events := events + [EnemySpawned(first.value)];
      }
      if completed {
        var more := HandleWaveComplete();
        events := events + more;
      }
    }

    /** HandleWaveComplete: only in the wave phase; the wave's gold reward is
        paid and the reward phase begins. */
    method HandleWaveComplete() returns (events: seq<Notice>)
      requires Valid()
      modifies this, resources
      ensures Valid() && currentWaveIndex == old(currentWaveIndex) && cardDrawPending == old(cardDrawPending)
      ensures resources.killCount == old(resources.killCount)
      ensures old(phase) != Wave ==>
        phase == old(phase) && phaseTimer == old(phaseTimer) && unchanged(resources) && events == []
      ensures old(phase) == Wave ==>
        phase == Reward && phaseTimer == rewardPhaseDuration
        && resources.gold == old(resources.gold) + waves[currentWaveIndex].goldReward
        && events == [GoldChanged(resources.gold), PhaseChanged(Reward)]
    {
      if phase != Wave {
        return [];
      }
      var goldChanged := resources.AddGold(waves[currentWaveIndex].goldReward);
      phase := Reward;
      phaseTimer := rewardPhaseDuration;
      events := [GoldChanged(goldChanged), PhaseChanged(Reward)];
    }

    /** AdvanceWave: the next wave becomes current; past the last wave the
        game is won, otherwise the build phase begins. */
    method AdvanceWave() returns (events: seq<Notice>)
      requires Valid() && phase == Reward
      modifies this
      ensures Valid() && cardDrawPending == old(cardDrawPending)
      ensures Advanced(old(currentWaveIndex), old(phaseTimer), events)
    {
      currentWaveIndex := currentWaveIndex + 1;
      if currentWaveIndex >= |waves| {
        events := TriggerGameOver(true);
      } else {
        events := EnterBuildPhase();
      }
    }

    /** HandleLivesChanged: no lives left ends the game in defeat. */
    method HandleLivesChanged(lives: int) returns (events: seq<Notice>)
      requires Valid()
      modifies this
      ensures Valid() && currentWaveIndex == old(currentWaveIndex) && cardDrawPending == old(cardDrawPending)
      ensures phaseTimer == old(phaseTimer)
      ensures lives > 0 ==> phase == old(phase) && events == []
      ensures lives <= 0 ==> phase == GameOver
      ensures lives <= 0 && old(phase) != GameOver ==> events == [PhaseChanged(GameOver), GameEnded(false)]
      ensures old(phase) == GameOver ==> events == []
    {
      events := [];
      if lives <= 0 {
        events := TriggerGameOver(false);
      }
    }

    /** HandleDrawReady: a card draw is on offer, so the reward timer holds. */
    method HandleDrawReady()
      modifies this
      ensures cardDrawPending
      ensures phase == old(phase) && currentWaveIndex == old(currentWaveIndex) && phaseTimer == old(phaseTimer)
    {
      cardDrawPending := true;
    }

    /** HandleCardApplied: the draw is over; in the reward phase the game
        moves on at once. */
    method HandleCardApplied() returns (events: seq<Notice>)
      requires Valid()
      modifies this
      ensures Valid() && !cardDrawPending
      ensures old(phase) != Reward ==>
        phase == old(phase) && currentWaveIndex == old(currentWaveIndex) && phaseTimer == old(phaseTimer) && events == []
      ensures old(phase) == Reward ==> Advanced(old(currentWaveIndex), old(phaseTimer), events)
    {
      cardDrawPending := false;
      events := [];
      if phase == Reward {
        events := AdvanceWave();
      }
    }

    /** TriggerGameOver: the first call ends the game and announces the
        result; later calls change nothing and announce nothing. */
    method TriggerGameOver(victory: bool) returns (events: seq<Notice>)
      modifies this
      ensures phase == GameOver
      ensures currentWaveIndex == old(currentWaveIndex) && cardDrawPending == old(cardDrawPending)
      ensures phaseTimer == old(phaseTimer)
      ensures events == if old(phase) == GameOver then [] else [PhaseChanged(GameOver), GameEnded(victory)]
    {
      if phase == GameOver {
        return [];
      }
      phase := GameOver;
      events := [PhaseChanged(GameOver), GameEnded(victory)];
    }
  }
}
