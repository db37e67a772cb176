/** The wave spawner: releases a wave's enemies one at a time and counts the
    enemies still on the board, announcing completion once per wave. */
module Spawning {
  import opened Basics

  /** An enemy asset; only its identity and kill reward matter here. */
  datatype EnemyData = EnemyData(id: nat, rewardGold: nat)

  /** One line of a wave: `count` enemies of one kind. */
  datatype WaveEntry = WaveEntry(enemy: EnemyData, count: int)

  datatype WaveData = WaveData(entries: seq<WaveEntry>, goldReward: nat)

  /** `count` copies of one enemy; none for a count of zero or less. */
  function Repeat(e: EnemyData, count: int): (r: seq<EnemyData>)
    ensures |r| == if count < 0 then 0 else count
    ensures forall k | 0 <= k < |r| :: r[k] == e
    decreases count
  {
    if count <= 0 then [] else Repeat(e, count - 1) + [e]
  }

  /** The order in which a wave's enemies appear: entries in order, each
      repeated its count times. */
  function Schedule(entries: seq<WaveEntry>): (r: seq<EnemyData>)
    ensures |r| == TotalCount(entries)
  {
    if entries == [] then [] else Repeat(entries[0].enemy, entries[0].count) + Schedule(entries[1..])
  }

  /** The number of enemies a wave releases: the sum of its counts, with
      non-positive counts contributing nothing. */
  function TotalCount(entries: seq<WaveEntry>): nat {
    if entries == [] then 0
    else (if entries[0].count < 0 then 0 else entries[0].count) + TotalCount(entries[1..])
  }

  /** The schedule of two lists of entries is the concatenation of theirs. */
  lemma {:induction false} ScheduleAppend(a: seq<WaveEntry>, b: seq<WaveEntry>)
    ensures Schedule(a + b) == Schedule(a) + Schedule(b)
  {
    if a == [] {
      assert a + b == b;
    } else {
      assert (a + b)[1..] == a[1..] + b;
      ScheduleAppend(a[1..], b);
    }
  }

  /** Every scheduled enemy belongs to an entry with a positive count. */
  lemma {:induction false} ScheduleFromEntries(entries: seq<WaveEntry>, e: EnemyData)
    requires e in Schedule(entries)
    ensures exists k :: 0 <= k < |entries| && entries[k].enemy == e && entries[k].count > 0
  {
    var head := Repeat(entries[0].enemy, entries[0].count);
    if e in head {
      assert entries[0].enemy == e && entries[0].count > 0;
    } else {
      ScheduleFromEntries(entries[1..], e);
      var k :| 0 <= k < |entries[1..]| && entries[1..][k].enemy == e && entries[1..][k].count > 0;
      assert entries[k + 1].enemy == e;
    }
  }

  class WaveSpawner {
    var remainingEnemies: int
    var spawningDone: bool
    var waveActive: bool
    /** The spawn coroutine: whether it is alive and the enemies it has yet
        to release, in order. */
    var running: bool
    var pending: seq<EnemyData>
    /** Enemies released and removals counted since the wave started. */
    ghost var spawned: nat
    ghost var removed: nat
    /** The number of enemies the current wave releases in all. */
    ghost var total: nat

    /** The counter is the released enemies minus the counted removals, and
        a live coroutine belongs to an active wave that has not finished
        spawning. */
    ghost predicate Valid()
      reads this
    {
      remainingEnemies == spawned - removed
      && spawned + |pending| == total
      && (running ==> waveActive && !spawningDone)
      && (spawningDone ==> pending == [] && !running)
    }

    constructor ()
      ensures Valid() && !waveActive && !running && !spawningDone && remainingEnemies == 0
    {
      remainingEnemies := 0;
      spawningDone := false;
      waveActive := false;
      running := false;
      pending := [];
      spawned, removed, total := 0, 0, 0;
    }

    /** StartWave: the counters are reset, the wave becomes active and the
        coroutine starts, running up to its first pause. The result is what
        that first stretch did. */
    method StartWave(wave: WaveData) returns (spawnedEnemy: Option<EnemyData>, completed: bool)
      modifies this
      ensures Valid() && total == TotalCount(wave.entries)
      ensures spawnedEnemy.Some? <==> TotalCount(wave.entries) > 0
      ensures spawnedEnemy.Some? ==>
        (spawnedEnemy.value == Schedule(wave.entries)[0]
         && pending == Schedule(wave.entries)[1..] && remainingEnemies == 1 && waveActive && running
         && !spawningDone)
      ensures completed <==> TotalCount(wave.entries) == 0
      ensures completed ==> !waveActive && spawningDone && remainingEnemies == 0 && !running && pending == []
    {
      remainingEnemies := 0;
      spawningDone := false;
      waveActive := true;
      pending := Schedule(wave.entries);
      running := true;
      spawned, removed, total := 0, 0, |pending|;
      spawnedEnemy, completed := Resume();
    }

    /** One resumption of the coroutine: release the next enemy and pause,
        or, with nothing left, finish spawning and check for completion. */
    method Resume() returns (spawnedEnemy: Option<EnemyData>, completed: bool)
      requires Valid()
      modifies this
      ensures Valid() && removed == old(removed) && total == old(total)
      ensures !old(running) ==>
        (spawnedEnemy.None? && !completed
         && remainingEnemies == old(remainingEnemies) && waveActive == old(waveActive) && pending == old(pending)
         && spawningDone == old(spawningDone) && !running)
      ensures old(running) && old(pending) != [] ==>
        spawnedEnemy == Some(old(pending)[0]) && pending == old(pending)[1..] && !completed
        && remainingEnemies == old(remainingEnemies) + 1 && running
        && waveActive == old(waveActive) && spawningDone == old(spawningDone)
      ensures old(running) && old(pending) == [] ==>
        spawnedEnemy.None? && spawningDone && !running && pending == []
        && remainingEnemies == old(remainingEnemies)
        && (completed <==> old(remainingEnemies) <= 0)
        && waveActive == (old(waveActive) && !completed)
      ensures completed ==> old(waveActive) && !waveActive && spawned == total && removed >= total
    {
      if !running {
        return None, false;
      }
      if pending != [] {
        spawnedEnemy := Some(pending[0]);
        pending := pending[1..];
        remainingEnemies := remainingEnemies + 1;
        spawned := spawned + 1;
        return spawnedEnemy, false;
      }
      running := false;
      spawningDone := true;
      spawnedEnemy := None;
      completed := CheckWaveComplete();
    }

    /** HandleEnemyRemoved (a kill or an enemy reaching the exit): ignored
        outside an active wave, otherwise one fewer enemy remains. */
    method HandleEnemyRemoved() returns (completed: bool)
      requires Valid()
      modifies this
      ensures Valid() && spawned == old(spawned) && pending == old(pending) && running == old(running)
      ensures total == old(total)
      ensures !old(waveActive) ==> !completed && remainingEnemies == old(remainingEnemies) && !waveActive
      ensures old(waveActive) ==> remainingEnemies == old(remainingEnemies) - 1
      ensures spawningDone == old(spawningDone)
      ensures waveActive == (old(waveActive) && !completed)
      ensures completed <==> old(waveActive) && spawningDone && remainingEnemies <= 0
      ensures completed ==> !waveActive && spawned == total && removed >= total
    {
      if !waveActive {
        return false;
      }
      remainingEnemies := remainingEnemies - 1;
      removed := removed + 1;
      completed := CheckWaveComplete();
    }

    /** CheckWaveComplete: once spawning is done and no enemy remains, the
        wave ends and completion is announced. */
    method CheckWaveComplete() returns (completed: bool)
      modifies this
      ensures completed <==> spawningDone && remainingEnemies <= 0
      ensures waveActive == (old(waveActive) && !completed)
      ensures remainingEnemies == old(remainingEnemies) && spawningDone == old(spawningDone)
      ensures running == old(running) && pending == old(pending)
      ensures spawned == old(spawned) && removed == old(removed) && total == old(total)
    {
      if spawningDone && remainingEnemies <= 0 {
        waveActive := false;
        return true;
      }
      return false;
    }
  }
}
