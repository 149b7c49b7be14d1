/** The zone-1 page's enemy controller: its initial roster, the five-second
    respawn timer that keeps three enemies alive, the death handler (XP and
    rolled loot, no coins) and the loot-collected handler. */
module Zone1Enemies {
  import opened Types
  import Game
  import Store
  import EnemyData
  import Roster
  import Drops

  /** Four small slimes around the arena and a golem near the centre. */
  const InitialEnemies: seq<Roster.EnemySpawn> := [
    Roster.EnemySpawn("slime-1", "small-slime", Vec3(8.0, 0.5, 8.0), 1, true),
    Roster.EnemySpawn("slime-2", "small-slime", Vec3(-8.0, 0.5, 8.0), 1, true),
    Roster.EnemySpawn("slime-3", "small-slime", Vec3(8.0, 0.5, -8.0), 1, true),
    Roster.EnemySpawn("slime-4", "small-slime", Vec3(-8.0, 0.5, -8.0), 1, true),
    Roster.EnemySpawn("golem-1", "big-golem", Vec3(0.0, 1.2, 12.0), 1, true)]

  const SpawnPoints: seq<Vec3> := [
    Vec3(15.0, 0.5, 15.0), Vec3(-15.0, 0.5, 15.0), Vec3(15.0, 0.5, -15.0), Vec3(-15.0, 0.5, -15.0),
    Vec3(0.0, 0.5, 20.0), Vec3(0.0, 0.5, -20.0), Vec3(20.0, 0.5, 0.0), Vec3(-20.0, 0.5, 0.0)]

  /** Respawning keeps at least this many enemies alive. */
  const AliveFloor: nat := 3

  /** Below this draw a respawn is a golem. */
  const GolemChance: real := 0.2

  /** The page starts with five live enemies of known presets. */
  lemma InitialRosterShape()
    ensures |InitialEnemies| == 5 && Roster.AliveCount(InitialEnemies) == 5
    ensures forall k :: 0 <= k < 5 ==> InitialEnemies[k].isAlive && InitialEnemies[k].presetId in EnemyData.Presets
  {
    var xs := InitialEnemies;
    assert xs[..0] == [];
    assert xs[..1][..0] == xs[..0] && xs[..1][0] == xs[0];
    assert Roster.AliveCount(xs[..1]) == 1;
    assert xs[..2][..1] == xs[..1] && xs[..2][1] == xs[1];
    assert Roster.AliveCount(xs[..2]) == 2;
    assert xs[..3][..2] == xs[..2] && xs[..3][2] == xs[2];
    assert Roster.AliveCount(xs[..3]) == 3;
    assert xs[..4][..3] == xs[..3] && xs[..4][3] == xs[3];
    assert Roster.AliveCount(xs[..4]) == 4;
    assert xs[..5][..4] == xs[..4] && xs[..5][4] == xs[4];
    assert Roster.AliveCount(xs[..5]) == 5;
    assert xs[..5] == xs;
  }

  /** The enemy one respawn adds: a golem exactly when the second draw is
      below 0.2, otherwise a small slime, at the spawn point picked by the
      first draw, with a fresh counter-based id. */
  function ZoneSpawn(pointDraw: real, golemDraw: real, now: nat, counter: nat): (e: Roster.EnemySpawn)
    requires Drops.IsDraw(pointDraw)
    ensures e.presetId == (if golemDraw < GolemChance then "big-golem" else "small-slime")
    ensures e.presetId in EnemyData.Presets
    ensures e.isAlive && e.position in SpawnPoints
    ensures e.id == Roster.SpawnId("spawn-", now, counter)
  {
    var point := SpawnPoints[Roster.PickIndex(pointDraw, |SpawnPoints|)];
    Roster.EnemySpawn(Roster.SpawnId("spawn-", now, counter),
                      if golemDraw < GolemChance then "big-golem" else "small-slime", point, 1, true)
  }

  /** A respawn below the floor adds exactly one live enemy and never lifts
      the count above the floor. */
  lemma RespawnReachesFloor(xs: seq<Roster.EnemySpawn>, pointDraw: real, golemDraw: real, now: nat, counter: nat)
    requires Drops.IsDraw(pointDraw)
    requires Roster.AliveCount(xs) < AliveFloor
    ensures var ys := xs + [ZoneSpawn(pointDraw, golemDraw, now, counter)];
      Roster.AliveCount(ys) == Roster.AliveCount(xs) + 1 <= AliveFloor
  {
    Roster.CountsAppend(xs, ZoneSpawn(pointDraw, golemDraw, now, counter), 1);
  }

  class Population {
    var enemies: seq<Roster.EnemySpawn>
    var lootDrops: seq<LootItem>
    var spawnCounter: nat

    constructor ()
      ensures enemies == InitialEnemies && lootDrops == [] && spawnCounter == 0
    {
      enemies := InitialEnemies;
      lootDrops := [];
      spawnCounter := 0;
    }

    /** One firing of the five-second respawn interval, which only runs while
        the game is not paused: below three live enemies, one is appended and
        the counter advances. */
    method RespawnTick(store: Store.GameStore, pointDraw: real, golemDraw: real, now: nat)
      requires Drops.IsDraw(pointDraw)
      modifies this
      ensures lootDrops == old(lootDrops)
      ensures store.state.isPaused || Roster.AliveCount(old(enemies)) >= AliveFloor ==>
        enemies == old(enemies) && spawnCounter == old(spawnCounter)
      ensures !store.state.isPaused && Roster.AliveCount(old(enemies)) < AliveFloor ==>
        && enemies == old(enemies) + [ZoneSpawn(pointDraw, golemDraw, now, old(spawnCounter))]
        && spawnCounter == old(spawnCounter) + 1
    {
      if store.state.isPaused {
        return;
      }
      var aliveCount := Roster.AliveCount(enemies);
      if aliveCount < AliveFloor {
        var newEnemy := ZoneSpawn(pointDraw, golemDraw, now, spawnCounter);
        spawnCounter := spawnCounter + 1;
        enemies := enemies + [newEnemy];
      }
    }

    /** handleEnemyDeath: the id is marked dead, the XP reward is granted, and
        each loot entry is rolled in table order.  No coins drop here. */
    method HandleEnemyDeath(store: Store.GameStore, death: Death, rolls: seq<Drops.LootRoll>)
      requires |rolls| == |death.lootTable|
      modifies this, store
      ensures enemies == Roster.MarkDead(old(enemies), death.id)
      ensures store.state == Game.AddXp(old(store.state), death.xpReward)
      ensures lootDrops == old(lootDrops) + Drops.RolledLoot(death.lootTable, rolls, death.position)
      ensures spawnCounter == old(spawnCounter)
    {
      enemies := Roster.MarkDead(enemies, death.id);
      store.AddXp(death.xpReward);
      ghost var afterXp := store.state;
      var table, at := death.lootTable, death.position;
      var i := 0;
      while i < |table|
        invariant 0 <= i <= |table|
        invariant lootDrops == old(lootDrops) + Drops.RolledLoot(table[..i], rolls[..i], at)
        invariant enemies == Roster.MarkDead(old(enemies), death.id) && spawnCounter == old(spawnCounter)
        invariant store.state == afterXp
      {
        Drops.RolledLootSnoc(table, rolls, at, i);
        if rolls[i].draw < table[i].chance {
          lootDrops := lootDrops + [Drops.DropItem(table[i], rolls[i].id, at)];
        }
        i := i + 1;
      }
      assert table[..i] == table && rolls[..i] == rolls;
    }

    /** handleLootCollected: removes exactly the items with that id and keeps
        the others in order. */
    method HandleLootCollected(lootId: string)
      modifies this
      ensures lootDrops == Game.RemoveWhere(old(lootDrops), (l: LootItem) => l.id, lootId)
      ensures forall l :: l in lootDrops <==> l in old(lootDrops) && l.id != lootId
      ensures enemies == old(enemies) && spawnCounter == old(spawnCounter)
    {
      lootDrops := Game.RemoveWhere(lootDrops, (l: LootItem) => l.id, lootId);
    }
  }
}
