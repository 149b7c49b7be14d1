/** The world page's enemies: the labelled enemy component (which also
    recovers enemies that fall through the floor) and the population
    controller with its zone-1 respawn timer and its death handler, which
    grants XP and drops rolled loot and coins. */
module WorldEnemies {
  import opened Types
  import Game
  import Store
  import EnemyData
  import EnemyAi
  import Roster
  import Drops

  /** `getEnemyY`: every enemy is spawned at height 3 and falls to the ground. */
  function EnemyY(presetId: string): real {
    3.0
  }

  /** The roster the world page starts with: three practice enemies in zone 0
      and five hostile enemies in zone 1. */
  const InitialEnemies: seq<Roster.EnemySpawn> := [
    Roster.EnemySpawn("training-1", "training-dummy", Vec3(-8.0, EnemyY("training-dummy"), -3.0), 0, true),
    Roster.EnemySpawn("practice-1", "practice-slime", Vec3(10.0, EnemyY("practice-slime"), -8.0), 0, true),
    Roster.EnemySpawn("practice-2", "practice-slime", Vec3(-10.0, EnemyY("practice-slime"), 8.0), 0, true),
    Roster.EnemySpawn("slime-1", "small-slime", Vec3(20.0, EnemyY("small-slime"), 10.0), 1, true),
    Roster.EnemySpawn("slime-2", "small-slime", Vec3(-18.0, EnemyY("small-slime"), 15.0), 1, true),
    Roster.EnemySpawn("slime-3", "small-slime", Vec3(22.0, EnemyY("small-slime"), -12.0), 1, true),
    Roster.EnemySpawn("slime-4", "small-slime", Vec3(-20.0, EnemyY("small-slime"), -18.0), 1, true),
    Roster.EnemySpawn("golem-1", "big-golem", Vec3(0.0, EnemyY("big-golem"), 22.0), 1, true)]

  /** Ground positions (x, z) where zone-1 enemies respawn. */
  const Zone1SpawnPoints: seq<(real, real)> := [
    (20.0, 18.0), (-20.0, 18.0), (20.0, -18.0), (-20.0, -18.0),
    (0.0, 25.0), (0.0, -25.0), (25.0, 0.0), (-25.0, 0.0)]

  /** Respawning keeps at least this many zone-1 enemies alive. */
  const Zone1Floor: nat := 4

  /** Below this draw a respawn is a golem. */
  const GolemChance: real := 0.15

  /** Every initial entry is alive at height 3 with a known preset; three are
      in zone 0 and five in zone 1, so no respawn happens before a zone-1
      enemy dies. */
  lemma InitialRosterShape()
    ensures |InitialEnemies| == 8
    ensures forall k :: 0 <= k < 8 ==>
      var e := InitialEnemies[k];
      e.isAlive && e.position.y == 3.0 && e.presetId in EnemyData.Presets && (e.zone == 0 || e.zone == 1)
    ensures Roster.AliveInZone(InitialEnemies, 0) == 3
    ensures Roster.AliveInZone(InitialEnemies, 1) == 5 >= Zone1Floor
  {
    var xs := InitialEnemies;
    assert xs[..0] == [];
    assert xs[..1][..0] == xs[..0] && xs[..1][0] == xs[0];
    assert Roster.AliveInZone(xs[..1], 0) == 1 && Roster.AliveInZone(xs[..1], 1) == 0;
    assert xs[..2][..1] == xs[..1] && xs[..2][1] == xs[1];
    assert Roster.AliveInZone(xs[..2], 0) == 2 && Roster.AliveInZone(xs[..2], 1) == 0;
    assert xs[..3][..2] == xs[..2] && xs[..3][2] == xs[2];
    assert Roster.AliveInZone(xs[..3], 0) == 3 && Roster.AliveInZone(xs[..3], 1) == 0;
    assert xs[..4][..3] == xs[..3] && xs[..4][3] == xs[3];
    assert Roster.AliveInZone(xs[..4], 0) == 3 && Roster.AliveInZone(xs[..4], 1) == 1;
    assert xs[..5][..4] == xs[..4] && xs[..5][4] == xs[4];
    assert Roster.AliveInZone(xs[..5], 0) == 3 && Roster.AliveInZone(xs[..5], 1) == 2;
    assert xs[..6][..5] == xs[..5] && xs[..6][5] == xs[5];
    assert Roster.AliveInZone(xs[..6], 0) == 3 && Roster.AliveInZone(xs[..6], 1) == 3;
    assert xs[..7][..6] == xs[..6] && xs[..7][6] == xs[6];
    assert Roster.AliveInZone(xs[..7], 0) == 3 && Roster.AliveInZone(xs[..7], 1) == 4;
    assert xs[..8][..7] == xs[..7] && xs[..8][7] == xs[7];
    assert Roster.AliveInZone(xs[..8], 0) == 3 && Roster.AliveInZone(xs[..8], 1) == 5;
    assert xs[..8] == xs;
  }

  /** The enemy one respawn adds: a golem exactly when the second draw is
      below 0.15, otherwise a small slime, at a zone-1 spawn point picked by
      the first draw, at height 3, with a fresh counter-based id. */
  function WorldSpawn(pointDraw: real, golemDraw: real, now: nat, counter: nat): (e: Roster.EnemySpawn)
    requires Drops.IsDraw(pointDraw)
    ensures e.presetId == (if golemDraw < GolemChance then "big-golem" else "small-slime")
    ensures e.presetId in EnemyData.Presets
    ensures e.zone == 1 && e.isAlive && e.position.y == 3.0
    ensures (e.position.x, e.position.z) in Zone1SpawnPoints
    ensures e.id == Roster.SpawnId("enemy-", now, counter)
  {
    var xz := Zone1SpawnPoints[Roster.PickIndex(pointDraw, |Zone1SpawnPoints|)];
    var presetId := if golemDraw < GolemChance then "big-golem" else "small-slime";
    Roster.EnemySpawn(Roster.SpawnId("enemy-", now, counter), presetId, Vec3(xz.0, EnemyY(presetId), xz.1), 1, true)
  }

  /** A respawn adds one alive zone-1 enemy, so a population below the floor
      grows by exactly one and never beyond the floor. */
  lemma RespawnReachesFloor(xs: seq<Roster.EnemySpawn>, pointDraw: real, golemDraw: real, now: nat, counter: nat)
    requires Drops.IsDraw(pointDraw)
    requires Roster.AliveInZone(xs, 1) < Zone1Floor
    ensures var ys := xs + [WorldSpawn(pointDraw, golemDraw, now, counter)];
      Roster.AliveInZone(ys, 1) == Roster.AliveInZone(xs, 1) + 1 <= Zone1Floor
  {
    Roster.CountsAppend(xs, WorldSpawn(pointDraw, golemDraw, now, counter), 1);
  }

  /** The labelled enemy of the world page. */
  class LabelledEnemy {
    const id: string
    const preset: EnemyPreset
    const spawn: Vec3
    var health: nat
    var isAlive: bool
    var lastAttackTime: int

    constructor (id: string, preset: EnemyPreset, spawn: Vec3)
      ensures this.id == id && this.preset == preset && this.spawn == spawn
      ensures health == preset.maxHealth && isAlive && lastAttackTime == 0
    {
      this.id := id;
      this.preset := preset;
      this.spawn := spawn;
      health := preset.maxHealth;
      isAlive := true;
      lastAttackTime := 0;
    }

    /** One frame: nothing while dead or paused; otherwise the world decision,
        where a strike becomes `damagePlayer`. */
    method Tick(store: Store.GameStore, enemyPos: Vec3, dist: real, vy: real, now: int)
        returns (cmd: EnemyAi.Command)
      requires EnemyAi.Measured(EnemyAi.Sample(enemyPos, store.state.player.position, dist, vy, now))
      modifies this, store
      ensures health == old(health) && isAlive == old(isAlive)
      ensures !old(isAlive) || old(store.state.isPaused) ==>
        cmd == EnemyAi.NoCommand && lastAttackTime == old(lastAttackTime) && store.state == old(store.state)
      ensures old(isAlive) && !old(store.state.isPaused) ==>
        var d := EnemyAi.WorldDecision(preset, spawn,
                   EnemyAi.Sample(enemyPos, old(store.state.player.position), dist, vy, now), old(lastAttackTime));
        && cmd == d.command
        && lastAttackTime == d.lastAttackTime
        && store.state == (if d.strike.Some? then Game.DamagePlayer(old(store.state), d.strike.value)
                           else old(store.state))
    {
      if !isAlive || store.state.isPaused {
        return EnemyAi.NoCommand;
      }
      var sample := EnemyAi.Sample(enemyPos, store.state.player.position, dist, vy, now);
      var d := EnemyAi.WorldDecision(preset, spawn, sample, lastAttackTime);
      if d.strike.Some? {
        store.DamagePlayer(d.strike.value);
      }
      lastAttackTime := d.lastAttackTime;
      cmd := d.command;
    }

    /** takeDamage: ignored once dead; otherwise health drops, floored at 0,
        and at 0 the enemy stops living and reports its id, position, loot
        table and XP reward. */
    method TakeDamage(amount: nat, position: Vec3) returns (death: Option<Death>)
      modifies this
      ensures lastAttackTime == old(lastAttackTime)
      ensures !old(isAlive) ==> death.None? && health == old(health) && !isAlive
      ensures old(isAlive) ==>
        health == (if old(health) > amount then old(health) - amount else 0) && (isAlive <==> health > 0)
      ensures death.Some? <==> old(isAlive) && amount >= old(health)
      ensures death.Some? ==> death.value == Death(id, position, preset.lootTable, preset.xpReward)
    {
      if !isAlive {
        return None;
      }
      var newHealth := if health > amount then health - amount else 0;
      health := newHealth;
      death := None;
      if newHealth <= 0 {
        isAlive := false;
        death := Some(Death(id, position, preset.lootTable, preset.xpReward));
      }
    }
  }

  /** The population controller of the world page. */
  class Population {
    var enemies: seq<Roster.EnemySpawn>
    var lootDrops: seq<LootItem>
    var spawnCounter: nat

    constructor ()
      ensures enemies == InitialEnemies && lootDrops == [] && spawnCounter == 0
    {
      enemies := InitialEnemies;
      lootDrops := [];
      spawnCounter := 0;
    }

    /** One firing of the six-second respawn interval, which only runs while
        the game is not paused: below four alive zone-1 enemies, one enemy is
        appended and the counter advances. */
    method RespawnTick(store: Store.GameStore, pointDraw: real, golemDraw: real, now: nat)
      requires Drops.IsDraw(pointDraw)
      modifies this
      ensures lootDrops == old(lootDrops)
      ensures store.state.isPaused || Roster.AliveInZone(old(enemies), 1) >= Zone1Floor ==>
        enemies == old(enemies) && spawnCounter == old(spawnCounter)
      ensures !store.state.isPaused && Roster.AliveInZone(old(enemies), 1) < Zone1Floor ==>
        && enemies == old(enemies) + [WorldSpawn(pointDraw, golemDraw, now, old(spawnCounter))]
        && spawnCounter == old(spawnCounter) + 1
    {
      if store.state.isPaused {
        return;
      }
      var zone1Alive := Roster.AliveInZone(enemies, 1);
      if zone1Alive < Zone1Floor {
        var newEnemy := WorldSpawn(pointDraw, golemDraw, now, spawnCounter);
        spawnCounter := spawnCounter + 1;
        enemies := enemies + [newEnemy];
      }
    }

    /** handleEnemyDeath: the id is marked dead, the XP reward is granted, each
        loot entry is rolled in table order, then one to three coins drop. */
    method HandleEnemyDeath(store: Store.GameStore, death: Death, rolls: Drops.DeathRolls)
      requires Drops.RollsFit(rolls, death.lootTable)
      modifies this, store
      ensures enemies == Roster.MarkDead(old(enemies), death.id)
      ensures store.state == Game.AddXp(old(store.state), death.xpReward)
      ensures lootDrops == old(lootDrops) + Drops.WorldDeathDrops(death.lootTable, rolls, death.position)
      ensures spawnCounter == old(spawnCounter)
    {
      enemies := Roster.MarkDead(enemies, death.id);
      store.AddXp(death.xpReward);
      ghost var afterXp := store.state;
      ghost var before := lootDrops;
      DropRolledLoot(death.lootTable, rolls.loot, death.position);
      var coins := rolls.coins[..Drops.CoinCount(rolls.coinDraw)];
      DropCoins(death.position, coins);
      assert store.state == afterXp;
      ghost var loot := Drops.RolledLoot(death.lootTable, rolls.loot, death.position);
      ghost var coinItems := Drops.CoinDrops(death.position, coins);
      Drops.WorldDeathDropsParts(death.lootTable, rolls, death.position);
      assert lootDrops == (before + loot) + coinItems;
      assert (before + loot) + coinItems == before + (loot + coinItems);
    }

    /** The loot-table `forEach`: each entry whose draw comes up appends its item. */
    method DropRolledLoot(table: seq<LootDrop>, rolls: seq<Drops.LootRoll>, at: Vec3)
      requires |rolls| == |table|
      modifies this
      ensures lootDrops == old(lootDrops) + Drops.RolledLoot(table, rolls, at)
      ensures enemies == old(enemies) && spawnCounter == old(spawnCounter)
    {
      var i := 0;
      while i < |table|
        invariant 0 <= i <= |table|
        invariant lootDrops == old(lootDrops) + Drops.RolledLoot(table[..i], rolls[..i], at)
        invariant enemies == old(enemies) && spawnCounter == old(spawnCounter)
      {
        Drops.RolledLootSnoc(table, rolls, at, i);
        if rolls[i].draw < table[i].chance {
          lootDrops := lootDrops + [Drops.DropItem(table[i], rolls[i].id, at)];
        }
        i := i + 1;
      }
      assert table[..i] == table && rolls[..i] == rolls;
    }

    /** The coin `for` loop: one coin item per roll. */
    method DropCoins(at: Vec3, coins: seq<Drops.CoinRoll>)
      modifies this
      ensures lootDrops == old(lootDrops) + Drops.CoinDrops(at, coins)
      ensures enemies == old(enemies) && spawnCounter == old(spawnCounter)
    {
      for k := 0 to |coins|
        invariant lootDrops == old(lootDrops) + Drops.CoinDrops(at, coins[..k])
        invariant enemies == old(enemies) && spawnCounter == old(spawnCounter)
      {
        assert coins[..k + 1][..k] == coins[..k];
        lootDrops := lootDrops + [Drops.CoinItem(at, coins[k])];
      }
      assert coins[..|coins|] == coins;
    }
  }
}
