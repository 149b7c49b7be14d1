/** The zone-0 page's enemy controller: a fixed roster of practice enemies
    that never respawn, the death handler (XP and rolled loot, with the
    `getWeaponById(v) || v` fallback for weapon entries) and the
    loot-collected handler. */
module Zone0Enemies {
  import opened Types
  import Game
  import Store
  import EnemyData
  import Roster
  import Drops

  /** A training dummy and three practice slimes. */
  const InitialEnemies: seq<Roster.EnemySpawn> := [
    Roster.EnemySpawn("training-1", "training-dummy", Vec3(-8.0, 0.8, -3.0), 0, true),
    Roster.EnemySpawn("practice-1", "practice-slime", Vec3(10.0, 0.6, -8.0), 0, true),
    Roster.EnemySpawn("practice-2", "practice-slime", Vec3(-12.0, 0.6, 8.0), 0, true),
    Roster.EnemySpawn("practice-3", "practice-slime", Vec3(6.0, 0.6, 12.0), 0, true)]

  /** The page starts with four live enemies of known presets. */
  lemma InitialRosterShape()
    ensures |InitialEnemies| == 4 && Roster.AliveCount(InitialEnemies) == 4
    ensures forall k :: 0 <= k < 4 ==> InitialEnemies[k].isAlive && InitialEnemies[k].presetId in EnemyData.Presets
  {
    var xs := InitialEnemies;
    assert xs[..0] == [];
    assert xs[..1][..0] == xs[..0] && xs[..1][0] == xs[0];
    assert Roster.AliveCount(xs[..1]) == 1;
    assert xs[..2][..1] == xs[..1] && xs[..2][1] == xs[1];
    assert Roster.AliveCount(xs[..2]) == 2;
    assert xs[..3][..2] == xs[..2] && xs[..3][2] == xs[2];
    assert Roster.AliveCount(xs[..3]) == 3;
    assert xs[..4][..3] == xs[..3] && xs[..4][3] == xs[3];
    assert Roster.AliveCount(xs[..4]) == 4;
    assert xs[..4] == xs;
  }

  /** The roster after a run of deaths, in order. */
  function AfterDeaths(xs: seq<Roster.EnemySpawn>, ids: seq<string>): seq<Roster.EnemySpawn>
    decreases |ids|
  {
    if |ids| == 0 then xs else AfterDeaths(Roster.MarkDead(xs, ids[0]), ids[1..])
  }

  /** With no respawn timer the roster is only ever rewritten entry by entry:
      whatever dies, its length stays the same, no entry comes back to life
      and the live count never grows. */
  lemma {:induction false} DeathsKeepRoster(xs: seq<Roster.EnemySpawn>, ids: seq<string>)
    ensures |AfterDeaths(xs, ids)| == |xs|
    ensures forall k :: 0 <= k < |xs| && AfterDeaths(xs, ids)[k].isAlive ==> xs[k].isAlive
    ensures forall k :: 0 <= k < |xs| ==> AfterDeaths(xs, ids)[k].id == xs[k].id
    ensures Roster.AliveCount(AfterDeaths(xs, ids)) <= Roster.AliveCount(xs)
    decreases |ids|
  {
    if |ids| > 0 {
      var ys := Roster.MarkDead(xs, ids[0]);
      Roster.MarkDeadAlive(xs, ids[0]);
      DeathsKeepRoster(ys, ids[1..]);
      var zs := AfterDeaths(xs, ids);
      assert zs == AfterDeaths(ys, ids[1..]);
      forall k | 0 <= k < |xs|
        ensures (zs[k].isAlive ==> xs[k].isAlive) && zs[k].id == xs[k].id
      {
        assert ys[k].id == xs[k].id && (ys[k].isAlive ==> xs[k].isAlive);
      }
    }
  }

  class Population {
    var enemies: seq<Roster.EnemySpawn>
    var lootDrops: seq<LootItem>

    constructor ()
      ensures enemies == InitialEnemies && lootDrops == []
    {
      enemies := InitialEnemies;
      lootDrops := [];
    }

    /** handleEnemyDeath: the id is marked dead, the XP reward is granted, and
        each loot entry is rolled in table order; a weapon entry's value is the
        catalogued weapon when there is one, otherwise the raw entry value. */
    method HandleEnemyDeath(store: Store.GameStore, death: Death, rolls: seq<Drops.LootRoll>)
      requires |rolls| == |death.lootTable|
      modifies this, store
      ensures enemies == Roster.MarkDead(old(enemies), death.id)
      ensures |enemies| == |old(enemies)|
      ensures store.state == Game.AddXp(old(store.state), death.xpReward)
      ensures lootDrops == old(lootDrops) + Drops.RolledLoot(death.lootTable, rolls, death.position)
    {
      enemies := Roster.MarkDead(enemies, death.id);
      store.AddXp(death.xpReward);
      ghost var afterXp := store.state;
      var table, at := death.lootTable, death.position;
      var i := 0;
      while i < |table|
        invariant 0 <= i <= |table|
        invariant lootDrops == old(lootDrops) + Drops.RolledLoot(table[..i], rolls[..i], at)
        invariant enemies == Roster.MarkDead(old(enemies), death.id)
        invariant store.state == afterXp
      {
        Drops.RolledLootSnoc(table, rolls, at, i);
        var drop := table[i];
        if rolls[i].draw < drop.chance {
          var item := LootItem(rolls[i].id, drop.kind, Drops.ResolveValueOrFallback(drop.kind, drop.value),
                               Vec3(at.x, 0.5, at.z));
          Drops.ResolutionsAgree(drop.kind, drop.value);
          lootDrops := lootDrops + [item];
        }
        i := i + 1;
      }
      assert table[..i] == table && rolls[..i] == rolls;
    }

    /** handleLootCollected: removes exactly the items with that id and keeps
        the others in order. */
    method HandleLootCollected(lootId: string)
      modifies this
      ensures lootDrops == Game.RemoveWhere(old(lootDrops), (l: LootItem) => l.id, lootId)
      ensures forall l :: l in lootDrops <==> l in old(lootDrops) && l.id != lootId
      ensures enemies == old(enemies)
    {
      lootDrops := Game.RemoveWhere(lootDrops, (l: LootItem) => l.id, lootId);
    }
  }
}
