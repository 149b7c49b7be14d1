/** The enemy preset catalogue and the preset-to-instance constructor. */
module EnemyData {
  import opened Types
  import Weapons

  const TrainingDummy := EnemyPreset(
    "Training Dummy", SmallEnemy, 50, 50, 0.6, "#888888", 0.0, 0, Training, None, None,
    [], 5)

  const SmallSlime := EnemyPreset(
    "Small Slime", SmallEnemy, 30, 30, 0.5, "#ef4444", 3.0, 5, Hostile, None, None,
    [LootDrop(XpLoot, 1.0, NumberValue(10)), LootDrop(HealthLoot, 0.3, NumberValue(20))], 15)

  const PracticeSlime := EnemyPreset(
    "Practice Slime", SmallEnemy, 20, 20, 0.4, "#f97316", 1.5, 3, Hostile, None, None,
    [LootDrop(XpLoot, 1.0, NumberValue(5))], 8)

  const BigGolem := EnemyPreset(
    "Stone Golem", BigEnemy, 150, 150, 1.2, "#dc2626", 1.5, 20, Hostile, None, None,
    [LootDrop(XpLoot, 1.0, NumberValue(50)),
     LootDrop(WeaponLoot, 0.2, IdValue("blue-blaster")),
     LootDrop(HealthLoot, 0.5, NumberValue(50))], 50)

  /** The ENEMY_PRESETS record, keyed by preset id. */
  const Presets: map<string, EnemyPreset> := map[
    "training-dummy" := TrainingDummy,
    "small-slime" := SmallSlime,
    "practice-slime" := PracticeSlime,
    "big-golem" := BigGolem]

  /** A loot table whose chances are probabilities and whose weapon entries name
      catalogued weapons. */
  predicate SoundLootTable(table: seq<LootDrop>) {
    forall i :: 0 <= i < |table| ==>
      && 0.0 <= table[i].chance <= 1.0
      && (table[i].kind == WeaponLoot ==>
            table[i].value.IdValue? && table[i].value.id in Weapons.Catalogue)
  }

  /** Every preset starts at full health and has a sound loot table; in
      particular the one weapon drop, "blue-blaster", is in the weapon catalogue. */
  lemma PresetsAreConsistent()
    ensures Presets.Keys == {"training-dummy", "small-slime", "practice-slime", "big-golem"}
    ensures forall k :: k in Presets ==>
      Presets[k].health == Presets[k].maxHealth && SoundLootTable(Presets[k].lootTable)
  {
    assert "blue-blaster" in Weapons.Catalogue;
    forall k | k in Presets
      ensures Presets[k].health == Presets[k].maxHealth && SoundLootTable(Presets[k].lootTable)
    {
      assert k == "training-dummy" || k == "small-slime" || k == "practice-slime" || k == "big-golem";
    }
  }

  /** The training dummy never moves, never hurts and drops nothing. */
  lemma TrainingDummyIsInert()
    ensures "training-dummy" in Presets
    ensures var p := Presets["training-dummy"];
      p.speed == 0.0 && p.damage == 0 && p.behavior == Training && p.lootTable == []
  {
  }

  /** createEnemy: None for an unknown preset id; otherwise the given id with
      every preset field, at full health. */
  function CreateEnemy(presetId: string, id: string): (r: Option<Enemy>)
    ensures r.None? <==> presetId !in Presets
    ensures r.Some? ==>
      && r.value.id == id
      && r.value.stats == Presets[presetId].(health := Presets[presetId].maxHealth)
      && r.value.stats.health == r.value.stats.maxHealth
  {
    if presetId !in Presets then None
    else
      var preset := Presets[presetId];
      Some(Enemy(id, preset.(health := preset.maxHealth)))
  }
}
