/** What an enemy death drops: the loot-table roll shared by the death
    handlers, the weapon-value resolution, and the coin shower of the world
    handler.  Random draws and generated ids are given as inputs. */
module Drops {
  import opened Types
  import Weapons
  import EnemyData

  /** The draw and the fresh id used for one loot-table entry. */
  datatype LootRoll = LootRoll(draw: real, id: string)

  /** The fresh id and the two offset draws used for one coin. */
  datatype CoinRoll = CoinRoll(id: string, dx: real, dz: real)

  /** Every random input one world death consumes. */
  datatype DeathRolls = DeathRolls(loot: seq<LootRoll>, coinDraw: real, coins: seq<CoinRoll>)

  /** A draw of `Math.random()`. */
  predicate IsDraw(r: real) {
    0.0 <= r < 1.0
  }

  /** An entry's value taken as it stands. */
  function AsItem(v: DropValue): (r: LootValue)
    ensures v.NumberValue? ==> r == NumberItem(v.n)
    ensures v.IdValue? ==> r == IdItem(v.id)
  {
    match v
    case NumberValue(n) => NumberItem(n)
    case IdValue(id) => IdItem(id)
  }

  /** The world and zone-1 handlers: the value is taken as it stands, and a
      weapon entry whose id is catalogued is replaced by that weapon. */
  function ResolveValue(kind: LootType, v: DropValue): (r: LootValue)
    ensures r.WeaponItem? <==> kind == WeaponLoot && v.IdValue? && v.id in Weapons.Catalogue
    ensures r.WeaponItem? ==> r.weapon == Weapons.Catalogue[v.id] && r.weapon.id == v.id
    ensures !r.WeaponItem? ==> r == AsItem(v)
  {
    var value := AsItem(v);
    if kind == WeaponLoot && v.IdValue? then
      match Weapons.GetWeaponById(v.id)
      case Some(w) => WeaponItem(w)
      case None => value
    else value
  }

  /** The lookup `getWeaponById(v)` on an entry value; a number names no weapon. */
  function LookupValue(v: DropValue): (r: Option<Weapon>)
    ensures r.Some? <==> v.IdValue? && v.id in Weapons.Catalogue
  {
    if v.IdValue? then Weapons.GetWeaponById(v.id) else None
  }

  /** The zone-0 handler: `type === 'weapon' ? getWeaponById(v) || v : v`. */
  function ResolveValueOrFallback(kind: LootType, v: DropValue): (r: LootValue)
    ensures kind != WeaponLoot ==> r == AsItem(v)
  {
    if kind == WeaponLoot then
      match LookupValue(v)
      case Some(w) => WeaponItem(w)
      case None => AsItem(v)
    else AsItem(v)
  }

  /** The two resolution styles agree on every entry: an unknown weapon id is
      kept as the raw id by both. */
  lemma ResolutionsAgree(kind: LootType, v: DropValue)
    ensures ResolveValueOrFallback(kind, v) == ResolveValue(kind, v)
  {
  }

  /** Every entry of every preset table resolves to a value of its own type:
      a weapon entry to a catalogued weapon, any other entry to an amount. */
  lemma PresetDropsResolve(presetId: string, i: nat)
    requires presetId in EnemyData.Presets
    requires i < |EnemyData.Presets[presetId].lootTable|
    ensures var d := EnemyData.Presets[presetId].lootTable[i];
      var r := ResolveValue(d.kind, d.value);
      (d.kind == WeaponLoot ==> r.WeaponItem?) && (d.kind != WeaponLoot ==> r.NumberItem?)
  {
    EnemyData.PresetsAreConsistent();
  }

  /** The item one entry yields: the resolved value at the death spot, on the
      ground plane y = 0.5. */
  function DropItem(drop: LootDrop, id: string, at: Vec3): (item: LootItem)
    ensures item.kind == drop.kind && item.id == id
    ensures item.value == ResolveValue(drop.kind, drop.value)
    ensures item.position == Vec3(at.x, 0.5, at.z)
  {
    LootItem(id, drop.kind, ResolveValue(drop.kind, drop.value), Vec3(at.x, 0.5, at.z))
  }

  /** Whether the entry's draw comes up: `Math.random() < drop.chance`. */
  predicate Drops(drop: LootDrop, roll: LootRoll) {
    roll.draw < drop.chance
  }

  /** The items a loot table yields, in table order: one per entry whose draw
      comes up. */
  function RolledLoot(table: seq<LootDrop>, rolls: seq<LootRoll>, at: Vec3): (r: seq<LootItem>)
    requires |rolls| == |table|
    ensures |r| <= |table|
    ensures forall k :: 0 <= k < |r| ==> r[k].position == Vec3(at.x, 0.5, at.z)
    decreases |table|
  {
    if |table| == 0 then []
    else
      var n := |table| - 1;
      RolledLoot(table[..n], rolls[..n], at) +
        (if Drops(table[n], rolls[n]) then [DropItem(table[n], rolls[n].id, at)] else [])
  }

  /** One more table entry: the items of the prefix, then that entry's item
      if its draw comes up. */
  lemma RolledLootSnoc(table: seq<LootDrop>, rolls: seq<LootRoll>, at: Vec3, i: nat)
    requires |rolls| == |table| && i < |table|
    ensures RolledLoot(table[..i + 1], rolls[..i + 1], at) ==
      RolledLoot(table[..i], rolls[..i], at) +
        (if Drops(table[i], rolls[i]) then [DropItem(table[i], rolls[i].id, at)] else [])
  {
    assert table[..i + 1][..i] == table[..i];
    assert rolls[..i + 1][..i] == rolls[..i];
  }

  /** Each entry is rolled on its own: an item is dropped exactly when some
      entry's own draw comes up and the item is that entry's item. */
  lemma {:induction false} RolledLootMembers(table: seq<LootDrop>, rolls: seq<LootRoll>, at: Vec3, item: LootItem)
    requires |rolls| == |table|
    ensures item in RolledLoot(table, rolls, at) <==>
      exists i :: 0 <= i < |table| && Drops(table[i], rolls[i]) && item == DropItem(table[i], rolls[i].id, at)
    decreases |table|
  {
    if |table| > 0 {
      var n := |table| - 1;
      RolledLootMembers(table[..n], rolls[..n], at, item);
      if exists i :: 0 <= i < |table| && Drops(table[i], rolls[i]) && item == DropItem(table[i], rolls[i].id, at) {
        var i :| 0 <= i < |table| && Drops(table[i], rolls[i]) && item == DropItem(table[i], rolls[i].id, at);
        if i < n {
          assert table[..n][i] == table[i] && rolls[..n][i] == rolls[i];
        }
      }
    }
  }

  /** An entry with chance 1 always drops and an entry with chance 0 never
      does, whatever the draw. */
  lemma CertainAndImpossibleDrops(drop: LootDrop, roll: LootRoll)
    requires IsDraw(roll.draw)
    ensures drop.chance >= 1.0 ==> Drops(drop, roll)
    ensures drop.chance <= 0.0 ==> !Drops(drop, roll)
  {
  }

  /** `Math.floor(Math.random() * 3) + 1`: one to three coins. */
  function CoinCount(draw: real): (n: nat)
    requires IsDraw(draw)
    ensures 1 <= n <= 3
    ensures (n - 1) as real <= draw * 3.0 < n as real
  {
    var f := (draw * 3.0).Floor;
    assert 0 <= f < 3;
    f as nat + 1
  }

  /** One coin: value 1, scattered around the death spot by up to one unit on
      each ground axis. */
  function CoinItem(at: Vec3, c: CoinRoll): (item: LootItem)
    ensures item.id == c.id && item.kind == CoinLoot && item.value == NumberItem(1)
    ensures item.position == Vec3(at.x + (c.dx - 0.5) * 2.0, 0.5, at.z + (c.dz - 0.5) * 2.0)
  {
    LootItem(c.id, CoinLoot, NumberItem(1), Vec3(at.x + (c.dx - 0.5) * 2.0, 0.5, at.z + (c.dz - 0.5) * 2.0))
  }

  /** The coins a death drops, one per roll, in order. */
  function CoinDrops(at: Vec3, coins: seq<CoinRoll>): (r: seq<LootItem>)
    ensures |r| == |coins|
    ensures forall k :: 0 <= k < |r| ==> r[k] == CoinItem(at, coins[k])
    decreases |coins|
  {
    if |coins| == 0 then []
    else CoinDrops(at, coins[..|coins| - 1]) + [CoinItem(at, coins[|coins| - 1])]
  }

  /** Every coin is worth 1 and lands within one unit of the death spot on
      each ground axis, at y = 0.5. */
  lemma CoinsNearDeathSpot(at: Vec3, coins: seq<CoinRoll>)
    requires forall k :: 0 <= k < |coins| ==> IsDraw(coins[k].dx) && IsDraw(coins[k].dz)
    ensures forall item :: item in CoinDrops(at, coins) ==>
      && item.kind == CoinLoot && item.value == NumberItem(1) && item.position.y == 0.5
      && at.x - 1.0 <= item.position.x < at.x + 1.0
      && at.z - 1.0 <= item.position.z < at.z + 1.0
  {
    var r := CoinDrops(at, coins);
    forall item | item in r
      ensures && item.kind == CoinLoot && item.value == NumberItem(1) && item.position.y == 0.5
              && at.x - 1.0 <= item.position.x < at.x + 1.0
              && at.z - 1.0 <= item.position.z < at.z + 1.0
    {
      var k :| 0 <= k < |r| && r[k] == item;
      assert item == CoinItem(at, coins[k]);
    }
  }

  /** Well-formed random inputs for a world death over a given table. */
  predicate RollsFit(rolls: DeathRolls, table: seq<LootDrop>) {
    && |rolls.loot| == |table|
    && IsDraw(rolls.coinDraw)
    && |rolls.coins| >= CoinCount(rolls.coinDraw)
  }

  /** Everything a world death adds to the drop list: the rolled loot, then
      between one and three coins. */
  function WorldDeathDrops(table: seq<LootDrop>, rolls: DeathRolls, at: Vec3): (r: seq<LootItem>)
    requires RollsFit(rolls, table)
    ensures |r| == |RolledLoot(table, rolls.loot, at)| + CoinCount(rolls.coinDraw)
    ensures r[..|RolledLoot(table, rolls.loot, at)|] == RolledLoot(table, rolls.loot, at)
    ensures 1 <= |r| - |RolledLoot(table, rolls.loot, at)| <= 3
    ensures forall k :: |RolledLoot(table, rolls.loot, at)| <= k < |r| ==>
      && r[k] == CoinItem(at, rolls.coins[k - |RolledLoot(table, rolls.loot, at)|])
      && r[k].kind == CoinLoot && r[k].value == NumberItem(1)
  {
    var loot := RolledLoot(table, rolls.loot, at);
    var coins := CoinDrops(at, rolls.coins[..CoinCount(rolls.coinDraw)]);
    var r := loot + coins;
    assert r[..|loot|] == loot;
    assert forall k :: |loot| <= k < |r| ==> r[k] == coins[k - |loot|];
    r
  }

  /** The world drop list in two parts: the rolled loot, then the coins of
      the first `CoinCount` rolls. */
  lemma WorldDeathDropsParts(table: seq<LootDrop>, rolls: DeathRolls, at: Vec3)
    requires RollsFit(rolls, table)
    ensures WorldDeathDrops(table, rolls, at) ==
      RolledLoot(table, rolls.loot, at) + CoinDrops(at, rolls.coins[..CoinCount(rolls.coinDraw)])
  {
  }
}
