# Circle Realms — a verified model of the game rules

Circle Realms is a browser action game: a player walks concentric zones, shoots
enemies, collects loot, levels up and buys weapons from a merchant. This project
models its game-rule layer in Dafny and proves properties of that model:

- the authoritative store (module `Game` for the transitions, class `Store.GameStore`
  for the mutable holder). Every action keeps the store invariant: `hp <= maxHp`,
  the level follows the XP curve, owned weapon ids are unique and the equipped id
  is owned;
- the weapon and enemy catalogues (`Weapons`, `EnemyData`);
- the enemy tick, shared by both enemy components (`EnemyAi`). It covers chase,
  the attack cooldown and fall recovery;
- the enemy components with their health, life flag and death report
  (`CanvasEnemy.Enemy`, `WorldEnemies.LabelledEnemy`);
- the three population controllers (`WorldEnemies`, `Zone1Enemies`, `Zone0Enemies`).
  They cover respawn floors, the death handler's XP, the loot rolls and coins, and
  the roster lists (`Roster`, `Drops`);
- the loot pickup (`LootPickup`);
- the weapon controller (`Combat`). It covers the fire-rate gate, click and touch
  fire, and the per-frame projectile pass with range expiry and hits;
- the player controller (`PlayerControl`). It covers zone bands, movement keys and
  jump gating;
- the merchant's shop (`Shop`) and the NPC interaction gate (`Npcs`).

Random draws, timestamps, generated ids, body positions and distances are inputs
of the model. Where a length is needed (the distance from an enemy to the player,
the length of a direction to normalise), it comes in together with the
precondition `len * len == sum of squares`. Components that call store actions
take the store object as a parameter.

Two behaviours of the code are easy to get wrong, and the model follows the code
in both:

- A weapon loot entry whose id is not in the catalogue is still dropped, with the
  raw id as its value. All three death handlers behave this way; see
  `Drops.ResolutionsAgree`.
- Without an equipped weapon, projectiles already in flight still move, expire and
  hit. The per-frame pass is guarded only by the pause flag
  (src/components/canvas/Weapon.tsx:96-135).

The model also keeps two details of the code that are easy to miss: `resetGame`
leaves the shop flag as it was, and `getEquippedWeapon` treats an empty equipped id
like a missing one.

## Model

| member | source | states |
|---|---|---|
| Types.Normalized | src/components/canvas/Weapon.tsx:69 | three.js `normalize`: the zero vector for length 0, otherwise each component times the length gives back the input |
| Types.DistSq | src/components/canvas/Weapon.tsx:151-153 | the squared distance used instead of `distanceTo` is never negative |
| Types.DecimalString | src/components/world/Enemies.tsx:224 | a number prints as a non-empty run of decimal digits |
| Weapons.CatalogueIsConsistent | src/data/weapons.ts:7-38 | the table holds exactly the three weapons, each filed under its own id, each with positive fire rate, range, speed and size |
| Weapons.GetWeaponById | src/data/weapons.ts:40-42 | a result exactly for catalogued ids, and then the entry with that id; undefined otherwise |
| Weapons.GetStarterWeapon | src/data/weapons.ts:44-46 | the basic pea shooter, which the lookup finds under its own id |
| EnemyData.PresetsAreConsistent | src/data/enemies.ts:7-69 | exactly the four presets, each at full health, every loot chance in [0, 1], and the only weapon drop id ("blue-blaster") is in the weapon catalogue |
| EnemyData.TrainingDummyIsInert | src/data/enemies.ts:8-20 | the training dummy has speed 0, damage 0, training behaviour and an empty loot table |
| EnemyData.CreateEnemy | src/data/enemies.ts:71-80 | null exactly for an unknown preset id; otherwise the given id with every preset field and health equal to maxHealth |
| Game.FloorSqrtBounds | src/store/gameStore.ts:117 | FloorSqrt is the integer square root: r² <= n < (r+1)² |
| Game.CalculateLevel | src/store/gameStore.ts:115-118 | the level is at least 1 |
| Game.LevelBounds | src/store/gameStore.ts:115-118 | the level L satisfies 100(L-1)² <= xp < 100L² |
| Game.SquareMonotone | src/store/gameStore.ts:117 | squaring is monotone on naturals |
| Game.LevelIsLargest | src/store/gameStore.ts:115-118 | the level is the largest L with 100(L-1)² <= xp (both directions) |
| Game.LevelMonotone | src/store/gameStore.ts:155-158 | more XP never gives a lower level |
| Game.InitialInventory | src/store/gameStore.ts:97-102 | the initial inventory holds only the starter weapon |
| Game.InitialIsValid | src/store/gameStore.ts:88-109 | the initial state satisfies the store invariant |
| Game.DamagePlayer | src/store/gameStore.ts:139-146 | hp drops by the amount, floored at 0; the screen becomes gameOver exactly when hp reaches 0; nothing else changes; the invariant is kept |
| Game.HealPlayer | src/store/gameStore.ts:148-153 | hp becomes min(maxHp, hp + amount) and never exceeds maxHp; nothing else changes |
| Game.AddXp | src/store/gameStore.ts:155-169 | xp grows by the amount, the level follows the curve, hp refills to maxHp exactly when the level went up; the level never drops |
| Game.AddCoins | src/store/gameStore.ts:171-176 | coins grow by the amount; nothing else changes |
| Game.SpendCoins | src/store/gameStore.ts:178-190 | succeeds exactly when coins >= amount, then takes exactly the amount; on failure the state is unchanged |
| Game.SetPlayerPosition | src/store/gameStore.ts:192-194 | only the player position changes |
| Game.ResetPlayer | src/store/gameStore.ts:196-198 | the whole player record returns to the initial player: hp and maxHp 100, xp 0, level 1, no coins, position (0, 1, 0); nothing else changes |
| Game.AddWeapon | src/store/gameStore.ts:201-212 | a no-op when a weapon with that id is owned; otherwise the weapon is appended, keeping the order; the id is owned afterwards; the invariant is kept |
| Game.AppendKeepsOwnership | src/store/gameStore.ts:203-209 | appending an unowned id keeps every owned id owned, owns the new one and keeps ids unique |
| Game.AddWeaponIdempotent | src/store/gameStore.ts:202-205 | adding the same weapon twice equals adding it once, and adds at most one entry |
| Game.EquipWeapon | src/store/gameStore.ts:214-223 | only an owned id becomes equipped; the weapon list never changes |
| Game.FindById | src/store/gameStore.ts:228-230 | `find` by id: none exactly when no weapon has the id, otherwise the first listed weapon with that id |
| Game.GetEquippedWeapon | src/store/gameStore.ts:225-231 | null exactly when the equipped id is null, empty or not owned; otherwise the owned weapon with that id |
| Game.SetCurrentZone | src/store/gameStore.ts:234-238 | switching zone always empties the loot and projectile lists |
| Game.SetGameScreen | src/store/gameStore.ts:241-244 | the game is paused exactly when the screen is the pause screen |
| Game.TogglePause | src/store/gameStore.ts:246-249 | flips the pause flag; the screen becomes playing exactly when it was paused |
| Game.TogglePauseTwice | src/store/gameStore.ts:246-249 | toggling twice restores the pause flag |
| Game.StartGame | src/store/gameStore.ts:251-254 | playing and unpaused |
| Game.ResetGame | src/store/gameStore.ts:256-268 | everything back to the initial state except the shop flag; the result satisfies the invariant |
| Game.OpenDialog | src/store/gameStore.ts:271-279 | the dialog opens on line 0 with the given name and lines, and the game pauses |
| Game.AdvanceDialog | src/store/gameStore.ts:281-295 | moves one line on; past the last line the dialog resets to closed and the game unpauses |
| Game.CloseDialog | src/store/gameStore.ts:297-300 | dialog closed and game unpaused |
| Game.OpenShop | src/store/gameStore.ts:303 | the shop opens and the game pauses |
| Game.CloseShop | src/store/gameStore.ts:304 | the shop closes and the game unpauses |
| Game.AdvanceWithinLines | src/store/gameStore.ts:289-294 | while lines remain, m advances move exactly m lines on and change nothing else |
| Game.DialogClosesAfterLastLine | src/store/gameStore.ts:271-295 | a dialog with n >= 1 lines shows its last line, still paused, after n-1 advances and closes and unpauses on the n-th |
| Game.AdvanceTimesSplit | src/store/gameStore.ts:281-295 | n+1 advances are n advances followed by one |
| Game.RemoveWhere | src/store/gameStore.ts:312 | `filter` by id: keeps exactly the elements with another id, never grows, and changes nothing when no element has the id |
| Game.RemoveWhereAppend | src/store/gameStore.ts:312 | the filter distributes over concatenation, so survivors keep their order |
| Game.AddLoot | src/store/gameStore.ts:307-309 | the loot list gains the item at its end |
| Game.RemoveLoot | src/store/gameStore.ts:311-313 | exactly the loot items with that id are removed, the others kept in order |
| Game.ClearLoot | src/store/gameStore.ts:315 | the loot list is emptied, nothing else changes |
| Game.AddProjectile | src/store/gameStore.ts:318-320 | the projectile list gains the projectile at its end |
| Game.RemoveProjectile | src/store/gameStore.ts:322-324 | exactly the projectiles with that id are removed |
| Game.ClearProjectiles | src/store/gameStore.ts:326 | the projectile list is emptied |
| Game.Partialize | src/store/gameStore.ts:330-335 | the saved slice is the player, the inventory and the current zone |
| Game.Rehydrate | src/store/gameStore.ts:124-136 | a loaded state has empty runtime lists and closed modes, gives back the saved slice, and is valid when the slice is |
| Game.PersistenceIgnoresRuntime | src/store/gameStore.ts:330-335 | the saved slice does not depend on loot, projectiles, dialog, shop, pause or screen; save after load is the identity |
| Game.DamageScenario | src/store/gameStore.ts:139-146 | 100 hp hit by 30 is 70 and still playing; a further 80 clamps at 0 and ends the game |
| Store.GameStore.constructor | src/store/gameStore.ts:124-136 | a new store holds the initial state, which is valid |
| Store.GameStore.DamagePlayer | src/store/gameStore.ts:139-146 | the held state becomes `Game.DamagePlayer` of the old one; the invariant is kept |
| Store.GameStore.HealPlayer | src/store/gameStore.ts:148-153 | the held state becomes `Game.HealPlayer` of the old one; the invariant is kept |
| Store.GameStore.AddXp | src/store/gameStore.ts:155-169 | the held state becomes `Game.AddXp` of the old one; the invariant is kept |
| Store.GameStore.AddCoins | src/store/gameStore.ts:171-176 | the held state becomes `Game.AddCoins` of the old one; the invariant is kept |
| Store.GameStore.SpendCoins | src/store/gameStore.ts:178-190 | reads, then writes only when coins >= amount, and reports exactly that |
| Store.GameStore.SetPlayerPosition | src/store/gameStore.ts:192-194 | the held state becomes `Game.SetPlayerPosition` of the old one |
| Store.GameStore.ResetPlayer | src/store/gameStore.ts:196-198 | the held state becomes `Game.ResetPlayer` of the old one |
| Store.GameStore.AddWeapon | src/store/gameStore.ts:201-212 | the held state becomes `Game.AddWeapon` of the old one |
| Store.GameStore.EquipWeapon | src/store/gameStore.ts:214-223 | the held state becomes `Game.EquipWeapon` of the old one |
| Store.GameStore.GetEquippedWeapon | src/store/gameStore.ts:225-231 | a read-only query: null exactly when the equipped id is null, empty or not owned |
| Store.GameStore.SetCurrentZone | src/store/gameStore.ts:234-238 | the held state becomes `Game.SetCurrentZone` of the old one |
| Store.GameStore.SetGameScreen | src/store/gameStore.ts:241-244 | the held state becomes `Game.SetGameScreen` of the old one |
| Store.GameStore.TogglePause | src/store/gameStore.ts:246-249 | the held state becomes `Game.TogglePause` of the old one |
| Store.GameStore.StartGame | src/store/gameStore.ts:251-254 | the held state becomes `Game.StartGame` of the old one |
| Store.GameStore.ResetGame | src/store/gameStore.ts:256-268 | the held state becomes `Game.ResetGame` of the old one |
| Store.GameStore.OpenDialog | src/store/gameStore.ts:271-279 | the held state becomes `Game.OpenDialog` of the old one |
| Store.GameStore.AdvanceDialog | src/store/gameStore.ts:281-295 | the held state becomes `Game.AdvanceDialog` of the old one |
| Store.GameStore.CloseDialog | src/store/gameStore.ts:297-300 | the held state becomes `Game.CloseDialog` of the old one |
| Store.GameStore.OpenShop | src/store/gameStore.ts:303 | the held state becomes `Game.OpenShop` of the old one |
| Store.GameStore.CloseShop | src/store/gameStore.ts:304 | the held state becomes `Game.CloseShop` of the old one |
| Store.GameStore.AddLoot | src/store/gameStore.ts:307-309 | the held state becomes `Game.AddLoot` of the old one |
| Store.GameStore.RemoveLoot | src/store/gameStore.ts:311-313 | the held state becomes `Game.RemoveLoot` of the old one |
| Store.GameStore.ClearLoot | src/store/gameStore.ts:315 | the held state becomes `Game.ClearLoot` of the old one |
| Store.GameStore.AddProjectile | src/store/gameStore.ts:318-320 | the held state becomes `Game.AddProjectile` of the old one |
| Store.GameStore.RemoveProjectile | src/store/gameStore.ts:322-324 | the held state becomes `Game.RemoveProjectile` of the old one |
| Store.GameStore.ClearProjectiles | src/store/gameStore.ts:326 | the held state becomes `Game.ClearProjectiles` of the old one |
| EnemyAi.Pursue | src/components/canvas/Enemy.tsx:48-71 | a non-hostile enemy, or one at distance >= 15, issues nothing. Between 1.5 and 15 a hostile chases along the direction to the player at its speed, keeping vertical velocity. Within 1.5 it stops horizontally and strikes for its damage exactly when more than 1000 ms passed, recording the time |
| EnemyAi.CanvasDecision | src/components/canvas/Enemy.tsx:39-40 | training enemies do nothing; every other enemy takes the shared decision |
| EnemyAi.WorldDecision | src/components/world/Enemies.tsx:78-117 | training enemies do nothing (not even fall recovery); below y = -5 an enemy is put 2 above its spawn point and does nothing else; otherwise the shared decision |
| EnemyAi.ScaledSquares | src/components/world/Enemies.tsx:96-102 | squaring the chase-velocity equations |
| EnemyAi.CancelPositive | src/components/world/Enemies.tsx:96-102 | a cancellation step for the speed bound |
| EnemyAi.ChaseSpeedBounded | src/components/world/Enemies.tsx:96-102 | a chasing enemy moves horizontally no faster than its preset speed |
| EnemyAi.StrikeTimes | src/components/canvas/Enemy.tsx:57-63 | the strikes over a run of frames are at most one per frame |
| EnemyAi.StrikesAreSpaced | src/components/canvas/Enemy.tsx:34-35 | over any run of frames every strike is more than 1000 ms after the previous one (or after the last recorded attack) |
| CanvasEnemy.Reduced | src/components/canvas/Enemy.tsx:78 | `max(0, health - amount)`: never above the health, 0 exactly when the amount covers the health |
| CanvasEnemy.Enemy.constructor | src/components/canvas/Enemy.tsx:26-34 | full health, alive, last attack at 0 |
| CanvasEnemy.Enemy.Tick | src/components/canvas/Enemy.tsx:38-72 | nothing while dead or paused; otherwise the command and the new attack time are the shared decision's, and a strike is exactly one `damagePlayer` |
| CanvasEnemy.Enemy.TakeDamage | src/components/canvas/Enemy.tsx:75-84 | ignored once dead; health becomes `max(0, health - amount)`; a death is reported exactly when a living enemy's health is covered |
| CanvasEnemy.Enemy.Die | src/components/canvas/Enemy.tsx:87-94 | the enemy stops living and reports position, loot table and XP reward |
| CanvasEnemy.DeathReportedOnce | src/components/canvas/Enemy.tsx:75-94 | a fresh enemy hit by any run of projectiles reports at most one death, exactly when the total damage reaches max health, and ends at max health less the total, floored at 0 |
| WorldEnemies.InitialRosterShape | src/components/world/Enemies.tsx:25-44 | eight live entries at height 3 with known presets, three in zone 0 and five in zone 1 |
| WorldEnemies.WorldSpawn | src/components/world/Enemies.tsx:221-234 | a golem exactly when the draw is below 0.15, else a small slime; at a zone-1 spawn point, height 3, alive, zone 1, id `enemy-<now>-<counter>` |
| WorldEnemies.RespawnReachesFloor | src/components/world/Enemies.tsx:218-237 | a respawn below the floor adds exactly one live zone-1 enemy and never passes the floor of 4 |
| WorldEnemies.LabelledEnemy.constructor | src/components/world/Enemies.tsx:60-69 | full health, alive, last attack at 0 |
| WorldEnemies.LabelledEnemy.Tick | src/components/world/Enemies.tsx:77-118 | nothing while dead or paused; otherwise the world decision, with a strike as one `damagePlayer` |
| WorldEnemies.LabelledEnemy.TakeDamage | src/components/world/Enemies.tsx:120-136 | ignored once dead; health `max(0, prev - amount)`; at 0 the enemy dies and reports id, position, loot table and XP reward, exactly once |
| WorldEnemies.Population.constructor | src/components/world/Enemies.tsx:206-208 | the initial roster, no loot, counter 0 |
| WorldEnemies.Population.RespawnTick | src/components/world/Enemies.tsx:214-241 | nothing while paused or with at least 4 live zone-1 enemies; otherwise exactly one spawn is appended and the counter advances |
| WorldEnemies.Population.HandleEnemyDeath | src/components/world/Enemies.tsx:243-289 | marks that id dead, grants exactly the XP reward, and appends the rolled loot followed by 1-3 coins |
| WorldEnemies.Population.DropRolledLoot | src/components/world/Enemies.tsx:255-271 | the loop appends exactly the rolled items, in table order |
| WorldEnemies.Population.DropCoins | src/components/world/Enemies.tsx:274-288 | the loop appends one coin item per roll, in order |
| Zone1Enemies.InitialRosterShape | src/zones/Zone1/Enemies.tsx:21-30 | five live entries with known presets |
| Zone1Enemies.ZoneSpawn | src/zones/Zone1/Enemies.tsx:61-69 | a golem exactly when the draw is below 0.2, else a small slime, alive, at one of the spawn points, id `spawn-<now>-<counter>` |
| Zone1Enemies.RespawnReachesFloor | src/zones/Zone1/Enemies.tsx:57-72 | below 3 live enemies a respawn adds exactly one and never passes 3 |
| Zone1Enemies.Population.constructor | src/zones/Zone1/Enemies.tsx:45-47 | the initial roster, no loot, counter 0 |
| Zone1Enemies.Population.RespawnTick | src/zones/Zone1/Enemies.tsx:53-76 | nothing while paused or with 3 or more live enemies; otherwise exactly one spawn is appended and the counter advances |
| Zone1Enemies.Population.HandleEnemyDeath | src/zones/Zone1/Enemies.tsx:78-113 | marks that id dead, grants exactly the XP reward, appends exactly the rolled loot and no coins |
| Zone1Enemies.Population.HandleLootCollected | src/zones/Zone1/Enemies.tsx:115-117 | removes exactly the items with that id, keeps the rest in order |
| Zone0Enemies.InitialRosterShape | src/zones/Zone0/Enemies.tsx:20-28 | four live entries with known presets |
| Zone0Enemies.DeathsKeepRoster | src/zones/Zone0/Enemies.tsx:43-45 | after any run of deaths the roster has the same length and ids, no entry revives, and the live count never grows |
| Zone0Enemies.Population.constructor | src/zones/Zone0/Enemies.tsx:31-32 | the initial roster, no loot |
| Zone0Enemies.Population.HandleEnemyDeath | src/zones/Zone0/Enemies.tsx:36-64 | marks that id dead with the roster length unchanged, grants exactly the XP reward, appends exactly the rolled loot (weapon entries via `getWeaponById(v) \|\| v`) |
| Zone0Enemies.Population.HandleLootCollected | src/zones/Zone0/Enemies.tsx:66-68 | removes exactly the items with that id, keeps the rest in order |
| Roster.MarkDead | src/components/world/Enemies.tsx:250-252 | same length; entries with that id are marked dead and all others unchanged |
| Roster.MarkDeadNeverRevives | src/zones/Zone1/Enemies.tsx:85-87 | after a death an entry is alive exactly when it was alive and has another id; repeating the death changes nothing |
| Roster.AliveCount | src/zones/Zone1/Enemies.tsx:57 | the live count is at most the roster length |
| Roster.AliveInZone | src/components/world/Enemies.tsx:218 | the live count in a zone is at most the total live count |
| Roster.CountsAppend | src/components/world/Enemies.tsx:236 | appending one entry changes the counts by that entry alone |
| Roster.MarkDeadAlive | src/components/world/Enemies.tsx:250-252 | a death never raises the live count |
| Roster.MarkDeadKills | src/components/world/Enemies.tsx:250-252 | a death naming a live entry lowers the live count |
| Roster.MarkDeadAliveInZone | src/components/world/Enemies.tsx:250-252 | a death never raises a zone's live count |
| Roster.MarkDeadKillsInZone | src/components/world/Enemies.tsx:250-252 | a death naming an entry alive in a zone lowers that zone's live count |
| Roster.SpawnId | src/components/world/Enemies.tsx:224 | the id starts with its prefix and is longer than it |
| Roster.DecimalStringInjective | src/components/world/Enemies.tsx:224 | different numbers print differently |
| Roster.SplitAtDash | src/components/world/Enemies.tsx:224 | in prefix + digits + "-" + digits the dash separates the two numbers |
| Roster.DashSeparates | src/components/world/Enemies.tsx:224 | a shorter digit run puts its dash where the longer has a digit |
| Roster.SpawnIdsUnique | src/components/world/Enemies.tsx:224 | spawn ids are equal exactly when time and counter are, so a counter that never repeats gives unique ids |
| Roster.PickIndex | src/components/world/Enemies.tsx:221 | `floor(draw * n)` for a draw in [0, 1) is a valid index |
| Drops.AsItem | src/zones/Zone0/Enemies.tsx:58 | a value taken as it stands keeps its number or id |
| Drops.ResolveValue | src/components/world/Enemies.tsx:258-262 | a weapon item exactly for a weapon entry whose id is catalogued, then that catalogued weapon; otherwise the raw value |
| Drops.LookupValue | src/zones/Zone0/Enemies.tsx:57 | a weapon exactly for a catalogued id |
| Drops.ResolveValueOrFallback | src/zones/Zone0/Enemies.tsx:56-58 | non-weapon entries keep their value |
| Drops.ResolutionsAgree | src/zones/Zone0/Enemies.tsx:56-58 | the zone-0 `getWeaponById(v) \|\| v` resolution equals the world and zone-1 resolution on every entry |
| Drops.PresetDropsResolve | src/data/enemies.ts:18-66 | every preset loot entry resolves to a value of its own kind: weapons to catalogued weapons, the rest to amounts |
| Drops.DropItem | src/components/world/Enemies.tsx:263-268 | the item has the entry's kind, the resolved value and sits at (x, 0.5, z) of the death spot |
| Drops.RolledLoot | src/components/world/Enemies.tsx:255-271 | at most one item per entry, all at the death spot on y = 0.5 |
| Drops.RolledLootMembers | src/components/world/Enemies.tsx:255-256 | an item drops exactly when some entry's own draw is below its chance and it is that entry's item |
| Drops.CertainAndImpossibleDrops | src/components/world/Enemies.tsx:256 | chance 1 always drops and chance 0 never does |
| Drops.CoinCount | src/components/world/Enemies.tsx:274 | `floor(draw * 3) + 1` is between 1 and 3 |
| Drops.CoinItem | src/components/world/Enemies.tsx:277-286 | a coin item of value 1 offset by (draw - 0.5) * 2 on each ground axis |
| Drops.CoinDrops | src/components/world/Enemies.tsx:276-288 | one coin item per roll, in order |
| Drops.CoinsNearDeathSpot | src/components/world/Enemies.tsx:276-288 | every coin is worth 1 and lands within one unit of the death spot on each ground axis |
| Drops.WorldDeathDrops | src/components/world/Enemies.tsx:255-288 | the rolled loot comes first, followed by exactly `CoinCount(draw)` (1 to 3) coins, each worth 1, one per coin roll in order |
| LootPickup.Appearance | src/components/canvas/Loot.tsx:28-41 | health, xp, weapon and coin loot map one to one onto box, diamond, star and coin shapes |
| LootPickup.ApplyPickup | src/components/canvas/Loot.tsx:60-77 | the store action by kind, each equal to that store transition: health heals (capped at maxHp); xp adds XP, recomputes the level and refills hp on a level-up; weapon appends the weapon when it is new, leaving the equipped id; coin adds coins; a value of the wrong form changes nothing; only player and inventory ever change, never position or maxHp, and the invariant is kept |
| LootPickup.RefillsCombine | src/store/gameStore.ts:155-166 | two level-up refills in a row refill exactly when the final level beats the starting one |
| LootPickup.TwoAddXp | src/store/gameStore.ts:155-166 | two XP grants add the XP, set the level from the total and judge the second refill against the first grant's level |
| LootPickup.LevelsRise | src/store/gameStore.ts:155-158 | from a level on the XP curve, the level after one XP gain and after a second are each at least the one before |
| LootPickup.TwoXpPickups | src/components/canvas/Loot.tsx:65-68 | for a level on the XP curve, two XP pickups add up, and hp refills exactly when the final level beats the starting one |
| LootPickup.XpPickupsCommute | src/components/canvas/Loot.tsx:65-68 | the order of two XP pickups does not matter |
| LootPickup.Pickup.constructor | src/components/canvas/Loot.tsx:17-19 | not yet collected |
| LootPickup.Pickup.HandleCollect | src/components/canvas/Loot.tsx:54-82 | the first touch applies the loot and removes every item with its id; later touches change nothing; afterwards it renders nothing |
| LootPickup.CollectTwice | src/components/canvas/Loot.tsx:54-56 | touching a pickup twice has exactly the effect of touching it once |
| Combat.CanFire | src/components/canvas/Weapon.tsx:61-64 | a shot is allowed exactly when elapsed * fireRate >= 1000, i.e. at least `1000 / fireRate` ms passed; a zero rate never fires |
| Combat.GateScales | src/components/canvas/Weapon.tsx:102-105 | `elapsed >= 1000 / rate` is the same test as `elapsed * rate >= 1000` |
| Combat.FireTimes | src/components/canvas/Weapon.tsx:61-65 | at most one shot per attempt |
| Combat.FireTimesSpaced | src/components/canvas/Weapon.tsx:61-65 | over any run of attempts every shot passes the fire gate against the one before it (the first against the last recorded shot), so shots are at least one fire interval apart |
| Combat.ClickDirection | src/components/canvas/Weapon.tsx:68-70 | flat (y = 0) and proportional to the player-to-mouse offset over its full 3-D length |
| Combat.TouchDirection | src/components/canvas/Weapon.tsx:113-119 | flat and proportional to aimX along (1, 0, -1) plus aimY along (-1, 0, -1) |
| Combat.NewShot | src/components/canvas/Weapon.tsx:78-85 | starts 0.5 above the player with nothing travelled |
| Combat.Advance | src/components/canvas/Weapon.tsx:137-139 | the projectile moves by speed * delta along its direction, and the distance travelled grows by speed * delta; id, weapon and direction are kept |
| Combat.EnemyHits | src/components/canvas/Weapon.tsx:147-155 | exactly the indices of the enemy bodies closer than 1, in order |
| Combat.ToHits | src/components/canvas/Weapon.tsx:157 | one damage call for the weapon's damage per hit body, in the order of the indices |
| Combat.StepShot | src/components/canvas/Weapon.tsx:135-164 | a moved projectile stays exactly when within range and touching no enemy; its hits are exactly the enemies it reaches while in range |
| Combat.StepShotHitsOnce | src/components/canvas/Weapon.tsx:147-161 | in range, the damage calls are one per touched enemy, in body order, for the weapon's damage, so no enemy is hit twice by one projectile; out of range there are none |
| Combat.StepAll | src/components/canvas/Weapon.tsx:135-164 | the filter pass never grows the list |
| Combat.StepAllKeeps | src/components/canvas/Weapon.tsx:135-164 | the projectiles left after a frame are exactly those whose own step kept them, in their old order |
| Combat.StepAllSurvivors | src/components/canvas/Weapon.tsx:135-164 | a projectile remains after a frame exactly when it is some old projectile moved, in range and touching no enemy |
| Combat.StepAllHitsInOrder | src/components/canvas/Weapon.tsx:135-164 | a frame's damage calls are each projectile's own calls, joined in projectile order, with none merged, dropped or repeated |
| Combat.StepAllHits | src/components/canvas/Weapon.tsx:147-161 | a damage call happens exactly when some projectile, moved and in range, reaches an enemy body |
| Combat.CollideBodies | src/components/canvas/Weapon.tsx:147-161 | the loop over bodies collects exactly the enemy bodies closer than 1 |
| Combat.WeaponController.constructor | src/components/canvas/Weapon.tsx:30-31 | no projectiles, last fire at 0 |
| Combat.WeaponController.HandleClick | src/components/canvas/Weapon.tsx:55-88 | paused, unarmed or gated clicks change nothing; otherwise one flat shot towards the mouse is appended and the time recorded |
| Combat.WeaponController.TouchFire | src/components/canvas/Weapon.tsx:99-132 | with a weapon and outside the gate one shot along the aim stick is appended and the time recorded |
| Combat.WeaponController.Frame | src/components/canvas/Weapon.tsx:95-165 | nothing while paused; otherwise touch fire, then the filter pass over every projectile, armed or not |
| Combat.StepOne | src/components/canvas/Weapon.tsx:135-164 | one projectile's turn equals `StepShot`; a survivor is within range and hits nothing |
| Combat.StepProjectiles | src/components/canvas/Weapon.tsx:135-164 | the loop equals `StepAll`; every survivor is within range |
| PlayerControl.FirstBand | src/components/canvas/Player.tsx:78-86 | none exactly when no band holds the distance; otherwise the zone of the first band that does |
| PlayerControl.ClassifyZone | src/components/canvas/Player.tsx:77-86 | the `for … break` scan returns the first matching band |
| PlayerControl.ZoneByDistance | src/components/canvas/Player.tsx:53-57 | [0, 15) is zone 0, [15, 30) zone 1, [30, 55) zone 2, beyond 55 no zone |
| PlayerControl.ZoneUpdate | src/components/canvas/Player.tsx:80-83 | the zone changes only to a matched band's zone different from the current one, and only then are loot and projectiles cleared |
| PlayerControl.Axis | src/components/canvas/Player.tsx:91-102 | opposite keys cancel; the axis is +1, 0 or -1 |
| PlayerControl.MoveVector | src/components/canvas/Player.tsx:89-102 | flat, and zero exactly when both axes cancel |
| PlayerControl.Steer | src/components/canvas/Player.tsx:104-122 | moving keys give speed 8 along the normalised direction; no movement damps horizontal velocity by 0.9; vertical velocity kept |
| PlayerControl.JumpStep | src/components/canvas/Player.tsx:125-138 | a jump needs the flag, sets the vertical velocity to 6 and clears the flag; the flag returns when low and not rising |
| PlayerControl.JumpNeedsLanding | src/components/canvas/Player.tsx:125-138 | no double jump: after a jump the flag is back only after some frame found the body grounded |
| PlayerControl.PlayerController.constructor | src/components/canvas/Player.tsx:43 | the jump flag starts set |
| PlayerControl.PlayerController.Frame | src/components/canvas/Player.tsx:60-140 | nothing while paused; otherwise the position is stored, the zone updated, and the velocity is the key step followed by the jump step |
| Shop.ShopCatalogueFacts | src/components/ui/ShopUI.tsx:10-63 | four items with distinct ids, well-formed weapons and rising prices; the shop's blue blaster shares its id but not its stats with the catalogue's |
| Shop.Purchase | src/components/ui/ShopUI.tsx:79-103 | ownership by id is checked first, then the balance with shortfall `price - coins`; both errors leave the store unchanged; success takes exactly the price and appends and equips the weapon; the invariant is kept |
| Shop.BuyTwiceChargesOnce | src/components/ui/ShopUI.tsx:81-86 | a second purchase of the same item finds it owned and changes nothing |
| Shop.ShopPanel.constructor | src/components/ui/ShopUI.tsx:76 | no message |
| Shop.ShopPanel.HandleBuy | src/components/ui/ShopUI.tsx:79-103 | the store actions leave exactly the state `Purchase` describes, and the message shown is its message |
| Npcs.Interact | src/components/world/NPCs.tsx:83-94 | nothing unless a player body touches while no dialog or shop is open; the merchant opens the shop and never the dialog; any other NPC opens its dialog on line 0; an interaction pauses |
| Npcs.InteractionsDoNotStack | src/components/world/NPCs.tsx:86 | for any NPCs and colliders: after an interaction fires, no further interaction fires until the dialog or shop is closed |
| Npcs.RosterShape | src/components/world/NPCs.tsx:21-44 | the merchant has no lines and never changes the dialog; the guide has six lines |
| Npcs.Npc.constructor | src/components/world/NPCs.tsx:52 | not near |
| Npcs.Npc.ProximityEnter | src/components/world/NPCs.tsx:68-74 | near after a player body enters; other bodies ignored |
| Npcs.Npc.ProximityExit | src/components/world/NPCs.tsx:76-81 | not near after a player body exits; other bodies ignored |
| Npcs.Npc.HandleInteract | src/components/world/NPCs.tsx:83-94 | the store actions leave exactly the state `Interact` describes |

## Left out

- Physics integration, rendering, meshes, labels, health-bar colours, camera follow, sounds and logging. Bodies' positions, velocities and distances are inputs; velocity and teleport commands are outputs.
- `Math.sqrt` and vector normalisation: lengths come in as inputs with `len * len` equal to the sum of squares, and zone bands compare squared distances.
- `Math.random`, `Date.now` and the `proj-`/`loot-`/`coin-` ids: the draws, times and ids are inputs. Only the respawn ids, built from the time and a counter, are modelled.
- Scheduling by `setInterval`, `useEffect` and `useFrame`: each interval firing or frame is one method call.
- React state batching and stale closures: several deaths reported within one render, or `takeDamage` reading an outdated `health`, are not modelled; each call sees the latest state.
- The null guards on the physics body reference (`if (rigidBodyRef.current)`): the body is assumed mounted, so a death is always reported.
- The zustand `persist` middleware and storage: only the `partialize` projection and loading by merging into the initial state are modelled.
- Turrets, the `passive` behaviour's own rules and the `fireRate`/`detectionRadius` preset fields: no code acts on them.
- LootPickup.ApplyPickup: an item whose value does not match its kind (an xp item holding a weapon, or a weapon item holding an unresolved id) has no effect here. In the game such calls add a raw value through a type cast, which has no typed counterpart.
- Zone1Enemies.Population.HandleLootCollected and Zone0Enemies.Population.HandleLootCollected: the pages never pass these handlers to a pickup, which removes store loot instead. They are modelled as written.
- Combat.ClickDirection: the direction is not of unit length. The 3-D offset is normalised before its height is zeroed, exactly as the click handler does, so the horizontal part is shorter than 1 whenever the mouse point and the player differ in height.
- PlayerControl.MoveVector: it is stated in the camera basis without the common factor 1/√2 of the forward and right vectors; normalising removes that factor, so `Steer` gives the game's velocity.
- The mouse-to-ground ray cast and the aim-angle bookkeeping for the on-screen gun indicator.
