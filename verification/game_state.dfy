/** The authoritative game state and every store action as a pure
    old-state-to-new-state function.  Each action keeps the store invariant
    `Valid`: 0 <= hp <= maxHp, level follows the XP curve, owned weapon ids are
    unique and the equipped weapon is owned. */
module Game {
  import opened Types
  import Weapons

  type ZoneId = z: int | 0 <= z <= 2

  datatype Player = Player(hp: nat, maxHp: nat, xp: nat, level: nat, coins: nat, position: Vec3)

  datatype Inventory = Inventory(weapons: seq<Weapon>, equippedWeaponId: Option<string>)

  datatype Screen = Menu | Playing | Paused | Settings | GameOver

  datatype Dialog = Dialog(isOpen: bool, npcName: string, lines: seq<string>, currentLineIndex: nat)

  datatype State = State(
    player: Player,
    inventory: Inventory,
    currentZone: ZoneId,
    gameScreen: Screen,
    isPaused: bool,
    dialog: Dialog,
    isShopOpen: bool,
    lootItems: seq<LootItem>,
    projectiles: seq<Projectile>)

  /** The slice written to storage. */
  datatype Persisted = Persisted(player: Player, inventory: Inventory, currentZone: ZoneId)

  // ---------------------------------------------------------------------------
  // XP curve
  // ---------------------------------------------------------------------------

  /** The integer square root, found by counting up from 0. */
  function FloorSqrt(n: nat): (r: nat)
    ensures r <= n
  {
    if n == 0 then 0
    else
      var s := FloorSqrt(n - 1);
      if (s + 1) * (s + 1) <= n then s + 1 else s
  }

  /** FloorSqrt is the integer square root: r² <= n < (r+1)². */
  lemma {:induction false} FloorSqrtBounds(n: nat)
    ensures var r := FloorSqrt(n); r * r <= n < (r + 1) * (r + 1)
  {
    if n > 0 {
      FloorSqrtBounds(n - 1);
    }
  }

  /** calculateLevel: floor(sqrt(xp / 100)) + 1.  For an integer xp this is
      FloorSqrt(xp div 100) + 1; `LevelBounds` places it on the curve. */
  function CalculateLevel(xp: nat): (level: nat)
    ensures level >= 1
  {
    FloorSqrt(xp / 100) + 1
  }

  /** The level is the L with 100(L-1)^2 <= xp < 100 L^2. */
  lemma LevelBounds(xp: nat)
    ensures var level := CalculateLevel(xp);
      100 * ((level - 1) * (level - 1)) <= xp < 100 * (level * level)
  {
    var q := xp / 100;
    var k := FloorSqrt(q);
    FloorSqrtBounds(q);
    var lo, hi := k * k, (k + 1) * (k + 1);
    assert lo <= q < hi;
    assert 100 * lo <= xp < 100 * hi;
  }

  lemma SquareMonotone(a: nat, b: nat)
    requires a <= b
    ensures a * a <= b * b
  {
    assert a * a <= a * b;
    assert a * b <= b * b;
  }

  /** The level is the LARGEST L with 100(L-1)^2 <= xp. */
  lemma LevelIsLargest(xp: nat, l: nat)
    requires l >= 1
    ensures 100 * ((l - 1) * (l - 1)) <= xp <==> l <= CalculateLevel(xp)
  {
    var lv := CalculateLevel(xp);
    LevelBounds(xp);
    var sq := (l - 1) * (l - 1);
    if l <= lv {
      SquareMonotone(l - 1, lv - 1);
      var top := (lv - 1) * (lv - 1);
      assert sq <= top && 100 * top <= xp;
    } else {
      SquareMonotone(lv, l - 1);
      var bottom := lv * lv;
      assert bottom <= sq && xp < 100 * bottom;
    }
  }

  /** More XP never means a lower level. */
  lemma LevelMonotone(a: nat, b: nat)
    requires a <= b
    ensures CalculateLevel(a) <= CalculateLevel(b)
  {
    var la := CalculateLevel(a);
    LevelBounds(a);
    LevelIsLargest(b, la);
  }

  // ---------------------------------------------------------------------------
  // Initial states and the invariant
  // ---------------------------------------------------------------------------

  const InitialPlayer := Player(100, 100, 0, 1, 0, Vec3(0.0, 1.0, 0.0))

  function InitialInventory(): (inv: Inventory)
    ensures inv.weapons == [Weapons.GetStarterWeapon()]
  {
    var starter := Weapons.GetStarterWeapon();
    Inventory([starter], Some(starter.id))
  }

  const InitialDialog := Dialog(false, "", [], 0)

  function Initial(): State {
    State(InitialPlayer, InitialInventory(), 0, Menu, false, InitialDialog, false, [], [])
  }

  /** `weapons.some(w => w.id === id)` */
  predicate Owns(inv: Inventory, id: string) {
    exists i :: 0 <= i < |inv.weapons| && inv.weapons[i].id == id
  }

  predicate UniqueIds(ws: seq<Weapon>) {
    forall i, j :: 0 <= i < j < |ws| ==> ws[i].id != ws[j].id
  }

  predicate ValidPlayer(p: Player) {
    p.hp <= p.maxHp && p.level == CalculateLevel(p.xp)
  }

  predicate ValidInventory(inv: Inventory) {
    && UniqueIds(inv.weapons)
    && inv.equippedWeaponId.Some?
    && Owns(inv, inv.equippedWeaponId.value)
  }

  predicate Valid(s: State) {
    ValidPlayer(s.player) && ValidInventory(s.inventory)
  }

  lemma InitialIsValid()
    ensures Valid(Initial())
  {
    LevelBounds(0);
    assert CalculateLevel(0) == 1;
    assert Initial().inventory.weapons[0].id == "basic-pea-shooter";
  }

  // ---------------------------------------------------------------------------
  // Player actions
  // ---------------------------------------------------------------------------

  /** damagePlayer: hp drops by amount, floored at 0; the screen becomes
      gameOver exactly when hp reaches 0. */
  function DamagePlayer(s: State, amount: nat): (r: State)
    ensures r.player == s.player.(hp := r.player.hp)
    ensures r.player.hp <= s.player.hp
    ensures r.player.hp == 0 <==> amount >= s.player.hp
    ensures r.player.hp > 0 ==> r.player.hp + amount == s.player.hp
    ensures r.gameScreen == (if r.player.hp == 0 then GameOver else s.gameScreen)
    ensures r == s.(player := r.player, gameScreen := r.gameScreen)
    ensures Valid(s) ==> Valid(r)
  {
    var newHp := if s.player.hp > amount then s.player.hp - amount else 0;
    s.(player := s.player.(hp := newHp), gameScreen := if newHp == 0 then GameOver else s.gameScreen)
  }

  /** healPlayer: hp rises by amount but never above maxHp. */
  function HealPlayer(s: State, amount: nat): (r: State)
    ensures r.player == s.player.(hp := r.player.hp)
    ensures s.player.hp <= s.player.maxHp ==> r.player.hp <= s.player.maxHp
    ensures r.player.hp == s.player.hp + amount || r.player.hp == s.player.maxHp
    ensures r.player.hp <= s.player.hp + amount && r.player.hp <= s.player.maxHp
    ensures r == s.(player := r.player)
    ensures Valid(s) ==> Valid(r)
  {
    var sum := s.player.hp + amount;
    s.(player := s.player.(hp := if sum < s.player.maxHp then sum else s.player.maxHp))
  }

  /** addXp: xp grows by amount, the level follows the curve, and hp is
      restored to maxHp exactly when the level went up. */
  function AddXp(s: State, amount: nat): (r: State)
    ensures r.player.xp == s.player.xp + amount
    ensures r.player.level == CalculateLevel(r.player.xp)
    ensures r.player.hp == (if r.player.level > s.player.level then s.player.maxHp else s.player.hp)
    ensures r.player == s.player.(xp := r.player.xp, level := r.player.level, hp := r.player.hp)
    ensures r == s.(player := r.player)
    ensures Valid(s) ==> Valid(r) && r.player.level >= s.player.level
  {
    var newXp := s.player.xp + amount;
    var newLevel := CalculateLevel(newXp);
    var leveledUp := newLevel > s.player.level;
    LevelMonotone(s.player.xp, newXp);
    s.(player := s.player.(xp := newXp, level := newLevel,
                            hp := if leveledUp then s.player.maxHp else s.player.hp))
  }

  /** addCoins */
  function AddCoins(s: State, amount: nat): (r: State)
    ensures r.player.coins == s.player.coins + amount
    ensures r == s.(player := s.player.(coins := r.player.coins))
    ensures Valid(s) ==> Valid(r)
  {
    s.(player := s.player.(coins := s.player.coins + amount))
  }

  /** spendCoins: fails without mutation when coins < amount; otherwise
      succeeds and takes exactly amount. */
  function SpendCoins(s: State, amount: nat): (res: (bool, State))
    ensures res.0 <==> s.player.coins >= amount
    ensures !res.0 ==> res.1 == s
    ensures res.0 ==> res.1.player.coins + amount == s.player.coins
    ensures res.1 == s.(player := s.player.(coins := res.1.player.coins))
    ensures Valid(s) ==> Valid(res.1)
  {
    if s.player.coins >= amount then
      (true, s.(player := s.player.(coins := s.player.coins - amount)))
    else
      (false, s)
  }

  /** setPlayerPosition */
  function SetPlayerPosition(s: State, position: Vec3): (r: State)
    ensures r.player.position == position
    ensures r == s.(player := s.player.(position := position))
    ensures Valid(s) ==> Valid(r)
  {
    s.(player := s.player.(position := position))
  }

  /** resetPlayer: the whole player record returns to its initial value. */
  function ResetPlayer(s: State): (r: State)
    ensures r.player.hp == r.player.maxHp == 100 && r.player.xp == 0 && r.player.level == 1
    ensures r.player.coins == 0 && r.player.position == Vec3(0.0, 1.0, 0.0)
    ensures r.player == Initial().player
    ensures r == s.(player := r.player)
    ensures Valid(s) ==> Valid(r)
  {
    LevelBounds(0);
    assert CalculateLevel(0) == 1;
    s.(player := InitialPlayer)
  }

  // ---------------------------------------------------------------------------
  // Inventory actions
  // ---------------------------------------------------------------------------

  /** addWeapon: a no-op when a weapon with the same id is owned; otherwise the
      weapon is appended and the existing order kept. */
  function AddWeapon(s: State, w: Weapon): (r: State)
    ensures Owns(s.inventory, w.id) ==> r == s
    ensures !Owns(s.inventory, w.id) ==>
      r == s.(inventory := s.inventory.(weapons := s.inventory.weapons + [w]))
    ensures Owns(r.inventory, w.id)
    ensures Valid(s) ==> Valid(r)
  {
    if Owns(s.inventory, w.id) then s
    else
      AppendKeepsOwnership(s.inventory, w);
      s.(inventory := s.inventory.(weapons := s.inventory.weapons + [w]))
  }

  /** Appending a weapon whose id is not owned keeps every owned id owned,
      makes the new id owned, and keeps ids unique. */
  lemma AppendKeepsOwnership(inv: Inventory, w: Weapon)
    requires !Owns(inv, w.id)
    ensures var inv' := inv.(weapons := inv.weapons + [w]);
      && Owns(inv', w.id)
      && (forall id :: Owns(inv, id) ==> Owns(inv', id))
      && (UniqueIds(inv.weapons) ==> UniqueIds(inv'.weapons))
  {
    var inv' := inv.(weapons := inv.weapons + [w]);
    assert inv'.weapons[|inv.weapons|].id == w.id;
    forall id | Owns(inv, id) ensures Owns(inv', id) {
      var i :| 0 <= i < |inv.weapons| && inv.weapons[i].id == id;
      assert inv'.weapons[i].id == id;
    }
  }

  /** Adding the same weapon twice is the same as adding it once. */
  lemma AddWeaponIdempotent(s: State, w: Weapon)
    ensures AddWeapon(AddWeapon(s, w), w) == AddWeapon(s, w)
    ensures |AddWeapon(s, w).inventory.weapons| <= |s.inventory.weapons| + 1
  {
  }

  /** equipWeapon: only an owned id can be equipped; the weapon list never changes. */
  function EquipWeapon(s: State, id: string): (r: State)
    ensures r.inventory.weapons == s.inventory.weapons
    ensures r.inventory.equippedWeaponId ==
      (if Owns(s.inventory, id) then Some(id) else s.inventory.equippedWeaponId)
    ensures r == s.(inventory := r.inventory)
    ensures Valid(s) ==> Valid(r)
  {
    if Owns(s.inventory, id) then s.(inventory := s.inventory.(equippedWeaponId := Some(id)))
    else s
  }

  /** `weapons.find(w => w.id === id)`: the first weapon with that id. */
  function FindById(ws: seq<Weapon>, id: string): (r: Option<Weapon>)
    ensures r.None? <==> (forall i :: 0 <= i < |ws| ==> ws[i].id != id)
    ensures r.Some? ==> r.value in ws && r.value.id == id
    ensures r.Some? ==> exists i :: 0 <= i < |ws| && ws[i] == r.value && forall k :: 0 <= k < i ==> ws[k].id != id
  {
    if |ws| == 0 then None
    else if ws[0].id == id then Some(ws[0])
    else
      var rest := FindById(ws[1..], id);
      assert forall k :: 1 <= k < |ws| ==> ws[k] == ws[1..][k - 1];
      rest
  }

  /** getEquippedWeapon: null when the equipped id is null (or empty, which
      JavaScript also treats as false) or names no owned weapon. */
  function GetEquippedWeapon(s: State): (r: Option<Weapon>)
    ensures r.None? <==>
      (s.inventory.equippedWeaponId.None? || s.inventory.equippedWeaponId.value == "" ||
       !Owns(s.inventory, s.inventory.equippedWeaponId.value))
    ensures r.Some? ==> r.value in s.inventory.weapons && Some(r.value.id) == s.inventory.equippedWeaponId
  {
    match s.inventory.equippedWeaponId
    case None => None
    case Some(id) => if id == "" then None else FindById(s.inventory.weapons, id)
  }

  // ---------------------------------------------------------------------------
  // Zone and screen actions
  // ---------------------------------------------------------------------------

  /** setCurrentZone: switching zone always empties the loot and projectile lists. */
  function SetCurrentZone(s: State, zone: ZoneId): (r: State)
    ensures r.currentZone == zone && r.lootItems == [] && r.projectiles == []
    ensures r == s.(currentZone := zone, lootItems := [], projectiles := [])
    ensures Valid(s) ==> Valid(r)
  {
    s.(currentZone := zone, lootItems := [], projectiles := [])
  }

  /** setGameScreen: the game is paused exactly when the screen is the pause screen. */
  function SetGameScreen(s: State, screen: Screen): (r: State)
    ensures r.gameScreen == screen && (r.isPaused <==> screen == Paused)
    ensures r == s.(gameScreen := screen, isPaused := r.isPaused)
    ensures Valid(s) ==> Valid(r)
  {
    s.(gameScreen := screen, isPaused := screen == Paused)
  }

  /** togglePause: flips isPaused; the screen becomes playing iff it was paused. */
  function TogglePause(s: State): (r: State)
    ensures r.isPaused == !s.isPaused
    ensures r.gameScreen == (if s.isPaused then Playing else Paused)
    ensures r.isPaused <==> r.gameScreen == Paused
    ensures r == s.(isPaused := r.isPaused, gameScreen := r.gameScreen)
    ensures Valid(s) ==> Valid(r)
  {
    s.(isPaused := !s.isPaused, gameScreen := if s.isPaused then Playing else Paused)
  }

  /** Toggling twice restores the pause flag. */
  lemma TogglePauseTwice(s: State)
    ensures TogglePause(TogglePause(s)).isPaused == s.isPaused
    ensures TogglePause(TogglePause(s)).gameScreen == (if s.isPaused then Paused else Playing)
  {
  }

  /** startGame */
  function StartGame(s: State): (r: State)
    ensures r.gameScreen == Playing && !r.isPaused
    ensures r == s.(gameScreen := Playing, isPaused := false)
    ensures Valid(s) ==> Valid(r)
  {
    s.(gameScreen := Playing, isPaused := false)
  }

  /** resetGame: everything returns to its initial value except the shop flag,
      which this action does not touch. */
  function ResetGame(s: State): (r: State)
    ensures r == Initial().(isShopOpen := s.isShopOpen)
    ensures Valid(r)
  {
    InitialIsValid();
    State(InitialPlayer, InitialInventory(), 0, Menu, false, InitialDialog, s.isShopOpen, [], [])
  }

  // ---------------------------------------------------------------------------
  // Dialog and shop modes
  // ---------------------------------------------------------------------------

  /** openDialog: opens on the first line and pauses. */
  function OpenDialog(s: State, npcName: string, lines: seq<string>): (r: State)
    ensures r.dialog == Dialog(true, npcName, lines, 0) && r.isPaused
    ensures r == s.(dialog := r.dialog, isPaused := true)
    ensures Valid(s) ==> Valid(r)
  {
    s.(dialog := Dialog(true, npcName, lines, 0), isPaused := true)
  }

  /** advanceDialog: moves to the next line; past the last line the dialog
      resets to closed and the game unpauses. */
  function AdvanceDialog(s: State): (r: State)
    ensures s.dialog.currentLineIndex + 1 >= |s.dialog.lines| ==>
      r == s.(dialog := InitialDialog, isPaused := false)
    ensures s.dialog.currentLineIndex + 1 < |s.dialog.lines| ==>
      r == s.(dialog := s.dialog.(currentLineIndex := s.dialog.currentLineIndex + 1))
    ensures Valid(s) ==> Valid(r)
  {
    var next := s.dialog.currentLineIndex + 1;
    if next >= |s.dialog.lines| then s.(dialog := InitialDialog, isPaused := false)
    else s.(dialog := s.dialog.(currentLineIndex := next))
  }

  /** closeDialog */
  function CloseDialog(s: State): (r: State)
    ensures !r.dialog.isOpen && !r.isPaused
    ensures r == s.(dialog := InitialDialog, isPaused := false)
    ensures Valid(s) ==> Valid(r)
  {
    s.(dialog := InitialDialog, isPaused := false)
  }

  /** openShop pauses. */
  function OpenShop(s: State): (r: State)
    ensures r.isShopOpen && r.isPaused
    ensures r == s.(isShopOpen := true, isPaused := true)
    ensures Valid(s) ==> Valid(r)
  {
    s.(isShopOpen := true, isPaused := true)
  }

  /** closeShop unpauses. */
  function CloseShop(s: State): (r: State)
    ensures !r.isShopOpen && !r.isPaused
    ensures r == s.(isShopOpen := false, isPaused := false)
    ensures Valid(s) ==> Valid(r)
  {
    s.(isShopOpen := false, isPaused := false)
  }

  /** n successive advanceDialog actions. */
  function AdvanceTimes(s: State, n: nat): State
    decreases n
  {
    if n == 0 then s else AdvanceTimes(AdvanceDialog(s), n - 1)
  }

  /** While lines remain, each advance moves exactly one line on and changes
      nothing else. */
  lemma {:induction false} AdvanceWithinLines(s: State, m: nat)
    requires s.dialog.currentLineIndex + m < |s.dialog.lines|
    ensures AdvanceTimes(s, m) ==
      s.(dialog := s.dialog.(currentLineIndex := s.dialog.currentLineIndex + m))
    decreases m
  {
    if m > 0 {
      var s1 := AdvanceDialog(s);
      assert s1 == s.(dialog := s.dialog.(currentLineIndex := s.dialog.currentLineIndex + 1));
      AdvanceWithinLines(s1, m - 1);
    }
  }

  /** A dialog opened with n >= 1 lines shows each line in turn and closes,
      unpausing the game, on the n-th advance. */
  lemma DialogClosesAfterLastLine(s: State, npcName: string, lines: seq<string>)
    requires |lines| >= 1
    ensures var t := AdvanceTimes(OpenDialog(s, npcName, lines), |lines| - 1);
      t.dialog == Dialog(true, npcName, lines, |lines| - 1) && t.isPaused
    ensures var u := AdvanceTimes(OpenDialog(s, npcName, lines), |lines|);
      u.dialog == InitialDialog && !u.isPaused
  {
    var o := OpenDialog(s, npcName, lines);
    AdvanceWithinLines(o, |lines| - 1);
    var t := AdvanceTimes(o, |lines| - 1);
    AdvanceTimesSplit(o, |lines| - 1);
  }

  lemma {:induction false} AdvanceTimesSplit(s: State, n: nat)
    ensures AdvanceTimes(s, n + 1) == AdvanceDialog(AdvanceTimes(s, n))
    decreases n
  {
    if n > 0 {
      AdvanceTimesSplit(AdvanceDialog(s), n - 1);
    }
  }

  // ---------------------------------------------------------------------------
  // Runtime loot and projectile lists
  // ---------------------------------------------------------------------------

  /** `xs.filter(x => idOf(x) !== id)` */
  function RemoveWhere<T(!new)>(xs: seq<T>, idOf: T -> string, id: string): (r: seq<T>)
    ensures |r| <= |xs|
    ensures forall x :: x in r <==> x in xs && idOf(x) != id
    ensures (forall i :: 0 <= i < |xs| ==> idOf(xs[i]) != id) ==> r == xs
    decreases |xs|
  {
    if |xs| == 0 then []
    else
      var rest := RemoveWhere(xs[..|xs| - 1], idOf, id);
      var last := xs[|xs| - 1];
      assert xs == xs[..|xs| - 1] + [last];
      if idOf(last) == id then rest else rest + [last]
  }

  /** The filter keeps the order of the survivors: it distributes over
      concatenation. */
  lemma {:induction false} RemoveWhereAppend<T(!new)>(xs: seq<T>, ys: seq<T>, idOf: T -> string, id: string)
    ensures RemoveWhere(xs + ys, idOf, id) == RemoveWhere(xs, idOf, id) + RemoveWhere(ys, idOf, id)
    decreases |ys|
  {
    if |ys| == 0 {
      assert xs + ys == xs;
    } else {
      var ys' := ys[..|ys| - 1];
      RemoveWhereAppend(xs, ys', idOf, id);
      assert (xs + ys)[..|xs + ys| - 1] == xs + ys';
    }
  }

  /** addLoot appends. */
  function AddLoot(s: State, loot: LootItem): (r: State)
    ensures r.lootItems == s.lootItems + [loot]
    ensures r == s.(lootItems := r.lootItems)
    ensures Valid(s) ==> Valid(r)
  {
    s.(lootItems := s.lootItems + [loot])
  }

  /** removeLoot deletes exactly the items with that id, keeping the others in order. */
  function RemoveLoot(s: State, lootId: string): (r: State)
    ensures forall l :: l in r.lootItems <==> l in s.lootItems && l.id != lootId
    ensures r == s.(lootItems := RemoveWhere(s.lootItems, (l: LootItem) => l.id, lootId))
    ensures Valid(s) ==> Valid(r)
  {
    s.(lootItems := RemoveWhere(s.lootItems, (l: LootItem) => l.id, lootId))
  }

  /** clearLoot */
  function ClearLoot(s: State): (r: State)
    ensures r == s.(lootItems := [])
    ensures Valid(s) ==> Valid(r)
  {
    s.(lootItems := [])
  }

  /** addProjectile appends. */
  function AddProjectile(s: State, p: Projectile): (r: State)
    ensures r.projectiles == s.projectiles + [p]
    ensures r == s.(projectiles := r.projectiles)
    ensures Valid(s) ==> Valid(r)
  {
    s.(projectiles := s.projectiles + [p])
  }

  /** removeProjectile deletes exactly the projectiles with that id. */
  function RemoveProjectile(s: State, projectileId: string): (r: State)
    ensures forall p :: p in r.projectiles <==> p in s.projectiles && p.id != projectileId
    ensures r == s.(projectiles := RemoveWhere(s.projectiles, (p: Projectile) => p.id, projectileId))
    ensures Valid(s) ==> Valid(r)
  {
    s.(projectiles := RemoveWhere(s.projectiles, (p: Projectile) => p.id, projectileId))
  }

  /** clearProjectiles */
  function ClearProjectiles(s: State): (r: State)
    ensures r == s.(projectiles := [])
    ensures Valid(s) ==> Valid(r)
  {
    s.(projectiles := [])
  }

  // ---------------------------------------------------------------------------
  // Persistence
  // ---------------------------------------------------------------------------

  /** partialize: only the player, the inventory and the current zone are saved. */
  function Partialize(s: State): (p: Persisted)
    ensures p == Persisted(s.player, s.inventory, s.currentZone)
  {
    Persisted(s.player, s.inventory, s.currentZone)
  }

  /** Loading merges the saved slice into the initial state, so runtime lists
      and interaction modes always start empty and closed. */
  function Rehydrate(p: Persisted): (s: State)
    ensures s.lootItems == [] && s.projectiles == [] && !s.dialog.isOpen && !s.isShopOpen && !s.isPaused
    ensures Partialize(s) == p
    ensures ValidPlayer(p.player) && ValidInventory(p.inventory) ==> Valid(s)
  {
    Initial().(player := p.player, inventory := p.inventory, currentZone := p.currentZone)
  }

  /** What is saved does not depend on the runtime lists or the interaction
      modes, and a save followed by a load gives back the saved slice. */
  lemma PersistenceIgnoresRuntime(s: State, loot: seq<LootItem>, shots: seq<Projectile>, d: Dialog,
                                  shop: bool, paused: bool, screen: Screen)
    ensures Partialize(s.(lootItems := loot, projectiles := shots, dialog := d, isShopOpen := shop,
                          isPaused := paused, gameScreen := screen)) == Partialize(s)
    ensures Partialize(Rehydrate(Partialize(s))) == Partialize(s)
  {
  }

  // ---------------------------------------------------------------------------
  // Scenarios
  // ---------------------------------------------------------------------------

  /** 100/100 hp takes 30: 70 hp and still playing; then 80 more: clamped at 0, game over. */
  lemma DamageScenario(s: State)
    requires s.player.hp == 100 && s.gameScreen == Playing
    ensures DamagePlayer(s, 30).player.hp == 70 && DamagePlayer(s, 30).gameScreen == Playing
    ensures DamagePlayer(DamagePlayer(s, 30), 80).player.hp == 0
    ensures DamagePlayer(DamagePlayer(s, 30), 80).gameScreen == GameOver
  {
  }
}
