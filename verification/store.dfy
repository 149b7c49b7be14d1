/** The store object: one mutable holder of the game state.  Every action
    replaces the held state by the matching transition of module Game, so the
    store invariant Game.Valid is kept by every action. */
module Store {
  import opened Types
  import Game

  class GameStore {
    var state: Game.State

    /** The store invariant, read off the held state. */
    ghost predicate Valid()
      reads this
    {
      Game.Valid(state)
    }

    /** A fresh store holds the initial state, which satisfies the invariant. */
    constructor ()
      ensures state == Game.Initial() && Valid()
    {
      state := Game.Initial();
      Game.InitialIsValid();
    }

    method DamagePlayer(amount: nat)
      modifies this
      ensures state == Game.DamagePlayer(old(state), amount)
      ensures old(Valid()) ==> Valid()
    {
      state := Game.DamagePlayer(state, amount);
    }

    method HealPlayer(amount: nat)
      modifies this
      ensures state == Game.HealPlayer(old(state), amount)
      ensures old(Valid()) ==> Valid()
    {
      state := Game.HealPlayer(state, amount);
    }

    method AddXp(amount: nat)
      modifies this
      ensures state == Game.AddXp(old(state), amount)
      ensures old(Valid()) ==> Valid()
    {
      state := Game.AddXp(state, amount);
    }

    method AddCoins(amount: nat)
      modifies this
      ensures state == Game.AddCoins(old(state), amount)
      ensures old(Valid()) ==> Valid()
    {
      state := Game.AddCoins(state, amount);
    }

    /** spendCoins reads the current player, then writes only when the balance
        covers the amount, and reports whether it did. */
    method SpendCoins(amount: nat) returns (ok: bool)
      modifies this
      ensures ok <==> old(state).player.coins >= amount
      ensures ok == Game.SpendCoins(old(state), amount).0
      ensures state == Game.SpendCoins(old(state), amount).1
      ensures old(Valid()) ==> Valid()
    {
      var player := state.player;
      if player.coins >= amount {
        state := state.(player := state.player.(coins := state.player.coins - amount));
        return true;
      }
      return false;
    }

    method SetPlayerPosition(position: Vec3)
      modifies this
      ensures state == Game.SetPlayerPosition(old(state), position)
      ensures old(Valid()) ==> Valid()
    {
      state := Game.SetPlayerPosition(state, position);
    }

    method ResetPlayer()
      modifies this
      ensures state == Game.ResetPlayer(old(state))
      ensures old(Valid()) ==> Valid()
    {
      state := Game.ResetPlayer(state);
    }

    method AddWeapon(weapon: Weapon)
      modifies this
      ensures state == Game.AddWeapon(old(state), weapon)
      ensures old(Valid()) ==> Valid()
    {
      state := Game.AddWeapon(state, weapon);
    }

    method EquipWeapon(weaponId: string)
      modifies this
      ensures state == Game.EquipWeapon(old(state), weaponId)
      ensures old(Valid()) ==> Valid()
    {
      state := Game.EquipWeapon(state, weaponId);
    }

    /** A query: it reads the state and changes nothing. */
    method GetEquippedWeapon() returns (w: Option<Weapon>)
      ensures w == Game.GetEquippedWeapon(state)
      ensures w.None? <==>
        (state.inventory.equippedWeaponId.None? || state.inventory.equippedWeaponId.value == "" ||
         !Game.Owns(state.inventory, state.inventory.equippedWeaponId.value))
      ensures w.Some? ==> w.value in state.inventory.weapons && Some(w.value.id) == state.inventory.equippedWeaponId
    {
      w := Game.GetEquippedWeapon(state);
    }

    method SetCurrentZone(zone: Game.ZoneId)
      modifies this
      ensures state == Game.SetCurrentZone(old(state), zone)
      ensures old(Valid()) ==> Valid()
    {
      state := Game.SetCurrentZone(state, zone);
    }

    method SetGameScreen(screen: Game.Screen)
      modifies this
      ensures state == Game.SetGameScreen(old(state), screen)
      ensures old(Valid()) ==> Valid()
    {
      state := Game.SetGameScreen(state, screen);
    }

    method TogglePause()
      modifies this
      ensures state == Game.TogglePause(old(state))
      ensures old(Valid()) ==> Valid()
    {
      state := Game.TogglePause(state);
    }

    method StartGame()
      modifies this
      ensures state == Game.StartGame(old(state))
      ensures old(Valid()) ==> Valid()
    {
      state := Game.StartGame(state);
    }

    method ResetGame()
      modifies this
      ensures state == Game.ResetGame(old(state))
      ensures Valid()
    {
      state := Game.ResetGame(state);
    }

    method OpenDialog(npcName: string, lines: seq<string>)
      modifies this
      ensures state == Game.OpenDialog(old(state), npcName, lines)
      ensures old(Valid()) ==> Valid()
    {
      state := Game.OpenDialog(state, npcName, lines);
    }

    method AdvanceDialog()
      modifies this
      ensures state == Game.AdvanceDialog(old(state))
      ensures old(Valid()) ==> Valid()
    {
      state := Game.AdvanceDialog(state);
    }

    method CloseDialog()
      modifies this
      ensures state == Game.CloseDialog(old(state))
      ensures old(Valid()) ==> Valid()
    {
      state := Game.CloseDialog(state);
    }

    method OpenShop()
      modifies this
      ensures state == Game.OpenShop(old(state))
      ensures old(Valid()) ==> Valid()
    {
      state := Game.OpenShop(state);
    }

    method CloseShop()
      modifies this
      ensures state == Game.CloseShop(old(state))
      ensures old(Valid()) ==> Valid()
    {
      state := Game.CloseShop(state);
    }

    method AddLoot(loot: LootItem)
      modifies this
      ensures state == Game.AddLoot(old(state), loot)
      ensures old(Valid()) ==> Valid()
    {
      state := Game.AddLoot(state, loot);
    }

    method RemoveLoot(lootId: string)
      modifies this
      ensures state == Game.RemoveLoot(old(state), lootId)
      ensures old(Valid()) ==> Valid()
    {
      state := Game.RemoveLoot(state, lootId);
    }

    method ClearLoot()
      modifies this
      ensures state == Game.ClearLoot(old(state))
      ensures old(Valid()) ==> Valid()
    {
      state := Game.ClearLoot(state);
    }

    method AddProjectile(projectile: Projectile)
      modifies this
      ensures state == Game.AddProjectile(old(state), projectile)
      ensures old(Valid()) ==> Valid()
    {
      state := Game.AddProjectile(state, projectile);
    }

    method RemoveProjectile(projectileId: string)
      modifies this
      ensures state == Game.RemoveProjectile(old(state), projectileId)
      ensures old(Valid()) ==> Valid()
    {
      state := Game.RemoveProjectile(state, projectileId);
    }

    method ClearProjectiles()
      modifies this
      ensures state == Game.ClearProjectiles(old(state))
      ensures old(Valid()) ==> Valid()
    {
      state := Game.ClearProjectiles(state);
    }
  }
}
