/** The merchant's shop: its price list and the buy transaction, which checks
    ownership, then the balance, then spends, adds and equips. */
module Shop {
  import opened Types
  import Game
  import Store
  import Weapons

  datatype ShopItem = ShopItem(weapon: Weapon, price: nat)

  /** The shop's own weapon records; they share ids with the drop catalogue
      but not all of their stats. */
  const ShopWeapons: seq<ShopItem> := [
    ShopItem(Weapon("blue-blaster", "Blue Blaster", 18, 3.0, 16.0, "#3b82f6", 22.0, 0.2), 15),
    ShopItem(Weapon("purple-plasma", "Purple Plasma", 25, 2.0, 20.0, "#a855f7", 25.0, 0.3), 30),
    ShopItem(Weapon("golden-cannon", "Golden Cannon", 40, 1.5, 25.0, "#fbbf24", 30.0, 0.4), 50),
    ShopItem(Weapon("crimson-devastator", "Crimson Devastator", 60, 1.0, 30.0, "#dc2626", 35.0, 0.5), 100)]

  /** The four items have distinct ids, well-formed weapons and rising
      prices; the first shares its id, not its stats, with the drop
      catalogue's blue blaster. */
  lemma ShopCatalogueFacts()
    ensures forall i, j :: 0 <= i < j < |ShopWeapons| ==>
      ShopWeapons[i].weapon.id != ShopWeapons[j].weapon.id && ShopWeapons[i].price < ShopWeapons[j].price
    ensures forall i :: 0 <= i < |ShopWeapons| ==> WellFormed(ShopWeapons[i].weapon)
    ensures ShopWeapons[0].weapon.id == Weapons.BlueBlaster.id && ShopWeapons[0].weapon != Weapons.BlueBlaster
  {
  }

  /** The message the panel shows after a buy attempt. */
  datatype BuyMessage =
    | AlreadyOwned(name: string)      // an error
    | NotEnough(shortfall: nat)       // an error: "Need <shortfall> more"
    | Purchased(name: string)         // a success

  /** The buy transaction on a store state: the ownership check (by id only)
      comes first, then the balance check; both leave the store unchanged.
      Otherwise the price is spent and the weapon is added and equipped. */
  function Purchase(s: Game.State, item: ShopItem): (r: (Option<BuyMessage>, Game.State))
    ensures Game.Owns(s.inventory, item.weapon.id) ==> r == (Some(AlreadyOwned(item.weapon.name)), s)
    ensures !Game.Owns(s.inventory, item.weapon.id) && s.player.coins < item.price ==>
      r == (Some(NotEnough(item.price - s.player.coins)), s) && item.price - s.player.coins > 0
    ensures !Game.Owns(s.inventory, item.weapon.id) && s.player.coins >= item.price ==>
      && r.0 == Some(Purchased(item.weapon.name))
      && r.1.player == s.player.(coins := s.player.coins - item.price)
      && r.1.inventory == Game.Inventory(s.inventory.weapons + [item.weapon], Some(item.weapon.id))
      && r.1 == s.(player := r.1.player, inventory := r.1.inventory)
    ensures Game.Valid(s) ==> Game.Valid(r.1)
  {
    if Game.Owns(s.inventory, item.weapon.id) then (Some(AlreadyOwned(item.weapon.name)), s)
    else if s.player.coins < item.price then (Some(NotEnough(item.price - s.player.coins)), s)
    else
      var spent := Game.SpendCoins(s, item.price);
      if spent.0 then
        var added := Game.AddWeapon(spent.1, item.weapon);
        (Some(Purchased(item.weapon.name)), Game.EquipWeapon(added, item.weapon.id))
      else (None, spent.1)
  }

  /** Buying the same item twice charges once: the second attempt finds the
      weapon owned and changes nothing. */
  lemma BuyTwiceChargesOnce(s: Game.State, item: ShopItem)
    requires !Game.Owns(s.inventory, item.weapon.id) && s.player.coins >= item.price
    ensures var once := Purchase(s, item).1;
      Purchase(once, item) == (Some(AlreadyOwned(item.weapon.name)), once)
  {
    var once := Purchase(s, item).1;
    var ws := once.inventory.weapons;
    assert ws[|ws| - 1] == item.weapon;
  }

  class ShopPanel {
    var message: Option<BuyMessage>

    constructor ()
      ensures message.None?
    {
      message := None;
    }

    /** handleBuy: runs the transaction through the store actions and shows
        its message; a message is kept when the transaction sets none. */
    method HandleBuy(store: Store.GameStore, item: ShopItem)
      modifies this, store
      ensures store.state == Purchase(old(store.state), item).1
      ensures message == (if Purchase(old(store.state), item).0.Some? then Purchase(old(store.state), item).0
                          else old(message))
      ensures old(store.Valid()) ==> store.Valid()
    {
      if Game.Owns(store.state.inventory, item.weapon.id) {
        message := Some(AlreadyOwned(item.weapon.name));
        return;
      }
      if store.state.player.coins < item.price {
        message := Some(NotEnough(item.price - store.state.player.coins));
        return;
      }
      var ok := store.SpendCoins(item.price);
      if ok {
        store.AddWeapon(item.weapon);
        store.EquipWeapon(item.weapon.id);
        message := Some(Purchased(item.weapon.name));
      }
    }
  }
}
