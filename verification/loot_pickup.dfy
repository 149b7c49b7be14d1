/** The loot pickup component: how a dropped item looks, and what touching it
    does to the store, at most once per pickup. */
module LootPickup {
  import opened Types
  import Game
  import Store

  datatype Shape = Box | Diamond | Star | CoinShape

  /** Colour and shape of a dropped item; every kind of loot looks different. */
  function Appearance(kind: LootType): (a: (string, Shape))
    ensures kind == HealthLoot <==> a.1 == Box
    ensures kind == XpLoot <==> a.1 == Diamond
    ensures kind == WeaponLoot <==> a.1 == Star
    ensures kind == CoinLoot <==> a.1 == CoinShape
  {
    match kind
    case HealthLoot => ("#22c55e", Box)
    case XpLoot => ("#eab308", Diamond)
    case WeaponLoot => ("#3b82f6", Star)
    case CoinLoot => ("#fcd34d", CoinShape)
  }

  /** The store action a pickup runs, chosen by the loot's kind.  A health,
      XP or coin pickup carries a number and a weapon pickup a weapon; a value
      of the other form has no effect here. */
  function ApplyPickup(s: Game.State, loot: LootItem): (r: Game.State)
    ensures r.lootItems == s.lootItems && r.projectiles == s.projectiles
    ensures loot.kind != CoinLoot ==> r.player.coins == s.player.coins
    ensures loot.kind != XpLoot ==> r.player.xp == s.player.xp && r.player.level == s.player.level
    ensures loot.kind != WeaponLoot ==> r.inventory == s.inventory
    ensures loot.kind == CoinLoot && loot.value.NumberItem? ==> r.player.coins == s.player.coins + loot.value.n
    ensures loot.kind == XpLoot && loot.value.NumberItem? ==> r.player.xp == s.player.xp + loot.value.n
    ensures loot.kind == HealthLoot && loot.value.NumberItem? ==>
      r.player.hp == (if s.player.hp + loot.value.n < s.player.maxHp then s.player.hp + loot.value.n
                      else s.player.maxHp)
    ensures loot.kind == WeaponLoot && loot.value.WeaponItem? ==> Game.Owns(r.inventory, loot.value.weapon.id)
    ensures loot.kind == XpLoot && loot.value.NumberItem? ==>
      var level := Game.CalculateLevel(s.player.xp + loot.value.n);
      r.player.level == level && r.player.hp == (if level > s.player.level then s.player.maxHp else s.player.hp)
    ensures loot.kind == WeaponLoot && loot.value.WeaponItem? ==>
      r.inventory == (if Game.Owns(s.inventory, loot.value.weapon.id) then s.inventory
                      else s.inventory.(weapons := s.inventory.weapons + [loot.value.weapon]))
    ensures loot.kind == HealthLoot && loot.value.NumberItem? ==> r == Game.HealPlayer(s, loot.value.n)
    ensures loot.kind == XpLoot && loot.value.NumberItem? ==> r == Game.AddXp(s, loot.value.n)
    ensures loot.kind == WeaponLoot && loot.value.WeaponItem? ==> r == Game.AddWeapon(s, loot.value.weapon)
    ensures loot.kind == CoinLoot && loot.value.NumberItem? ==> r == Game.AddCoins(s, loot.value.n)
    ensures !(if loot.kind == WeaponLoot then loot.value.WeaponItem? else loot.value.NumberItem?) ==> r == s
    ensures loot.kind != HealthLoot && loot.kind != XpLoot ==> r.player.hp == s.player.hp
    ensures r == s.(player := r.player, inventory := r.inventory)
    ensures r.player.position == s.player.position && r.player.maxHp == s.player.maxHp
    ensures Game.Valid(s) ==> Game.Valid(r)
  {
    match (loot.kind, loot.value)
    case (HealthLoot, NumberItem(n)) => Game.HealPlayer(s, n)
    case (XpLoot, NumberItem(n)) => Game.AddXp(s, n)
    case (WeaponLoot, WeaponItem(w)) => Game.AddWeapon(s, w)
    case (CoinLoot, NumberItem(n)) => Game.AddCoins(s, n)
    case _ => s
  }

  /** Two refills in a row, the second judged against the intermediate level,
      refill exactly when the final level beats the starting one. */
  lemma RefillsCombine(l0: nat, la: nat, lt: nat, hp: nat, maxHp: nat)
    requires l0 <= la <= lt
    ensures (if lt > la then maxHp else if la > l0 then maxHp else hp) == (if lt > l0 then maxHp else hp)
  {
  }

  /** Two XP pickups in a row, before anything is known about the levels:
      the second refill is judged against the level the first one reached. */
  lemma TwoAddXp(s: Game.State, a: nat, b: nat)
    ensures var p := s.player;
      var la, lt := Game.CalculateLevel(p.xp + a), Game.CalculateLevel(p.xp + a + b);
      Game.AddXp(Game.AddXp(s, a), b) ==
        s.(player := p.(xp := p.xp + a + b, level := lt,
                        hp := if lt > la then p.maxHp else if la > p.level then p.maxHp else p.hp))
  {
    var s1 := Game.AddXp(s, a);
    assert s1.player.maxHp == s.player.maxHp;
  }

  /** Levels only rise as XP accumulates over two gains. */
  lemma LevelsRise(xp: nat, level: nat, a: nat, b: nat)
    requires level == Game.CalculateLevel(xp)
    ensures level <= Game.CalculateLevel(xp + a) <= Game.CalculateLevel(xp + a + b)
  {
    Game.LevelMonotone(xp, xp + a);
    Game.LevelMonotone(xp + a, xp + a + b);
  }

  /** The two-step refill, stated on the whole state for levels that only
      rise. */
  lemma RefillState(s: Game.State, xp: nat, la: nat, lt: nat, two: Game.State)
    requires s.player.level <= la <= lt
    requires var p := s.player;
      two == s.(player := p.(xp := xp, level := lt,
                             hp := if lt > la then p.maxHp else if la > p.level then p.maxHp else p.hp))
    ensures var p := s.player;
      two == s.(player := p.(xp := xp, level := lt, hp := if lt > p.level then p.maxHp else p.hp))
  {
    RefillsCombine(s.player.level, la, lt, s.player.hp, s.player.maxHp);
  }

  /** Two XP pickups in a row: the XP adds up, and hp is refilled exactly
      when the final level is above the starting one. */
  lemma TwoXpPickups(s: Game.State, a: nat, b: nat)
    requires s.player.level == Game.CalculateLevel(s.player.xp)
    ensures var total := s.player.xp + a + b;
      var lt := Game.CalculateLevel(total);
      Game.AddXp(Game.AddXp(s, a), b) ==
        s.(player := s.player.(xp := total, level := lt,
                               hp := if lt > s.player.level then s.player.maxHp else s.player.hp))
  {
    var p := s.player;
    var la, lt := Game.CalculateLevel(p.xp + a), Game.CalculateLevel(p.xp + a + b);
    TwoAddXp(s, a, b);
    LevelsRise(p.xp, p.level, a, b);
    RefillState(s, p.xp + a + b, la, lt, Game.AddXp(Game.AddXp(s, a), b));
  }

  /** The order in which two XP pickups are collected does not matter: the
      level, and the hp refill that a level-up brings, come out the same. */
  lemma XpPickupsCommute(s: Game.State, a: nat, b: nat)
    requires Game.ValidPlayer(s.player)
    ensures Game.AddXp(Game.AddXp(s, a), b) == Game.AddXp(Game.AddXp(s, b), a)
  {
    TwoXpPickups(s, a, b);
    TwoXpPickups(s, b, a);
    assert s.player.xp + a + b == s.player.xp + b + a;
  }

  class Pickup {
    const loot: LootItem
    var collected: bool

    constructor (loot: LootItem)
      ensures this.loot == loot && !collected
    {
      this.loot := loot;
      collected := false;
    }

    /** A collected pickup renders nothing. */
    predicate Visible()
      reads this
    {
      !collected
    }

    /** handleCollect: the first touch applies the loot and removes it from the
        store's loot list; every later touch does nothing. */
    method HandleCollect(store: Store.GameStore)
      modifies this, store
      ensures collected && !Visible()
      ensures old(collected) ==> store.state == old(store.state)
      ensures !old(collected) ==> store.state == Game.RemoveLoot(ApplyPickup(old(store.state), loot), loot.id)
      ensures !old(collected) ==> forall l :: l in store.state.lootItems ==> l.id != loot.id
      ensures old(store.Valid()) ==> store.Valid()
    {
      if collected {
        return;
      }
      collected := true;
      match (loot.kind, loot.value) {
        case (HealthLoot, NumberItem(n)) => store.HealPlayer(n);
        case (XpLoot, NumberItem(n)) => store.AddXp(n);
        case (WeaponLoot, WeaponItem(w)) => store.AddWeapon(w);
        case (CoinLoot, NumberItem(n)) => store.AddCoins(n);
        case _ =>
      }
      store.RemoveLoot(loot.id);
    }
  }

  /** Touching the same pickup twice has the effect of touching it once. */
  method CollectTwice(store: Store.GameStore, loot: LootItem)
    modifies store
    ensures store.state == Game.RemoveLoot(ApplyPickup(old(store.state), loot), loot.id)
  {
    var p := new Pickup(loot);
    p.HandleCollect(store);
    p.HandleCollect(store);
  }
}
