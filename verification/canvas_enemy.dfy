/** The generic enemy component used by the zone pages: its health and life
    flag, the last-attack timestamp it keeps across frames, its per-frame tick
    and its damage and death handlers. */
module CanvasEnemy {
  import opened Types
  import Game
  import Store
  import EnemyAi

  /** `Math.max(0, health - amount)` on natural numbers. */
  function Reduced(health: nat, amount: nat): (r: nat)
    ensures r <= health
    ensures r == 0 <==> amount >= health
    ensures r > 0 ==> r + amount == health
  {
    if health > amount then health - amount else 0
  }

  /** The sum of a run of damage amounts. */
  function Total(amounts: seq<nat>): nat
    decreases |amounts|
  {
    if |amounts| == 0 then 0 else Total(amounts[..|amounts| - 1]) + amounts[|amounts| - 1]
  }

  class Enemy {
    const id: string
    const preset: EnemyPreset
    var health: nat
    var isAlive: bool
    var lastAttackTime: int

    /** Mounting: full health, alive, no attack yet (the timestamp starts at 0). */
    constructor (id: string, preset: EnemyPreset)
      ensures this.id == id && this.preset == preset
      ensures health == preset.maxHealth && isAlive && lastAttackTime == 0
    {
      this.id := id;
      this.preset := preset;
      health := preset.maxHealth;
      isAlive := true;
      lastAttackTime := 0;
    }

    /** One frame.  The player position is the one the store holds.  A dead
        enemy, or any enemy while the game is paused, does nothing; otherwise
        the shared decision is taken, and a strike becomes `damagePlayer`. */
    method Tick(store: Store.GameStore, enemyPos: Vec3, dist: real, vy: real, now: int)
        returns (cmd: EnemyAi.Command)
      requires EnemyAi.Measured(EnemyAi.Sample(enemyPos, store.state.player.position, dist, vy, now))
      modifies this, store
      ensures health == old(health) && isAlive == old(isAlive)
      ensures !old(isAlive) || old(store.state.isPaused) ==>
        cmd == EnemyAi.NoCommand && lastAttackTime == old(lastAttackTime) && store.state == old(store.state)
      ensures old(isAlive) && !old(store.state.isPaused) ==>
        var d := EnemyAi.CanvasDecision(preset,
                   EnemyAi.Sample(enemyPos, old(store.state.player.position), dist, vy, now), old(lastAttackTime));
        && cmd == d.command
        && lastAttackTime == d.lastAttackTime
        && store.state == (if d.strike.Some? then Game.DamagePlayer(old(store.state), d.strike.value)
                           else old(store.state))
    {
      if !isAlive || store.state.isPaused {
        return EnemyAi.NoCommand;
      }
      var sample := EnemyAi.Sample(enemyPos, store.state.player.position, dist, vy, now);
      var d := EnemyAi.CanvasDecision(preset, sample, lastAttackTime);
      if d.strike.Some? {
        store.DamagePlayer(d.strike.value);
      }
      lastAttackTime := d.lastAttackTime;
      cmd := d.command;
    }

    /** takeDamage: ignored once dead; otherwise health drops, floored at 0,
        and reaching 0 runs `die`, whose death report is returned. */
    method TakeDamage(amount: nat, position: Vec3) returns (death: Option<Death>)
      modifies this
      ensures lastAttackTime == old(lastAttackTime)
      ensures !old(isAlive) ==> death.None? && health == old(health) && !isAlive
      ensures old(isAlive) ==> health == Reduced(old(health), amount) && (isAlive <==> health > 0)
      ensures death.Some? <==> old(isAlive) && amount >= old(health)
      ensures death.Some? ==> death.value == Death(id, position, preset.lootTable, preset.xpReward)
    {
      if !isAlive {
        return None;
      }
      var newHealth := Reduced(health, amount);
      health := newHealth;
      if newHealth == 0 {
        death := Die(position);
      } else {
        death := None;
      }
    }

    /** die: the enemy stops living and reports its position, loot table and
        XP reward. */
    method Die(position: Vec3) returns (death: Option<Death>)
      modifies this
      ensures !isAlive && health == old(health) && lastAttackTime == old(lastAttackTime)
      ensures death == Some(Death(id, position, preset.lootTable, preset.xpReward))
    {
      isAlive := false;
      death := Some(Death(id, position, preset.lootTable, preset.xpReward));
    }
  }

  /** A fresh enemy hit by a run of projectiles reports its death exactly once,
      and exactly when the damage taken reaches its maximum health; its health
      is then the maximum health less the damage, floored at 0. */
  method DeathReportedOnce(preset: EnemyPreset, amounts: seq<nat>, at: Vec3)
      returns (deaths: nat, remaining: nat)
    requires preset.maxHealth > 0
    ensures deaths <= 1
    ensures deaths == 1 <==> Total(amounts) >= preset.maxHealth
    ensures remaining == Reduced(preset.maxHealth, Total(amounts))
  {
    var e := new Enemy("target", preset);
    deaths := 0;
    var i := 0;
    while i < |amounts|
      invariant 0 <= i <= |amounts|
      invariant e.health == Reduced(preset.maxHealth, Total(amounts[..i]))
      invariant e.isAlive <==> e.health > 0
      invariant deaths == (if e.isAlive then 0 else 1)
    {
      assert amounts[..i + 1][..i] == amounts[..i];
      var d := e.TakeDamage(amounts[i], at);
      if d.Some? {
        deaths := deaths + 1;
      }
      i := i + 1;
    }
    assert amounts[..i] == amounts;
    remaining := e.health;
  }
}
