/** The per-frame decision of an enemy: chase, attack or idle, and for enemies
    of the world page, recovery after falling through the floor.  The physics
    body is outside the model: the enemy's position, its vertical velocity and
    its distance to the player come in, a velocity command goes out. */
module EnemyAi {
  import opened Types

  /** Milliseconds between two attacks of one enemy. */
  const AttackCooldown: int := 1000

  /** Beyond this distance an enemy ignores the player. */
  const ChaseRadius: real := 15.0

  /** Within this distance an enemy attacks instead of chasing. */
  const AttackRadius: real := 1.5

  /** Below this height an enemy of the world page counts as fallen. */
  const FallFloor: real := -5.0

  /** What the tick asks of the physics body. */
  datatype Command =
    | NoCommand
    | SetVelocity(velocity: Vec3)
    | Recover(to: Vec3)          // teleport there and zero the velocity

  /** The tick's outcome: the command, the new last-attack time, and the
      damage dealt to the player, if any. */
  datatype Decision = Decision(command: Command, lastAttackTime: int, strike: Option<nat>)

  /** What one frame observes. `dist` is the distance from the enemy to the
      player; `vy` is the body's current vertical velocity. */
  datatype Sample = Sample(enemyPos: Vec3, playerPos: Vec3, dist: real, vy: real, now: int)

  /** `dist` really is the Euclidean distance between the two positions. */
  predicate Measured(s: Sample) {
    s.dist >= 0.0 && s.dist * s.dist == DistSq(s.enemyPos, s.playerPos)
  }

  /** The decision shared by both enemy components once the training check
      has passed. */
  function Pursue(preset: EnemyPreset, s: Sample, last: int): (d: Decision)
    requires Measured(s)
    ensures preset.behavior != Hostile || s.dist >= ChaseRadius ==> d == Decision(NoCommand, last, None)
    ensures preset.behavior == Hostile && AttackRadius < s.dist < ChaseRadius ==>
      && d.command.SetVelocity?
      && d.command.velocity.x * s.dist == (s.playerPos.x - s.enemyPos.x) * preset.speed
      && d.command.velocity.z * s.dist == (s.playerPos.z - s.enemyPos.z) * preset.speed
      && d.command.velocity.y == s.vy
      && d.strike.None? && d.lastAttackTime == last
    ensures preset.behavior == Hostile && s.dist <= AttackRadius ==>
      && d.command == SetVelocity(Vec3(0.0, s.vy, 0.0))
      && (d.strike.Some? <==> s.now - last > AttackCooldown)
      && (d.strike.Some? ==> d.strike.value == preset.damage && d.lastAttackTime == s.now)
      && (d.strike.None? ==> d.lastAttackTime == last)
  {
    if preset.behavior == Hostile && s.dist < ChaseRadius && s.dist > AttackRadius then
      var dir := Scale(Vec3(s.playerPos.x - s.enemyPos.x, s.playerPos.y - s.enemyPos.y,
                            s.playerPos.z - s.enemyPos.z), 1.0 / s.dist);
      Decision(SetVelocity(Vec3(dir.x * preset.speed, s.vy, dir.z * preset.speed)), last, None)
    else if s.dist <= AttackRadius && preset.behavior == Hostile then
      if s.now - last > AttackCooldown then
        Decision(SetVelocity(Vec3(0.0, s.vy, 0.0)), s.now, Some(preset.damage))
      else
        Decision(SetVelocity(Vec3(0.0, s.vy, 0.0)), last, None)
    else Decision(NoCommand, last, None)
  }

  /** The tick of the generic enemy component (zone pages), given that the
      enemy is alive and the game is not paused. */
  function CanvasDecision(preset: EnemyPreset, s: Sample, last: int): (d: Decision)
    requires Measured(s)
    ensures preset.behavior == Training ==> d == Decision(NoCommand, last, None)
    ensures preset.behavior != Training ==> d == Pursue(preset, s, last)
  {
    if preset.behavior == Training then Decision(NoCommand, last, None)
    else Pursue(preset, s, last)
  }

  /** The tick of the labelled world enemy, given that it is alive and the game
      is not paused: training enemies do nothing, a fallen enemy is put back
      two units above its spawn point and does nothing else that frame. */
  function WorldDecision(preset: EnemyPreset, spawn: Vec3, s: Sample, last: int): (d: Decision)
    requires Measured(s)
    ensures preset.behavior == Training ==> d == Decision(NoCommand, last, None)
    ensures preset.behavior != Training && s.enemyPos.y < FallFloor ==>
      d == Decision(Recover(Vec3(spawn.x, spawn.y + 2.0, spawn.z)), last, None)
    ensures s.enemyPos.y >= FallFloor ==> d == CanvasDecision(preset, s, last)
  {
    if preset.behavior == Training then Decision(NoCommand, last, None)
    else if s.enemyPos.y < FallFloor then
      Decision(Recover(Vec3(spawn.x, spawn.y + 2.0, spawn.z)), last, None)
    else Pursue(preset, s, last)
  }

  /** Squaring both sides of the two scaled equations. */
  lemma ScaledSquares(a: real, b: real, dist: real, dx: real, dz: real, speed: real)
    requires a * dist == dx * speed && b * dist == dz * speed
    ensures (a * a + b * b) * (dist * dist) == (dx * dx + dz * dz) * (speed * speed)
  {
    assert (a * dist) * (a * dist) == (dx * speed) * (dx * speed);
    assert (b * dist) * (b * dist) == (dz * speed) * (dz * speed);
    assert (a * a) * (dist * dist) == (a * dist) * (a * dist);
    assert (b * b) * (dist * dist) == (b * dist) * (b * dist);
    assert (dx * dx) * (speed * speed) == (dx * speed) * (dx * speed);
    assert (dz * dz) * (speed * speed) == (dz * speed) * (dz * speed);
  }

  /** x * d == y * p with y <= d and d > 0 gives x <= p. */
  lemma CancelPositive(x: real, y: real, d: real, p: real)
    requires x * d == y * p && 0.0 <= y <= d && d > 0.0 && p >= 0.0
    ensures x <= p
  {
    assert y * p <= d * p;
    assert (p - x) * d == p * d - x * d;
    assert (p - x) * d >= 0.0;
  }

  /** A chasing enemy moves horizontally no faster than its preset speed: the
      horizontal part of the unit direction is at most 1 long. */
  lemma ChaseSpeedBounded(preset: EnemyPreset, s: Sample, last: int)
    requires Measured(s) && preset.speed >= 0.0
    requires preset.behavior == Hostile && AttackRadius < s.dist < ChaseRadius
    ensures var v := Pursue(preset, s, last).command.velocity;
      v.x * v.x + v.z * v.z <= preset.speed * preset.speed
  {
    var v := Pursue(preset, s, last).command.velocity;
    var dx, dy, dz := s.playerPos.x - s.enemyPos.x, s.playerPos.y - s.enemyPos.y, s.playerPos.z - s.enemyPos.z;
    ScaledSquares(v.x, v.z, s.dist, dx, dz, preset.speed);
    assert DistSq(s.enemyPos, s.playerPos) == dx * dx + dy * dy + dz * dz;
    assert dy * dy >= 0.0;
    assert s.dist * s.dist > 0.0;
    CancelPositive(v.x * v.x + v.z * v.z, dx * dx + dz * dz, s.dist * s.dist, preset.speed * preset.speed);
  }

  /** The times at which an enemy that keeps `last` across frames strikes,
      over a run of frames. */
  function StrikeTimes(preset: EnemyPreset, samples: seq<Sample>, last: int): (r: seq<int>)
    requires forall k :: 0 <= k < |samples| ==> Measured(samples[k])
    ensures |r| <= |samples|
    decreases |samples|
  {
    if |samples| == 0 then []
    else
      var d := CanvasDecision(preset, samples[0], last);
      (if d.strike.Some? then [samples[0].now] else []) + StrikeTimes(preset, samples[1..], d.lastAttackTime)
  }

  /** The attack cooldown holds over any run of frames: the first strike is
      more than 1000 ms after the last recorded attack, and consecutive strikes
      are more than 1000 ms apart. */
  lemma {:induction false} StrikesAreSpaced(preset: EnemyPreset, samples: seq<Sample>, last: int)
    requires forall k :: 0 <= k < |samples| ==> Measured(samples[k])
    ensures var r := StrikeTimes(preset, samples, last);
      && (|r| > 0 ==> r[0] - last > AttackCooldown)
      && (forall k :: 0 <= k < |r| - 1 ==> r[k + 1] - r[k] > AttackCooldown)
    decreases |samples|
  {
    if |samples| > 0 {
      var d := CanvasDecision(preset, samples[0], last);
      StrikesAreSpaced(preset, samples[1..], d.lastAttackTime);
      var rest := StrikeTimes(preset, samples[1..], d.lastAttackTime);
      var r := StrikeTimes(preset, samples, last);
      if d.strike.Some? {
        assert r == [samples[0].now] + rest;
        assert forall k :: 1 <= k < |r| ==> r[k] == rest[k - 1];
      } else {
        assert r == rest;
      }
    }
  }
}
