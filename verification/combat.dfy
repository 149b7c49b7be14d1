/** The player's weapon controller: the fire-rate gate, firing by click and by
    the touch aim stick, and the per-frame projectile update that moves every
    projectile, expires it at its weapon's range, and damages every enemy body
    within reach.  The physics world is an input: the list of bodies with
    their positions; `takeDamage` callbacks come out as a list of hits. */
module Combat {
  import opened Types
  import Game
  import Store

  /** A projectile in flight, as the controller keeps it between frames. */
  datatype Shot = Shot(id: string, position: Vec3, direction: Vec3, weapon: Weapon, distanceTraveled: real)

  /** A physics body; `isEnemy` means its user data says it is an enemy and
      carries a damage callback. */
  datatype Body = Body(isEnemy: bool, position: Vec3)

  /** One `takeDamage(amount)` call on the body with that index. */
  datatype Hit = Hit(body: nat, damage: nat)

  /** Milliseconds in a second; the fire interval is this over the fire rate. */
  const MsPerSecond: real := 1000.0

  /** A projectile hits bodies closer than this. */
  const HitRadius: real := 1.0

  // ---------------------------------------------------------------------------
  // Firing
  // ---------------------------------------------------------------------------

  /** The fire gate shared by click and touch: at least `1000 / fireRate`
      milliseconds since the last shot.  A zero rate gives an infinite
      interval, so such a weapon never fires. */
  function CanFire(elapsed: int, fireRate: real): (ok: bool)
    ensures fireRate == 0.0 ==> !ok
    ensures fireRate > 0.0 ==> (ok <==> elapsed as real * fireRate >= MsPerSecond)
  {
    if fireRate == 0.0 then false
    else
      var interval := MsPerSecond / fireRate;
      if fireRate > 0.0 then
        GateScales(elapsed as real, interval, fireRate);
        elapsed as real >= interval
      else
        elapsed as real >= interval
  }

  /** e >= q exactly when e * r >= q * r, for r > 0, with q * r == 1000. */
  lemma GateScales(e: real, q: real, r: real)
    requires r > 0.0 && q == MsPerSecond / r
    ensures e >= q <==> e * r >= MsPerSecond
  {
    assert q * r == MsPerSecond;
    if e >= q {
      assert (e - q) * r >= 0.0;
    } else {
      assert (q - e) * r > 0.0;
    }
  }

  /** The times at which shots leave the weapon over a run of fire attempts. */
  function FireTimes(fireRate: real, attempts: seq<int>, last: int): (r: seq<int>)
    ensures |r| <= |attempts|
    decreases |attempts|
  {
    if |attempts| == 0 then []
    else if CanFire(attempts[0] - last, fireRate) then [attempts[0]] + FireTimes(fireRate, attempts[1..], attempts[0])
    else FireTimes(fireRate, attempts[1..], last)
  }

  /** The fire rate holds over any run of attempts: the first shot passes
      the gate against the last one, and so does every later shot against
      the one before it, so shots are at least `1000 / fireRate` ms apart. */
  lemma {:induction false} FireTimesSpaced(fireRate: real, attempts: seq<int>, last: int)
    ensures var r := FireTimes(fireRate, attempts, last);
      && (|r| > 0 ==> CanFire(r[0] - last, fireRate))
      && (forall k :: 0 <= k < |r| - 1 ==> CanFire(r[k + 1] - r[k], fireRate))
    decreases |attempts|
  {
    if |attempts| > 0 {
      var t := attempts[0];
      var r := FireTimes(fireRate, attempts, last);
      if CanFire(t - last, fireRate) {
        FireTimesSpaced(fireRate, attempts[1..], t);
        var rest := FireTimes(fireRate, attempts[1..], t);
        assert r == [t] + rest;
        assert forall k :: 1 <= k < |r| ==> r[k] == rest[k - 1];
      } else {
        FireTimesSpaced(fireRate, attempts[1..], last);
      }
    }
  }

  /** The click direction: from the player towards the mouse's point on the
      ground, normalised, then flattened by zeroing its height; the horizontal
      part keeps the normalised length, so it is shorter than 1 whenever the
      mouse point and the player are at different heights. */
  function ClickDirection(mouse: Vec3, player: Vec3, len: real): (d: Vec3)
    requires len >= 0.0 && len * len == DistSq(mouse, player)
    ensures d.y == 0.0
    ensures len > 0.0 ==> d.x * len == mouse.x - player.x && d.z * len == mouse.z - player.z
    ensures len == 0.0 ==> d == Vec3(0.0, 0.0, 0.0)
  {
    var v := Vec3(mouse.x - player.x, mouse.y - player.y, mouse.z - player.z);
    Normalized(v, len).(y := 0.0)
  }

  /** The touch direction: the aim stick's right component along the screen's
      right (+x, -z) and its up component along the screen's up (-x, -z),
      normalised.  `len` is the length of the unnormalised sum. */
  function TouchDirection(aimX: real, aimY: real, len: real): (d: Vec3)
    requires len >= 0.0 && len * len == (aimX - aimY) * (aimX - aimY) + (aimX + aimY) * (aimX + aimY)
    ensures d.y == 0.0
    ensures len > 0.0 ==> d.x * len == aimX - aimY && d.z * len == -(aimX + aimY)
    ensures len == 0.0 ==> d == Vec3(0.0, 0.0, 0.0)
  {
    var v := Vec3(aimX - aimY, 0.0, -(aimX + aimY));
    assert v.z * v.z == (aimX + aimY) * (aimX + aimY);
    Normalized(v, len)
  }

  /** A new projectile starts half a unit above the player and has travelled
      nothing. */
  function NewShot(id: string, player: Vec3, direction: Vec3, weapon: Weapon): (s: Shot)
    ensures s.position == Vec3(player.x, player.y + 0.5, player.z)
    ensures s.distanceTraveled == 0.0 && s.weapon == weapon && s.direction == direction
  {
    Shot(id, Add(player, Vec3(0.0, 0.5, 0.0)), direction, weapon, 0.0)
  }

  // ---------------------------------------------------------------------------
  // The projectile update
  // ---------------------------------------------------------------------------

  /** A projectile after one frame of flight: it moves `speed * delta` along
      its direction and counts that distance as travelled. */
  function Advance(s: Shot, delta: real): (m: Shot)
    ensures m.distanceTraveled == s.distanceTraveled + s.weapon.projectileSpeed * delta
    ensures m.id == s.id && m.weapon == s.weapon && m.direction == s.direction
    ensures var step := s.weapon.projectileSpeed * delta;
      m.position == Vec3(s.position.x + s.direction.x * step, s.position.y + s.direction.y * step,
                         s.position.z + s.direction.z * step)
  {
    var step := s.weapon.projectileSpeed * delta;
    s.(position := Add(s.position, Scale(s.direction, step)), distanceTraveled := s.distanceTraveled + step)
  }

  /** The body is an enemy closer than the hit radius (compared squared). */
  predicate Touches(b: Body, p: Vec3) {
    b.isEnemy && DistSq(p, b.position) < HitRadius * HitRadius
  }

  /** Indices of the bodies a projectile at `p` hits, in body order. */
  function EnemyHits(p: Vec3, bodies: seq<Body>): (r: seq<nat>)
    ensures forall j: nat :: j in r <==> j < |bodies| && Touches(bodies[j], p)
    ensures forall a, b :: 0 <= a < b < |r| ==> r[a] < r[b]
    ensures forall k :: 0 <= k < |r| ==> r[k] < |bodies|
    decreases |bodies|
  {
    if |bodies| == 0 then []
    else
      var n := |bodies| - 1;
      EnemyHits(p, bodies[..n]) + (if Touches(bodies[n], p) then [n] else [])
  }

  /** One damage call per hit body, each for the weapon's damage. */
  function ToHits(idx: seq<nat>, damage: nat): (r: seq<Hit>)
    ensures |r| == |idx|
    ensures forall k :: 0 <= k < |r| ==> r[k] == Hit(idx[k], damage)
    ensures forall h :: h in r <==> h.body in idx && h.damage == damage
    decreases |idx|
  {
    if |idx| == 0 then []
    else
      var n := |idx| - 1;
      assert idx == idx[..n] + [idx[n]];
      ToHits(idx[..n], damage) + [Hit(idx[n], damage)]
  }

  /** The moved projectile stays: within range and touching no enemy. */
  predicate Survives(m: Shot, bodies: seq<Body>) {
    m.distanceTraveled < m.weapon.range && EnemyHits(m.position, bodies) == []
  }

  /** The shot, once moved this frame, is still within range and lands this
      hit on an enemy it touches. */
  predicate Strikes(s: Shot, delta: real, bodies: seq<Body>, h: Hit) {
    var m := Advance(s, delta);
    && m.distanceTraveled < m.weapon.range
    && h.body < |bodies| && Touches(bodies[h.body], m.position)
    && h.damage == s.weapon.damage
  }

  /** One projectile's frame: moved; dropped without hitting anything once its
      range is used up; otherwise it damages every enemy it touches and is
      dropped if it touched any. */
  function StepShot(s: Shot, delta: real, bodies: seq<Body>): (r: (Option<Shot>, seq<Hit>))
    ensures r.0.Some? <==> Survives(Advance(s, delta), bodies)
    ensures r.0.Some? ==> r.0.value == Advance(s, delta) && r.1 == []
    ensures forall h :: h in r.1 <==> Strikes(s, delta, bodies, h)
  {
    var m := Advance(s, delta);
    if m.distanceTraveled >= m.weapon.range then (None, [])
    else
      var idx := EnemyHits(m.position, bodies);
      if |idx| > 0 then (None, ToHits(idx, m.weapon.damage)) else (Some(m), [])
  }

  /** A projectile in range makes one damage call per enemy it touches, in
      body order and for its weapon's damage, so no enemy is hit twice by it;
      out of range it makes none. */
  lemma StepShotHitsOnce(s: Shot, delta: real, bodies: seq<Body>)
    ensures var m := Advance(s, delta);
      StepShot(s, delta, bodies).1 ==
        if m.distanceTraveled < s.weapon.range then ToHits(EnemyHits(m.position, bodies), s.weapon.damage) else []
    ensures var hs := StepShot(s, delta, bodies).1;
      forall a, b :: 0 <= a < b < |hs| ==> hs[a].body < hs[b].body
  {
    var m := Advance(s, delta);
    var hs := StepShot(s, delta, bodies).1;
    assert m.weapon == s.weapon;
    if m.distanceTraveled < s.weapon.range {
      var idx := EnemyHits(m.position, bodies);
      assert hs == ToHits(idx, s.weapon.damage);
      forall a, b | 0 <= a < b < |hs|
        ensures hs[a].body < hs[b].body
      {
        assert hs[a].body == idx[a] && hs[b].body == idx[b];
      }
    }
  }

  /** The whole filter pass: survivors in their old order, hits in the order
      the callbacks run. */
  function StepAll(shots: seq<Shot>, delta: real, bodies: seq<Body>): (r: (seq<Shot>, seq<Hit>))
    ensures |r.0| <= |shots|
    decreases |shots|
  {
    if |shots| == 0 then ([], [])
    else
      var n := |shots| - 1;
      var prev := StepAll(shots[..n], delta, bodies);
      var one := StepShot(shots[n], delta, bodies);
      (prev.0 + (if one.0.Some? then [one.0.value] else []), prev.1 + one.1)
  }

  /** One more projectile: the pass over a prefix, then that projectile's
      own step. */
  lemma StepAllSnoc(shots: seq<Shot>, i: nat, delta: real, bodies: seq<Body>)
    requires i < |shots|
    ensures var prev := StepAll(shots[..i], delta, bodies);
      var one := StepShot(shots[i], delta, bodies);
      StepAll(shots[..i + 1], delta, bodies) ==
        (prev.0 + (if one.0.Some? then [one.0.value] else []), prev.1 + one.1)
  {
    assert shots[..i + 1][..i] == shots[..i];
  }

  /** The values held by a sequence of options, in order. */
  function Present(xs: seq<Option<Shot>>): (r: seq<Shot>)
    ensures |r| <= |xs|
    decreases |xs|
  {
    if |xs| == 0 then []
    else
      var n := |xs| - 1;
      Present(xs[..n]) + (if xs[n].Some? then [xs[n].value] else [])
  }

  /** A value is present exactly when some position holds it. */
  lemma {:induction false} PresentMembers(xs: seq<Option<Shot>>)
    ensures forall m :: m in Present(xs) <==> exists i :: 0 <= i < |xs| && xs[i] == Some(m)
    decreases |xs|
  {
    if |xs| > 0 {
      var n := |xs| - 1;
      PresentMembers(xs[..n]);
      forall m | m in Present(xs)
        ensures exists i :: 0 <= i < |xs| && xs[i] == Some(m)
      {
        if m in Present(xs[..n]) {
          var i :| 0 <= i < n && xs[..n][i] == Some(m);
          assert xs[i] == Some(m);
        } else {
          assert xs[n] == Some(m);
        }
      }
      forall m, i | 0 <= i < |xs| && xs[i] == Some(m)
        ensures m in Present(xs)
      {
        if i < n {
          assert xs[..n][i] == Some(m);
        }
      }
    }
  }

  /** What each projectile's own step leaves of it. */
  function Outcomes(shots: seq<Shot>, delta: real, bodies: seq<Body>): (r: seq<Option<Shot>>)
    ensures |r| == |shots|
    ensures forall i :: 0 <= i < |shots| ==> r[i] == StepShot(shots[i], delta, bodies).0
  {
    seq(|shots|, i requires 0 <= i < |shots| => StepShot(shots[i], delta, bodies).0)
  }

  /** The survivors of a frame are the projectiles whose own step kept them,
      in their old order. */
  lemma {:induction false} StepAllKeeps(shots: seq<Shot>, delta: real, bodies: seq<Body>)
    ensures StepAll(shots, delta, bodies).0 == Present(Outcomes(shots, delta, bodies))
    decreases |shots|
  {
    if |shots| > 0 {
      var n := |shots| - 1;
      StepAllKeeps(shots[..n], delta, bodies);
      var os := Outcomes(shots, delta, bodies);
      assert os[..n] == Outcomes(shots[..n], delta, bodies);
    }
  }

  /** What a frame leaves, shot by shot: a projectile remains exactly when
      its moved self is within range and touches no enemy.  So nothing
      outlives its range and no projectile survives a hit. */
  lemma StepAllSurvivors(shots: seq<Shot>, delta: real, bodies: seq<Body>)
    ensures forall m :: m in StepAll(shots, delta, bodies).0 <==>
      exists i :: 0 <= i < |shots| && m == Advance(shots[i], delta) && Survives(m, bodies)
  {
    StepAllKeeps(shots, delta, bodies);
    PresentMembers(Outcomes(shots, delta, bodies));
    forall i | 0 <= i < |shots|
      ensures forall m :: StepShot(shots[i], delta, bodies).0 == Some(m) <==>
        m == Advance(shots[i], delta) && Survives(m, bodies)
    {
    }
  }

  /** The hit lists of the projectiles' own steps, one list per projectile. */
  function HitLists(shots: seq<Shot>, delta: real, bodies: seq<Body>): (r: seq<seq<Hit>>)
    ensures |r| == |shots|
    ensures forall i :: 0 <= i < |shots| ==> r[i] == StepShot(shots[i], delta, bodies).1
  {
    seq(|shots|, i requires 0 <= i < |shots| => StepShot(shots[i], delta, bodies).1)
  }

  /** The lists joined end to end, in order. */
  function Flatten(xss: seq<seq<Hit>>): (r: seq<Hit>)
    decreases |xss|
  {
    if |xss| == 0 then [] else Flatten(xss[..|xss| - 1]) + xss[|xss| - 1]
  }

  /** The damage calls of a frame are those of each projectile's own step,
      projectile by projectile in list order: nothing is merged, dropped or
      repeated across projectiles. */
  lemma {:induction false} StepAllHitsInOrder(shots: seq<Shot>, delta: real, bodies: seq<Body>)
    ensures StepAll(shots, delta, bodies).1 == Flatten(HitLists(shots, delta, bodies))
    decreases |shots|
  {
    if |shots| > 0 {
      var n := |shots| - 1;
      StepAllHitsInOrder(shots[..n], delta, bodies);
      var hs := HitLists(shots, delta, bodies);
      assert hs[..n] == HitLists(shots[..n], delta, bodies);
    }
  }

  /** A hit is in the joined lists exactly when one of the lists holds it. */
  lemma {:induction false} FlattenMembers(xss: seq<seq<Hit>>)
    ensures forall h :: h in Flatten(xss) <==> exists i :: 0 <= i < |xss| && h in xss[i]
    decreases |xss|
  {
    if |xss| > 0 {
      var n := |xss| - 1;
      FlattenMembers(xss[..n]);
      forall h | h in Flatten(xss)
        ensures exists i :: 0 <= i < |xss| && h in xss[i]
      {
        if h in Flatten(xss[..n]) {
          var i :| 0 <= i < n && h in xss[..n][i];
          assert xss[i] == xss[..n][i];
        }
      }
      forall h, i | 0 <= i < |xss| && h in xss[i]
        ensures h in Flatten(xss)
      {
        if i < n {
          assert xss[..n][i] == xss[i];
        }
      }
    }
  }

  /** What a frame hits: a hit happens exactly when some projectile, moved
      and still within range, touches that enemy, for that projectile's
      damage; a projectile touching several enemies damages them all. */
  lemma StepAllHits(shots: seq<Shot>, delta: real, bodies: seq<Body>)
    ensures forall h :: h in StepAll(shots, delta, bodies).1 <==>
      exists i :: 0 <= i < |shots| && Strikes(shots[i], delta, bodies, h)
  {
    StepAllHitsInOrder(shots, delta, bodies);
    FlattenMembers(HitLists(shots, delta, bodies));
    forall i | 0 <= i < |shots|
      ensures forall h :: h in StepShot(shots[i], delta, bodies).1 <==> Strikes(shots[i], delta, bodies, h)
    {
    }
  }

  /** The per-body check of one projectile: the indices of the enemy bodies
      it touches. */
  method CollideBodies(p: Vec3, bodies: seq<Body>) returns (idx: seq<nat>)
    ensures idx == EnemyHits(p, bodies)
    ensures forall j: nat :: j in idx <==> j < |bodies| && Touches(bodies[j], p)
  {
    idx := [];
    var j := 0;
    while j < |bodies|
      invariant 0 <= j <= |bodies|
      invariant idx == EnemyHits(p, bodies[..j])
    {
      assert bodies[..j + 1][..j] == bodies[..j];
      if bodies[j].isEnemy && DistSq(p, bodies[j].position) < HitRadius * HitRadius {
        idx := idx + [j];
      }
      j := j + 1;
    }
    assert bodies[..j] == bodies;
  }

  class WeaponController {
    var projectiles: seq<Shot>
    var lastFireTime: int

    constructor ()
      ensures projectiles == [] && lastFireTime == 0
    {
      projectiles := [];
      lastFireTime := 0;
    }

    /** A click: ignored while paused, without an equipped weapon, or inside
        the fire interval; otherwise a flat shot towards the mouse is added
        and the fire time recorded. */
    method HandleClick(store: Store.GameStore, now: int, id: string, mouse: Vec3, len: real)
      requires len >= 0.0 && len * len == DistSq(mouse, store.state.player.position)
      modifies this
      ensures var w := Game.GetEquippedWeapon(store.state);
        var fired := !store.state.isPaused && w.Some? && CanFire(now - old(lastFireTime), w.value.fireRate);
        && lastFireTime == (if fired then now else old(lastFireTime))
        && projectiles == old(projectiles) +
             (if fired then [NewShot(id, store.state.player.position,
                                     ClickDirection(mouse, store.state.player.position, len), w.value)]
              else [])
    {
      if store.state.isPaused {
        return;
      }
      var weapon := store.GetEquippedWeapon();
      if weapon.None? {
        return;
      }
      if !CanFire(now - lastFireTime, weapon.value.fireRate) {
        return;
      }
      lastFireTime := now;
      var position := store.state.player.position;
      var direction := ClickDirection(mouse, position, len);
      projectiles := projectiles + [NewShot(id, position, direction, weapon.value)];
    }

    /** The touch fire button: with an equipped weapon and outside the fire
        interval, a shot along the aim stick is added and the time recorded. */
    method TouchFire(store: Store.GameStore, now: int, id: string, aimX: real, aimY: real, aimLen: real)
      requires aimLen >= 0.0
      requires aimLen * aimLen == (aimX - aimY) * (aimX - aimY) + (aimX + aimY) * (aimX + aimY)
      modifies this
      ensures var w := Game.GetEquippedWeapon(store.state);
        var fired := w.Some? && CanFire(now - old(lastFireTime), w.value.fireRate);
        && lastFireTime == (if fired then now else old(lastFireTime))
        && projectiles == old(projectiles) +
             (if fired then [NewShot(id, store.state.player.position, TouchDirection(aimX, aimY, aimLen), w.value)]
              else [])
    {
      var weapon := store.GetEquippedWeapon();
      if weapon.Some? && CanFire(now - lastFireTime, weapon.value.fireRate) {
        lastFireTime := now;
        var direction := TouchDirection(aimX, aimY, aimLen);
        projectiles := projectiles + [NewShot(id, store.state.player.position, direction, weapon.value)];
      }
    }

    /** One frame: nothing while paused; otherwise a held touch fire button
        fires along the aim stick under the same gate, then every projectile
        is stepped.  The returned hits are the damage calls, in order. */
    method Frame(store: Store.GameStore, delta: real, touchShoot: bool, now: int, id: string,
                 aimX: real, aimY: real, aimLen: real, bodies: seq<Body>)
        returns (hits: seq<Hit>)
      requires aimLen >= 0.0
      requires aimLen * aimLen == (aimX - aimY) * (aimX - aimY) + (aimX + aimY) * (aimX + aimY)
      modifies this
      ensures store.state.isPaused ==>
        projectiles == old(projectiles) && lastFireTime == old(lastFireTime) && hits == []
      ensures !store.state.isPaused ==>
        var w := Game.GetEquippedWeapon(store.state);
        var fired := touchShoot && w.Some? && CanFire(now - old(lastFireTime), w.value.fireRate);
        var shots := old(projectiles) +
          (if fired then [NewShot(id, store.state.player.position, TouchDirection(aimX, aimY, aimLen), w.value)]
           else []);
        && lastFireTime == (if fired then now else old(lastFireTime))
        && (projectiles, hits) == StepAll(shots, delta, bodies)
    {
      if store.state.isPaused {
        return [];
      }
      if touchShoot {
        TouchFire(store, now, id, aimX, aimY, aimLen);
      } else {
        assert projectiles + [] == projectiles;
      }
      var kept;
      kept, hits := StepProjectiles(projectiles, delta, bodies);
      projectiles := kept;
    }
  }

  /** One projectile's turn in the filter pass. */
  method StepOne(s: Shot, delta: real, bodies: seq<Body>) returns (survivor: Option<Shot>, hits: seq<Hit>)
    ensures (survivor, hits) == StepShot(s, delta, bodies)
    ensures survivor.Some? ==> hits == [] && survivor.value.distanceTraveled < s.weapon.range
  {
    var m := Advance(s, delta);
    if m.distanceTraveled >= m.weapon.range {
      return None, [];
    }
    var idx := CollideBodies(m.position, bodies);
    if |idx| > 0 {
      survivor, hits := None, ToHits(idx, m.weapon.damage);
    } else {
      survivor, hits := Some(m), [];
    }
  }

  /** The filter pass over the projectiles, one at a time. */
  method StepProjectiles(shots: seq<Shot>, delta: real, bodies: seq<Body>) returns (kept: seq<Shot>, hits: seq<Hit>)
    ensures (kept, hits) == StepAll(shots, delta, bodies)
    ensures forall s :: s in kept ==> s.distanceTraveled < s.weapon.range
  {
    kept := [];
    hits := [];
    var i := 0;
    while i < |shots|
      invariant 0 <= i <= |shots|
      invariant (kept, hits) == StepAll(shots[..i], delta, bodies)
    {
      StepAllSnoc(shots, i, delta, bodies);
      var survivor, more := StepOne(shots[i], delta, bodies);
      if survivor.Some? {
        kept := kept + [survivor.value];
      }
      hits := hits + more;
      assert kept == StepAll(shots[..i + 1], delta, bodies).0;
      assert hits == StepAll(shots[..i + 1], delta, bodies).1;
      i := i + 1;
    }
    assert shots[..i] == shots;
    forall s | s in kept
      ensures s.distanceTraveled < s.weapon.range
    {
      StepAllSurvivors(shots, delta, bodies);
      var j :| 0 <= j < |shots| && s == Advance(shots[j], delta) && Survives(s, bodies);
    }
  }
}
