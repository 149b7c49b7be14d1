/** The player body's per-frame controller: reporting the position to the
    store, classifying the zone by distance from the centre, turning held keys
    into a velocity, and gating jumps with the `canJump` flag.  The physics
    body is outside the model: its position and velocity come in, the
    velocity to set goes out. */
module PlayerControl {
  import opened Types
  import Game
  import Store

  const MoveSpeed: real := 8.0
  const JumpForce: real := 6.0
  const Friction: real := 0.9

  /** Below this height, and not rising, the player counts as grounded. */
  const GroundY: real := 1.1

  // ---------------------------------------------------------------------------
  // Zone classification
  // ---------------------------------------------------------------------------

  /** A ring around the centre: inner radius included, outer excluded. */
  datatype Band = Band(zone: Game.ZoneId, inner: real, outer: real)

  /** The hub, the wilds and the sky gardens, in scan order. */
  const ZoneBoundaries: seq<Band> := [Band(0, 0.0, 15.0), Band(1, 15.0, 30.0), Band(2, 30.0, 55.0)]

  /** `inner <= d < outer` for the planar distance d, compared squared (the
      radii are not negative). */
  predicate InBand(b: Band, dsq: real) {
    b.inner * b.inner <= dsq < b.outer * b.outer
  }

  /** The zone of the first band that holds the distance, if any. */
  function FirstBand(bands: seq<Band>, dsq: real): (r: Option<Game.ZoneId>)
    ensures r.None? <==> forall i :: 0 <= i < |bands| ==> !InBand(bands[i], dsq)
    ensures r.Some? ==> exists i :: 0 <= i < |bands| && InBand(bands[i], dsq) && bands[i].zone == r.value &&
                                    forall k :: 0 <= k < i ==> !InBand(bands[k], dsq)
    decreases |bands|
  {
    if |bands| == 0 then None
    else if InBand(bands[0], dsq) then Some(bands[0].zone)
    else
      var rest := FirstBand(bands[1..], dsq);
      assert forall i :: 1 <= i < |bands| ==> bands[i] == bands[1..][i - 1];
      rest
  }

  /** The scan over the bands, stopping at the first match. */
  method ClassifyZone(dsq: real) returns (zone: Option<Game.ZoneId>)
    ensures zone == FirstBand(ZoneBoundaries, dsq)
  {
    zone := None;
    var i := 0;
    while i < |ZoneBoundaries|
      invariant 0 <= i <= |ZoneBoundaries|
      invariant FirstBand(ZoneBoundaries, dsq) == FirstBand(ZoneBoundaries[i..], dsq)
    {
      var boundary := ZoneBoundaries[i];
      if InBand(boundary, dsq) {
        zone := Some(boundary.zone);
        break;
      }
      assert ZoneBoundaries[i..][1..] == ZoneBoundaries[i + 1..];
      i := i + 1;
    }
  }

  /** The zone by squared distance: the hub below 15, the wilds from 15 to
      30, the sky gardens from 30 to 55, and no zone beyond. */
  lemma ZoneByDistance(dsq: real)
    requires dsq >= 0.0
    ensures FirstBand(ZoneBoundaries, dsq) ==
      if dsq < 225.0 then Some(0) else if dsq < 900.0 then Some(1) else if dsq < 3025.0 then Some(2) else None
  {
    var bs := ZoneBoundaries;
    assert bs[1..] == [Band(1, 15.0, 30.0), Band(2, 30.0, 55.0)];
    assert bs[1..][1..] == [Band(2, 30.0, 55.0)];
    assert bs[1..][1..][1..] == [];
  }

  /** The store after the zone check: `setCurrentZone` runs only when a band
      matches and names a zone other than the current one, so staying in a
      zone never clears its loot and projectiles. */
  function ZoneUpdate(s: Game.State, dsq: real): (r: Game.State)
    ensures FirstBand(ZoneBoundaries, dsq).None? ==> r == s
    ensures FirstBand(ZoneBoundaries, dsq) == Some(s.currentZone) ==> r == s
    ensures FirstBand(ZoneBoundaries, dsq).Some? ==>
      r.currentZone == FirstBand(ZoneBoundaries, dsq).value &&
      (r.currentZone != s.currentZone ==> r.lootItems == [] && r.projectiles == [])
    ensures r.player == s.player && r.inventory == s.inventory
    ensures Game.Valid(s) ==> Game.Valid(r)
  {
    match FirstBand(ZoneBoundaries, dsq)
    case None => s
    case Some(z) => if s.currentZone != z then Game.SetCurrentZone(s, z) else s
  }

  // ---------------------------------------------------------------------------
  // Movement
  // ---------------------------------------------------------------------------

  /** Which keys are held; arrows double the letter keys. */
  datatype Keys = Keys(w: bool, s: bool, a: bool, d: bool,
                       up: bool, down: bool, left: bool, right: bool, space: bool)

  /** One axis of the key accumulation: +1 for the positive key, -1 for the
      negative one; opposite keys cancel. */
  function Axis(plus: bool, minus: bool): (v: int)
    ensures -1 <= v <= 1
    ensures v == 0 <==> plus == minus
    ensures v == 1 <==> plus && !minus
  {
    (if plus then 1 else 0) - (if minus then 1 else 0)
  }

  function ForwardAxis(k: Keys): int { Axis(k.w || k.up, k.s || k.down) }

  function RightAxis(k: Keys): int { Axis(k.d || k.right, k.a || k.left) }

  /** The accumulated move direction before normalising: forward is (-1, 0, -1)
      and right is (1, 0, -1), both over the square root of 2, a common
      factor that normalising removes and that is left out here. */
  function MoveVector(k: Keys): (m: Vec3)
    ensures m.y == 0.0
    ensures m == Vec3(0.0, 0.0, 0.0) <==> ForwardAxis(k) == 0 && RightAxis(k) == 0
  {
    var f, r := ForwardAxis(k), RightAxis(k);
    Vec3((r - f) as real, 0.0, (-(f + r)) as real)
  }

  /** `len` is the length of the move vector. */
  predicate MoveLength(k: Keys, len: real) {
    var m := MoveVector(k);
    len >= 0.0 && len * len == m.x * m.x + m.y * m.y + m.z * m.z
  }

  /** The velocity the key step sets: full speed along the normalised move
      direction when some axis is non-zero, otherwise the horizontal velocity
      damped by friction; the vertical velocity is kept either way. */
  function Steer(vel: Vec3, k: Keys, len: real): (v: Vec3)
    requires MoveLength(k, len)
    ensures v.y == vel.y
    ensures ForwardAxis(k) == 0 && RightAxis(k) == 0 ==> v == Vec3(vel.x * Friction, vel.y, vel.z * Friction)
    ensures len > 0.0 ==> v.x * len == MoveVector(k).x * MoveSpeed && v.z * len == MoveVector(k).z * MoveSpeed
  {
    var m := MoveVector(k);
    if m != Vec3(0.0, 0.0, 0.0) then
      var u := Normalized(m, len);
      Vec3(u.x * MoveSpeed, vel.y, u.z * MoveSpeed)
    else
      Vec3(vel.x * Friction, vel.y, vel.z * Friction)
  }

  // ---------------------------------------------------------------------------
  // Jump gating
  // ---------------------------------------------------------------------------

  /** What the jump logic sees in one frame: whether space is held, the
      body's height, and its vertical velocity after the key step. */
  datatype JumpFrame = JumpFrame(space: bool, y: real, vy: real)

  predicate Grounded(f: JumpFrame) {
    f.y < GroundY && f.vy <= 0.0
  }

  /** One frame of the jump flag: a jump needs the flag, sets the vertical
      velocity to the jump force and clears the flag; the flag comes back when
      the body is low and not rising, which a jump frame never is. */
  function JumpStep(can: bool, f: JumpFrame): (r: (bool, real))
    ensures f.space && can ==> r == (false, JumpForce)
    ensures !(f.space && can) ==> r.1 == f.vy && (r.0 <==> can || Grounded(f))
  {
    var jumped := f.space && can;
    var vy := if jumped then JumpForce else f.vy;
    var cleared := if jumped then false else can;
    if f.y < GroundY && vy <= 0.0 then (true, vy) else (cleared, vy)
  }

  /** The flag at the start of frame n of a run. */
  function CanJumpBefore(frames: seq<JumpFrame>, can0: bool, n: nat): bool
    requires n <= |frames|
  {
    if n == 0 then can0 else JumpStep(CanJumpBefore(frames, can0, n - 1), frames[n - 1]).0
  }

  predicate JumpsAt(frames: seq<JumpFrame>, can0: bool, i: nat)
    requires i < |frames|
  {
    frames[i].space && CanJumpBefore(frames, can0, i)
  }

  /** No double jump: after a jump, the flag is only back once some later
      frame found the body grounded. */
  lemma {:induction false} JumpNeedsLanding(frames: seq<JumpFrame>, can0: bool, i: nat, j: nat)
    requires i < j <= |frames|
    requires JumpsAt(frames, can0, i)
    requires CanJumpBefore(frames, can0, j)
    ensures exists k :: i < k < j && Grounded(frames[k])
    decreases j
  {
    var k := j - 1;
    var before := CanJumpBefore(frames, can0, k);
    if k == i {
      assert false;
    } else if Grounded(frames[k]) {
    } else {
      JumpNeedsLanding(frames, can0, i, k);
    }
  }

  class PlayerController {
    var canJump: bool

    constructor ()
      ensures canJump
    {
      canJump := true;
    }

    /** One frame: nothing while paused; otherwise the position goes to the
        store, the zone is updated, and the velocity to set is the key step
        followed by the jump step, which also updates the flag. */
    method Frame(store: Store.GameStore, pos: Vec3, vel: Vec3, keys: Keys, len: real) returns (cmd: Option<Vec3>)
      requires MoveLength(keys, len)
      modifies this, store
      ensures old(store.state.isPaused) ==>
        cmd.None? && store.state == old(store.state) && canJump == old(canJump)
      ensures !old(store.state.isPaused) ==>
        var steer := Steer(vel, keys, len);
        var jump := JumpStep(old(canJump), JumpFrame(keys.space, pos.y, steer.y));
        && store.state == ZoneUpdate(Game.SetPlayerPosition(old(store.state), pos), pos.x * pos.x + pos.z * pos.z)
        && cmd == Some(steer.(y := jump.1))
        && canJump == jump.0
      ensures old(store.Valid()) ==> store.Valid()
    {
      if store.state.isPaused {
        return None;
      }
      store.SetPlayerPosition(pos);
      var zone := ClassifyZone(pos.x * pos.x + pos.z * pos.z);
      if zone.Some? && store.state.currentZone != zone.value {
        store.SetCurrentZone(zone.value);
      }
      var v := Steer(vel, keys, len);
      if keys.space && canJump {
        v := v.(y := JumpForce);
        canJump := false;
      }
      if pos.y < GroundY && v.y <= 0.0 {
        canJump := true;
      }
      cmd := Some(v);
    }
  }
}
