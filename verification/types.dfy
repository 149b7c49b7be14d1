/** Value types shared by the whole game model: vectors, weapons, enemy
    presets, loot drops and loot items, projectiles. */
module Types {

  datatype Option<T> = None | Some(value: T)

  /** A position or a velocity in world space, as the physics engine reports it. */
  datatype Vec3 = Vec3(x: real, y: real, z: real)

  function Add(a: Vec3, b: Vec3): Vec3 {
    Vec3(a.x + b.x, a.y + b.y, a.z + b.z)
  }

  function Scale(a: Vec3, k: real): Vec3 {
    Vec3(a.x * k, a.y * k, a.z * k)
  }

  /** three.js `normalize`: the vector over its length, or the zero vector
      when the length is 0.  `len` is the vector's length. */
  function Normalized(v: Vec3, len: real): (u: Vec3)
    requires len >= 0.0 && len * len == v.x * v.x + v.y * v.y + v.z * v.z
    ensures len == 0.0 ==> u == Vec3(0.0, 0.0, 0.0)
    ensures len > 0.0 ==> u.x * len == v.x && u.y * len == v.y && u.z * len == v.z
  {
    if len == 0.0 then Vec3(0.0, 0.0, 0.0) else Scale(v, 1.0 / len)
  }

  /** Squared Euclidean distance; comparing it with r*r replaces comparing the
      distance with r. */
  function DistSq(a: Vec3, b: Vec3): (d: real)
    ensures d >= 0.0
  {
    (a.x - b.x) * (a.x - b.x) + (a.y - b.y) * (a.y - b.y) + (a.z - b.z) * (a.z - b.z)
  }

  /** A weapon definition; a value that is never changed once created. */
  datatype Weapon = Weapon(
    id: string,
    name: string,
    damage: nat,
    fireRate: real,        // shots per second
    range: real,           // max projectile travel
    color: string,
    projectileSpeed: real,
    projectileSize: real)

  /** The shape every catalogued weapon has: the fire interval 1000/fireRate is
      defined and projectiles move and expire. */
  predicate WellFormed(w: Weapon) {
    w.fireRate > 0.0 && w.range > 0.0 && w.projectileSpeed > 0.0 && w.projectileSize > 0.0
  }

  datatype LootType = HealthLoot | XpLoot | WeaponLoot | CoinLoot

  /** A loot-table entry value: an amount, or a weapon id. */
  datatype DropValue = NumberValue(n: nat) | IdValue(id: string)

  datatype LootDrop = LootDrop(kind: LootType, chance: real, value: DropValue)

  /** A materialised loot value: an amount, a resolved weapon, or an id that
      did not resolve and is kept as it was. */
  datatype LootValue = NumberItem(n: nat) | WeaponItem(weapon: Weapon) | IdItem(id: string)

  datatype LootItem = LootItem(id: string, kind: LootType, value: LootValue, position: Vec3)

  datatype Behavior = Passive | Hostile | Training | Turret

  datatype EnemyType = SmallEnemy | BigEnemy | TurretEnemy

  /** An enemy template; an enemy instance is a preset plus an id. */
  datatype EnemyPreset = EnemyPreset(
    name: string,
    kind: EnemyType,
    health: nat,
    maxHealth: nat,
    size: real,
    color: string,
    speed: real,
    damage: nat,
    behavior: Behavior,
    fireRate: Option<real>,
    detectionRadius: Option<real>,
    lootTable: seq<LootDrop>,
    xpReward: nat)

  datatype Enemy = Enemy(id: string, stats: EnemyPreset)

  /** A projectile record as the store keeps it. */
  datatype Projectile = Projectile(id: string, position: Vec3, direction: Vec3, weapon: Weapon, ownerId: string)

  /** The event an enemy emits once when its health reaches zero. */
  datatype Death = Death(id: string, position: Vec3, lootTable: seq<LootDrop>, xpReward: nat)

  /** Decimal rendering of a natural number, as a template literal prints it. */
  function DecimalString(n: nat): (s: string)
    ensures |s| >= 1
    ensures forall i :: 0 <= i < |s| ==> '0' <= s[i] <= '9'
  {
    var last := ['0' + (n % 10) as char];
    if n < 10 then last else DecimalString(n / 10) + last
  }
}
