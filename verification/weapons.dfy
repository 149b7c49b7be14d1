/** The weapon catalogue and its two lookups. */
module Weapons {
  import opened Types

  const BasicPeaShooter := Weapon("basic-pea-shooter", "Basic Pea Shooter", 10, 2.0, 30.0, "#66ff66", 20.0, 0.15)
  const BlueBlaster := Weapon("blue-blaster", "Blue Blaster", 25, 3.0, 40.0, "#3b82f6", 30.0, 0.2)
  const PurplePlasma := Weapon("purple-plasma", "Purple Plasma", 40, 1.5, 50.0, "#a855f7", 25.0, 0.25)

  /** The WEAPONS record, keyed by weapon id. */
  const Catalogue: map<string, Weapon> := map[
    "basic-pea-shooter" := BasicPeaShooter,
    "blue-blaster" := BlueBlaster,
    "purple-plasma" := PurplePlasma]

  /** Every entry is filed under its own id and is well formed, and the table
      holds exactly the three weapons. */
  lemma CatalogueIsConsistent()
    ensures Catalogue.Keys == {"basic-pea-shooter", "blue-blaster", "purple-plasma"}
    ensures forall k :: k in Catalogue ==> Catalogue[k].id == k && WellFormed(Catalogue[k])
  {
    forall k | k in Catalogue
      ensures Catalogue[k].id == k && WellFormed(Catalogue[k])
    {
      assert k == "basic-pea-shooter" || k == "blue-blaster" || k == "purple-plasma";
    }
  }

  /** Lookup by id; unknown ids give None (JavaScript's undefined). */
  function GetWeaponById(id: string): (r: Option<Weapon>)
    ensures r.Some? <==> id in Catalogue
    ensures r.Some? ==> r.value == Catalogue[id] && r.value.id == id && WellFormed(r.value)
  {
    CatalogueIsConsistent();
    if id in Catalogue then Some(Catalogue[id]) else None
  }

  /** The weapon every new game starts with. */
  function GetStarterWeapon(): (w: Weapon)
    ensures w.id == "basic-pea-shooter" && GetWeaponById(w.id) == Some(w)
    ensures WellFormed(w)
  {
    Catalogue["basic-pea-shooter"]
  }
}
