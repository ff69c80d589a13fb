/** The weapon reference table and the fixed game constants (constants.ts). */
module Constants {
  import opened Types

  /** Width of the square city, in world units. */
  const CitySize: int := 200
  /** Number of buildings the city generator places. */
  const BuildingCount: int := 60
  /** Milliseconds between two enemy spawns. */
  const ZombieSpawnInterval: int := 3000

  /** The `WEAPONS` record: defined for every weapon type, each entry keyed
      by its own type, loaded with a full magazine, and with positive
      damage, cadence, capacity, reload time and range. */
  function Weapons(t: WeaponType): (w: WeaponStats)
    ensures w.weaponType == t
    ensures w.ammo == w.maxAmmo
    ensures w.damage > 0 && w.fireRate > 0 && w.maxAmmo > 0
    ensures w.reloadTime > 0 && w.range > 0
  {
    match t
    case Pistol => WeaponStats(Pistol, "Tactical P9", 25, 400, 12, 12, 1500, 100)
    case Smg => WeaponStats(Smg, "Vector-Z", 15, 100, 30, 30, 2000, 60)
    case Shotgun => WeaponStats(Shotgun, "Breacher-8", 15, 800, 6, 6, 3000, 30)
  }

  /** Distinct weapon types have distinct table entries (the table is a
      one-to-one map from type to stats). */
  lemma WeaponsInjective(s: WeaponType, t: WeaponType)
    ensures Weapons(s) == Weapons(t) <==> s == t
  {
  }

  /** Magazine sizes: pistol 12, SMG 30, shotgun 6. */
  lemma MagazineSizes()
    ensures Weapons(Pistol).maxAmmo == 12
    ensures Weapons(Smg).maxAmmo == 30
    ensures Weapons(Shotgun).maxAmmo == 6
  {
  }

  /** The pistol reaches farthest and the shotgun the shortest. */
  lemma RangeOrder()
    ensures Weapons(Pistol).range > Weapons(Smg).range > Weapons(Shotgun).range
  {
  }

  /** The SMG fires fastest (shortest gap) and the shotgun slowest. */
  lemma FireRateOrder()
    ensures Weapons(Smg).fireRate < Weapons(Pistol).fireRate < Weapons(Shotgun).fireRate
  {
  }

  /** The pistol reloads fastest and the shotgun slowest. */
  lemma ReloadTimeOrder()
    ensures Weapons(Pistol).reloadTime < Weapons(Smg).reloadTime < Weapons(Shotgun).reloadTime
  {
  }
}
