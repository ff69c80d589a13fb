/** Value types shared by the game's presentation layer and its scene engine.
    WeaponType, ZombieType, WeaponStats, PlayerState and GameMessage come
    from types.ts; GameState and PlayerUpdate are the inline types of
    App.tsx; Option is a modelling helper. Numbers are modelled as unbounded
    integers. */
module Types {

  /** A value that may be absent (a modelling helper). */
  datatype Option<T> = None | Some(value: T)

  datatype WeaponType = Pistol | Smg | Shotgun

  /** Enemy tiers; the engine that uses them is not part of this model. */
  datatype ZombieType = Walker | Runner | Tank

  /** The three screens of a session: App.tsx's inline
      `'START' | 'PLAYING' | 'GAMEOVER'`. */
  datatype GameState = Start | Playing | GameOver

  /** Read-only reference data of one weapon. The floating-point `spread`
      field is not modelled. `fireRate` is the number of milliseconds between
      two shots; `damage` is per hit (per pellet for the shotgun). */
  datatype WeaponStats = WeaponStats(
    weaponType: WeaponType,
    name: string,
    damage: int,
    fireRate: int,
    ammo: int,
    maxAmmo: int,
    reloadTime: int,
    range: int)

  datatype PlayerState = PlayerState(
    health: int,
    maxHealth: int,
    score: int,
    isDashing: bool,
    dashCooldown: int,
    currentWeapon: WeaponType)

  /** One entry of the radio-message feed. */
  datatype GameMessage = GameMessage(id: string, text: string, timestamp: int)

  /** The `Partial<PlayerState>` that App.tsx's `handlePlayerUpdate` takes:
      each field is either present with a value (`Some`) or absent (`None`). */
  datatype PlayerUpdate = PlayerUpdate(
    health: Option<int>,
    maxHealth: Option<int>,
    score: Option<int>,
    isDashing: Option<bool>,
    dashCooldown: Option<int>,
    currentWeapon: Option<WeaponType>)
}
