# Neon Urban Survival: session state and weapon table

This project models the browser shooter's presentation-side session
state in Dafny. The real-time scene engine is a separate component.
The model covers:

- **Session component** (`App.tsx`). It holds four pieces of state: the
  screen (`START`, `PLAYING`, `GAMEOVER`), the player record, the shown
  ammo, and a radio-message feed that keeps at most five entries. The
  engine's callbacks replace that state.
  - `handlePlayerUpdate` merges a partial record.
  - `handleScoreUpdate` adds points. When the new score reaches a multiple
    of 100 that the old score was below, it requests flavour text.
  - `handleAmmoUpdate` sets the shown ammo.
  - `setGameState` switches the screen.
  - `startGame` resets the player and the ammo.
  - When a flavour-text reply arrives, it goes to the head of the feed.
    The feed keeps only its five newest entries.
  - The HUD shows the score as `score.toString().padStart(6, '0')`.
- **Weapon table** (`constants.ts`). This is the immutable map from weapon
  type to stats, plus the constants `CitySize` (200), `BuildingCount` (60)
  and `ZombieSpawnInterval` (3000 ms).
- **Value types**. These are Dafny datatypes. Numbers are unbounded
  integers.
  - `WeaponType`, `ZombieType`, `WeaponStats`, `PlayerState` and
    `GameMessage` come from `types.ts`.
  - `GameState` is `App.tsx`'s inline `'START' | 'PLAYING' | 'GAMEOVER'`.
  - `PlayerUpdate` is `App.tsx`'s `Partial<PlayerState>`.

Files:

- `types.dfy` (module `Types`)
- `constants.dfy` (module `Constants`)
- `session.dfy` (module `Session`): the pure updaters, as functions with lemmas.
- `score_display.dfy` (module `ScoreDisplay`): the score text.
- `app.dfy` (module `AppSession`): the component as class `App`. Its fields
  are the four pieces of state, and its methods are the callbacks.

### Behaviour worth knowing

- **One request per score update.** `App.tsx:31-32` issues a single
  request, for the new score, even when one step passes several multiples
  of 100. `Session.OneRequestFrom95To245` shows the case: a step from 95 to
  245 passes 100 and 200, and one request is issued.
- **A restart keeps the feed.** `startGame` (`App.tsx:48-59`) leaves the
  message feed as it is. A reply still in flight from the previous session
  is added to the new session's feed.

## Model

| member | source | states |
|---|---|---|
| Constants.Weapons | constants.ts:4-37 | The table is defined for all three weapon types. Each entry's `type` is its own key. Every weapon starts with a full magazine (`ammo == maxAmmo`). damage, fireRate, maxAmmo, reloadTime and range are all positive. |
| Constants.WeaponsInjective | constants.ts:4-37 | Two weapon types share an entry only if they are the same type. |
| Constants.MagazineSizes | constants.ts:10-33 | Magazine sizes are 12 (pistol), 30 (SMG) and 6 (shotgun). |
| Constants.RangeOrder | constants.ts:13-35 | Range: pistol > SMG > shotgun (100 > 60 > 30). |
| Constants.FireRateOrder | constants.ts:9-31 | Milliseconds between shots: SMG < pistol < shotgun (100 < 400 < 800). |
| Constants.ReloadTimeOrder | constants.ts:12-34 | Reload time: pistol < SMG < shotgun (1500 < 2000 < 3000). |
| Session.FreshAmmo | App.tsx:18 | The starting ammo is the fresh player's weapon's full magazine, which is 12. |
| Session.Merge | App.tsx:23-25 | Each field present in the partial update is overwritten with its value. Each absent field keeps its previous value. |
| Session.MergeNoChange | App.tsx:24 | An update with no fields changes nothing. |
| Session.MergeIdempotent | App.tsx:24 | Applying the same partial update twice gives the same record as applying it once. |
| Session.MergeThen | App.tsx:24 | Two successive merges equal one merge of the spread-combined update. Where both updates have a field, the later one wins. |
| Session.HealthChange | App.tsx:183 | The engine's health callback changes the health and no other field. |
| Session.DashChange | App.tsx:187 | The engine's dash callback changes isDashing and dashCooldown and no other field. |
| Session.WeaponChange | App.tsx:188 | The engine's weapon callback changes currentWeapon and no other field. |
| Session.Hundreds | App.tsx:31 | `Math.floor(n / 100)` is the unique q with 100q <= n < 100q + 100. This holds for negative n too. |
| Session.AddScore | App.tsx:29-40 | The new score is exactly the old score plus the points. Every other field is unchanged. The score does not decrease when the points are non-negative. |
| Session.SurvivorRequest | App.tsx:29-32 | A request is issued exactly when some multiple of 100 lies above the old score and at or below the new one. The request is for the new score. An update issues at most one request. |
| Session.CrossesIffBoundary | App.tsx:31 | The source's floor-division test holds exactly when the step reaches a multiple of 100. Both directions are proved. |
| Session.BoundariesCount | App.tsx:31 | For lo <= hi, the number of multiples of 100 above lo and at or below hi is `Math.floor(hi / 100) - Math.floor(lo / 100)`. |
| Session.BoundariesCrossed | App.tsx:31 | For a step from lo up to hi, the difference of the two hundreds equals the number of multiples of 100 the step reaches. The count is positive exactly when the step reaches one. |
| Session.OneRequestFrom80To120 | App.tsx:31-32 | A step from 80 to 120 crosses one boundary and issues one request, for 120. |
| Session.OneRequestFrom95To245 | App.tsx:31-32 | A step from 95 to 245 crosses two boundaries (100 and 200) but issues only one request, for 245. |
| Session.NoRequestWithinBlock | App.tsx:31 | A step that stays within one block of 100 issues no request. |
| Session.Take | App.tsx:37 | `slice(0, n)` returns the first min(length, n) elements, in their order. |
| Session.PushMessage | App.tsx:33-37 | The new message is at index 0. The previous messages follow in their order. The feed is cut to its five newest entries. |
| Session.PushAllKeepsNewest | App.tsx:33-37 | After any sequence of arrivals, the feed holds the five newest messages, newest first, followed by what it held before, cut to five entries. |
| ScoreDisplay.Digits | App.tsx:114 | `toString` writes a non-negative score as decimal digits. There is at least one digit, and no leading zero: 0 is written "0". |
| ScoreDisplay.NumberToString | App.tsx:114 | `toString` of an integer starts with a minus sign exactly when the number is negative. The rest is decimal digits that read back as the number's size, with no leading zero. 0 is written "0". |
| ScoreDisplay.PadStart | App.tsx:114 | `padStart` returns a string that is already long enough unchanged. Otherwise it left-fills with the fill character to the target length, and the original string is the suffix. |
| ScoreDisplay.PaddedDigits | App.tsx:114 | The digits of a non-negative number, left-filled with zeros to width 6, read back as the number. They are exactly six characters below 1000000 and unpadded from 100000 on. |
| ScoreDisplay.FormatScore | App.tsx:114 | The HUD text of a non-negative score is all digits and reads back as the score. Scores 0 to 999999 take exactly six characters, and scores of 100000 or more are shown as their plain digits. A negative score is its digits behind a minus sign, with any padding zeros in front of the sign. |
| ScoreDisplay.PaddedNegative | App.tsx:114 | Padding the text of a negative number puts the zeros in front of the minus sign. A number with five or more digits is left unpadded. |
| ScoreDisplay.NegativeScoreWidth | App.tsx:114 | Every score from -99999 to -1 is shown in exactly six characters, with the minus sign right before its digits. |
| ScoreDisplay.FormatNegativeScore | App.tsx:114 | A negative score keeps its minus sign after the padding zeros: -5 is shown as "0000-5". |
| AppSession.App.constructor | App.tsx:9-19 | The session starts on the title screen with player {100, 100, 0, false, 0, PISTOL}, the pistol's 12 rounds and an empty feed. |
| AppSession.App.HandlePlayerUpdate | App.tsx:23-25 | The player becomes the merge of the old record with the update. Nothing else changes. |
| AppSession.App.HandleScoreUpdate | App.tsx:27-42 | The player's score grows by the points and the other fields stay the same. The returned request is the one `SurvivorRequest` describes. The feed is not touched. |
| AppSession.App.ReceiveSurvivorMessage | App.tsx:32-38 | The reply goes to the head of the feed and the feed keeps its five newest entries. Only the feed changes, and it stays at most five long. |
| AppSession.App.HandleAmmoUpdate | App.tsx:44-46 | The shown ammo becomes the reported value. Nothing else changes. |
| AppSession.App.SetGameState | App.tsx:186 | The screen becomes the reported game state. Nothing else changes. |
| AppSession.App.StartGame | App.tsx:48-59 | The screen becomes PLAYING, the player becomes {100, 100, 0, false, 0, PISTOL} and the ammo becomes the pistol's 12. The message feed is kept. |
| AppSession.App.ScoreText | App.tsx:114 | The HUD text of a non-negative score is all digits and reads back as the score. It is exactly six characters for scores 0 to 999999 and the plain digits from 100000 on. |

## Left out

- The scene engine (`components/GameScene`) is not part of this model. That covers weapon firing and reloading, enemies, collision, dash timing, city generation and health clamping. The session accepts whatever values the engine reports, so no bounds on health or ammo are claimed.
- The flavour-text service (`getSurvivorMessage`) is a network call. It is modelled as the request value that `HandleScoreUpdate` returns, plus the reply callback `ReceiveSurvivorMessage`. A failed call or a reply that never comes is the case where that callback never runs.
- Message ids come from `Math.random()` and timestamps from `Date.now()`. Both are parameters of `ReceiveSurvivorMessage`.
- `spread` is a floating-point field and is not in `WeaponStats`.
- `damage` is per pellet for the shotgun. The table records the number, but the pellet logic lives in the engine.
- The pointer-lock listener and the `isLocked` flag are browser plumbing.
- JSX rendering, overlays, message opacity and the dash-meter width are UI arithmetic.
- `ZombieType` is transcribed from `types.ts` but nothing in the modelled files uses it; the enemy tiers live in the engine.
- JavaScript numbers are doubles, but the model uses unbounded integers. It does not cover fractional values, precision loss above 2^53, or `toString`'s exponent notation at 10^21 and above.
- A partial update can have a key that is present with the value `undefined`. In JavaScript that key would overwrite the field with `undefined`. This is not modelled, because every caller in `App.tsx` passes defined values.
- React may batch state updates. In development mode it may also run a state updater twice, which would send the flavour-text request twice. The model applies the callbacks one at a time, each exactly once.
