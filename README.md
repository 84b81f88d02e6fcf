# Shooter variant combat rules

A model of the server-side combat rules of the Unreal "Variant_Shooter"
game:

- the weapon's firing and reload state machine (`AShooterWeapon`);
- the team score table and victory check (`AShooterGameMode`);
- health, death and respawn for the player character (`AShooterCharacter`),
  together with its weapon inventory;
- health, death and respawn for the AI soldier (`AShooterNPC`);
- the possession handshake of the AI controller (`AShooterAIController`).

Each of these classes updates its own fields step by step. Each one is
therefore a Dafny `class` with the same fields, and its members are methods
with `modifies` clauses. Each class also has a pure partner module of
functions over a snapshot datatype of its fields. Every method is proved to
have exactly the effect the matching function gives it
(`ensures State() == XStep(old(State()))`). The properties (invariants,
traces of calls, round trips) are proved as lemmas about those functions,
so they hold of the class.

| file | module | models |
|---|---|---|
| common.dfy | `Common` | `uint8` team ids, timer handles, references to actors, controllers and weapon classes |
| weapon_rules.dfy | `WeaponRules` | the weapon's state machine as functions, and lemmas over every sequence of calls and timer expiries |
| weapon.dfy | `Weapon` | class `ShooterWeapon` |
| score_rules.dfy | `ScoreRules` | find-or-append scoring, the first-match victory scan, the match invariant |
| game_mode.dfy | `GameMode` | class `ShooterGameMode`, including the source's index loop and scan loop |
| character_rules.dfy | `CharacterRules` | damage, death and respawn of a character, death statistics, inventory add and cyclic switch |
| character.dfy | `Character` | class `ShooterCharacter`, which owns `ShooterWeapon` objects and scores through `ShooterGameMode` |
| npc_rules.dfy | `NpcRules` | damage, the idempotent death and its respawn-or-destroy choice, the NPC's weapon, binding the death handler once |
| ai.dfy | `AI` | classes `ShooterNPC` and `ShooterAIController`, which refer to each other |

How the model represents the engine:

- **Timers.** A timer handle is `Cleared` or `Armed(callback, delay)`.
  Each class has an "On...Timer" method for each timer. It stands for that
  timer running out: it spends the handle and runs the callback.
- **World time.** The current time is a parameter `now`.
- **Authority.** `HasAuthority()` is a constant of each object's
  configuration.
- **Notifications.** Calls on the weapon holder, the HUD, the statistics
  hooks, the StateTree and the perception listeners are appended to logs.
  The logs keep their order.

- **Setting a timer.** `Common.Arm` stands for `SetTimer`. A positive
  delay arms the handle. A delay of zero or less clears the handle, so the
  callback never runs.

Behaviour of the code a reader might not expect:

- **Who scores.** Both death paths credit the dying body's own `TeamByte`
  (`ShooterCharacter.cpp:352`, `AI/ShooterNPC.cpp:240`), not the killer's
  team.
- **HP is not clamped.** `TakeDamage` subtracts the damage from
  `CurrentHP` without a lower bound (`ShooterCharacter.cpp:109`,
  `AI/ShooterNPC.cpp:74`), so HP can become negative. Only the fraction
  sent to the HUD is clamped at 0 (`ShooterCharacter.cpp:118`).
- **Firing and reloading overlap.** `StartFiring`
  (`Weapons/ShooterWeapon.cpp:106-129`) does not look at `bIsReloading`.
  `WeaponRules.FiringDuringReloadIsReachable` proves that both flags can be
  up at once. `Fire` still refuses to shoot while reloading
  (`Weapons/ShooterWeapon.cpp:224`).
- **The victory check has no end-of-game guard.**
  `CheckVictoryCondition` (`ShooterGameMode.cpp:86-109`) does not test
  `bGameEnded`. Scores freeze only because `IncrementTeamScore` returns
  early once the game has ended (`ShooterGameMode.cpp:42`).
  `ScoreRules.EndedGameIsFrozen` proves this.
- **Zero delays stop things.** `RespawnTime`, `InvulnerabilityDuration`
  and `VictoryRestartDelay` may be 0 (`ShooterCharacter.h:89`,
  `ShooterCharacter.h:95`, `ShooterGameMode.h:57`).
  `DeferredDestructionTime` has no lower bound (`AI/ShooterNPC.h:50`).
  Each of these delays goes straight to `SetTimer`, so a delay of 0 means
  the timer never fires. The effects:
  - a dead character is never destroyed;
  - spawn protection never ends;
  - a won game never restarts;
  - a dead NPC that does not respawn stays in the world.

  A full-auto trigger pulled at the very time of the last shot schedules
  its retry after 0 seconds (`Weapons/ShooterWeapon.cpp:125`), which drops
  the retry.

## Model

All source paths are under `FPSDemo/Source/FPSDemo/Variant_Shooter/`.

| member | source | states |
|---|---|---|
| Common.FirstIndex | FPSDemo/Source/FPSDemo/Variant_Shooter/ShooterCharacter.cpp:289-303 | the first index holding the element, or -1 exactly when there is none; used for `OwnedWeapons.Find` (`ShooterCharacter.cpp:156`) and for `FindWeaponOfType` |
| Common.Arm | FPSDemo/Source/FPSDemo/Variant_Shooter/ShooterCharacter.cpp:368 | `SetTimer`: the handle is armed, with the callback and the delay, exactly when the delay is positive |
| Common.FirstIndexAt | FPSDemo/Source/FPSDemo/Variant_Shooter/ShooterCharacter.cpp:289-303 | a position holding the element with no earlier match is exactly the index `FirstIndex` returns |
| WeaponRules.BeginPlayStep | FPSDemo/Source/FPSDemo/Variant_Shooter/Weapons/ShooterWeapon.cpp:44-60 | the first magazine is full (`CurrentBullets == MagazineSize`); nothing else changes; the magazine is then in bounds |
| WeaponRules.Spawned | FPSDemo/Source/FPSDemo/Variant_Shooter/Weapons/ShooterWeapon.cpp:44-60 | a spawned weapon has a full magazine and is neither firing nor reloading |
| WeaponRules.StopFiringStep | FPSDemo/Source/FPSDemo/Variant_Shooter/Weapons/ShooterWeapon.cpp:131-138 | the firing flag is down and the refire timer cleared; nothing else changes |
| WeaponRules.FireProjectileStep | FPSDemo/Source/FPSDemo/Variant_Shooter/Weapons/ShooterWeapon.cpp:265-296 | without authority nothing changes; on the authority exactly one bullet is consumed and the holder sees projectile, montage, recoil and a HUD update with the new count, in that order |
| WeaponRules.FireStep | FPSDemo/Source/FPSDemo/Variant_Shooter/Weapons/ShooterWeapon.cpp:215-257 | trigger released or reloading: no change at all; empty magazine: exactly `StopFiring`; otherwise one shot, last-shot time set to `now`, noise made, and the refire timer set for `RefireRate` (armed only when positive) with `Fire` (full auto) or the cooldown (semi auto); the magazine stays in bounds |
| WeaponRules.StartFiringStep | FPSDemo/Source/FPSDemo/Variant_Shooter/Weapons/ShooterWeapon.cpp:106-129 | fires at once iff more than `RefireRate` has passed since the last shot; otherwise a full-auto weapon sets `Fire` after the elapsed time (armed only when that is positive) and a semi-auto one only raises the flag; the reload state is untouched; the flag ends down only if the shot found an empty magazine |
| WeaponRules.StartReloadStep | FPSDemo/Source/FPSDemo/Variant_Shooter/Weapons/ShooterWeapon.cpp:146-177 | no change without authority, when `CanReload` (not reloading, below magazine size, not firing) is false, or with a full magazine; otherwise reloading, not firing, the reload montage if any, and the reload timer set for `ReloadTime` (armed only when positive) |
| WeaponRules.CanReload | FPSDemo/Source/FPSDemo/Variant_Shooter/Weapons/ShooterWeapon.cpp:140-144 | a reload may start exactly when the weapon is not reloading, holds fewer bullets than `MagazineSize` and is not firing |
| WeaponRules.ReloadStartsIffCanReload | FPSDemo/Source/FPSDemo/Variant_Shooter/Weapons/ShooterWeapon.cpp:146-161 | on the authority, `StartReload` changes the weapon exactly when `CanReload` holds, and then it is the one that raises the reloading flag |
| WeaponRules.StopReloadStep | FPSDemo/Source/FPSDemo/Variant_Shooter/Weapons/ShooterWeapon.cpp:179-192 | no change without authority; otherwise the reloading flag is down and the reload timer is cleared; nothing else changes |
| WeaponRules.ReloadCompleteStep | FPSDemo/Source/FPSDemo/Variant_Shooter/Weapons/ShooterWeapon.cpp:194-213 | no change without authority; otherwise a full magazine, reloading lowered and the HUD told; firing and timers untouched; the magazine stays in bounds |
| WeaponRules.FireCooldownExpiredStep | FPSDemo/Source/FPSDemo/Variant_Shooter/Weapons/ShooterWeapon.cpp:259-263 | the holder is told it may refire; nothing else changes |
| WeaponRules.ActivateStep | FPSDemo/Source/FPSDemo/Variant_Shooter/Weapons/ShooterWeapon.cpp:79-86 | the weapon is shown and the holder notified; nothing else changes |
| WeaponRules.DeactivateStep | FPSDemo/Source/FPSDemo/Variant_Shooter/Weapons/ShooterWeapon.cpp:88-104 | firing stopped and the refire timer cleared; an in-progress reload stopped on the authority; hidden; the holder notified; ammo untouched |
| WeaponRules.RefireElapsedStep | FPSDemo/Source/FPSDemo/Variant_Shooter/Weapons/ShooterWeapon.cpp:247-256 | a cleared refire timer does nothing; an armed one is spent and runs `Fire` or `FireCooldownExpired`, whichever it was armed with |
| WeaponRules.ReloadElapsedStep | FPSDemo/Source/FPSDemo/Variant_Shooter/Weapons/ShooterWeapon.cpp:175-176 | a cleared reload timer does nothing; an armed one is spent and runs `ReloadComplete` |
| WeaponRules.StepKeepsAmmoInBounds | FPSDemo/Source/FPSDemo/Variant_Shooter/Weapons/ShooterWeapon.cpp:291-292 | every call and timer expiry keeps `0 <= CurrentBullets <= MagazineSize` |
| WeaponRules.RunKeepsAmmoInBounds | FPSDemo/Source/FPSDemo/Variant_Shooter/Weapons/ShooterWeapon.cpp:229-235 | the magazine invariant holds after any sequence of calls and expiries |
| WeaponRules.SpawnedWeaponKeepsAmmoInBounds | FPSDemo/Source/FPSDemo/Variant_Shooter/Weapons/ShooterWeapon.cpp:56 | once `BeginPlay` has filled the magazine, the invariant holds forever |
| WeaponRules.FireSpendsOneBulletPerProjectile | FPSDemo/Source/FPSDemo/Variant_Shooter/Weapons/ShooterWeapon.cpp:215-257 | bullets plus projectiles spawned are unchanged by `Fire`: each accepted shot costs exactly one bullet |
| WeaponRules.StepSpendsOneBulletPerProjectile | FPSDemo/Source/FPSDemo/Variant_Shooter/Weapons/ShooterWeapon.cpp:265-296 | the same accounting for every call and expiry other than a completed reload |
| WeaponRules.RunSpendsOneBulletPerProjectile | FPSDemo/Source/FPSDemo/Variant_Shooter/Weapons/ShooterWeapon.cpp:291-292 | over any run with no completed reload, the bullets lost equal the projectiles spawned |
| WeaponRules.ClientNeverSpendsAmmo | FPSDemo/Source/FPSDemo/Variant_Shooter/Weapons/ShooterWeapon.cpp:146-213 | without authority, no sequence of events changes the bullet count or the reloading flag |
| WeaponRules.RunKeepsReloadTimerMatched | FPSDemo/Source/FPSDemo/Variant_Shooter/Weapons/ShooterWeapon.cpp:160-192 | on the authority with a positive `ReloadTime`, the reload timer is pending exactly while the weapon is reloading, after any run |
| WeaponRules.ReloadFillsMagazine | FPSDemo/Source/FPSDemo/Variant_Shooter/Weapons/ShooterWeapon.cpp:194-206 | the reload protocol: with a positive `ReloadTime`, a permitted `StartReload` followed by its timer ends with a full magazine, the flag down and the timer spent |
| WeaponRules.ZeroReloadTimeLeavesReloadPending | FPSDemo/Source/FPSDemo/Variant_Shooter/Weapons/ShooterWeapon.cpp:160-177 | as written, with a `ReloadTime` of zero or less `StartReload` raises the flag but arms no timer: the reload timer event finds nothing, the magazine is not refilled, the flag stays up, and no further reload is allowed |
| WeaponRules.FiringDuringReloadIsReachable | FPSDemo/Source/FPSDemo/Variant_Shooter/Weapons/ShooterWeapon.cpp:106-109 | as written, pulling the trigger during a reload leaves both flags up, and no bullet is spent |
| WeaponRules.FullAutoRetryCanBeatRefireRate | FPSDemo/Source/FPSDemo/Variant_Shooter/Weapons/ShooterWeapon.cpp:125 | as written, the full-auto retry is armed with the time since the last shot, so a trigger pulled later than the last shot but within half a refire interval of it fires again sooner than `RefireRate` after the previous shot |
| WeaponRules.SameInstantRetryIsDropped | FPSDemo/Source/FPSDemo/Variant_Shooter/Weapons/ShooterWeapon.cpp:117-126 | as written, a full-auto trigger pulled at the time of the last shot sets its retry for zero seconds, which clears the refire timer: the weapon is left firing with nothing scheduled, and a refire timer event changes nothing |
| Weapon.ShooterWeapon.constructor | FPSDemo/Source/FPSDemo/Variant_Shooter/Weapons/ShooterWeapon.cpp:44-60 | a spawned weapon is in the `Spawned` state of its configuration |
| Weapon.ShooterWeapon.BeginPlay | FPSDemo/Source/FPSDemo/Variant_Shooter/Weapons/ShooterWeapon.cpp:44-60 | the fields change as `BeginPlayStep` says |
| Weapon.ShooterWeapon.ActivateWeapon | FPSDemo/Source/FPSDemo/Variant_Shooter/Weapons/ShooterWeapon.cpp:79-86 | the fields change as `ActivateStep` says |
| Weapon.ShooterWeapon.DeactivateWeapon | FPSDemo/Source/FPSDemo/Variant_Shooter/Weapons/ShooterWeapon.cpp:88-104 | the fields change as `DeactivateStep` says |
| Weapon.ShooterWeapon.StartFiring | FPSDemo/Source/FPSDemo/Variant_Shooter/Weapons/ShooterWeapon.cpp:106-129 | the fields change as `StartFiringStep` says |
| Weapon.ShooterWeapon.StopFiring | FPSDemo/Source/FPSDemo/Variant_Shooter/Weapons/ShooterWeapon.cpp:131-138 | the fields change as `StopFiringStep` says |
| Weapon.ShooterWeapon.StartReload | FPSDemo/Source/FPSDemo/Variant_Shooter/Weapons/ShooterWeapon.cpp:146-177 | the fields change as `StartReloadStep` says |
| Weapon.ShooterWeapon.CanReload | FPSDemo/Source/FPSDemo/Variant_Shooter/Weapons/ShooterWeapon.cpp:140-144 | true exactly when the weapon is not reloading, its bullets are below `MagazineSize` and it is not firing |
| Weapon.ShooterWeapon.StopReload | FPSDemo/Source/FPSDemo/Variant_Shooter/Weapons/ShooterWeapon.cpp:179-192 | the fields change as `StopReloadStep` says |
| Weapon.ShooterWeapon.ReloadComplete | FPSDemo/Source/FPSDemo/Variant_Shooter/Weapons/ShooterWeapon.cpp:194-213 | the fields change as `ReloadCompleteStep` says |
| Weapon.ShooterWeapon.Fire | FPSDemo/Source/FPSDemo/Variant_Shooter/Weapons/ShooterWeapon.cpp:215-257 | the fields change as `FireStep` says |
| Weapon.ShooterWeapon.FireCooldownExpired | FPSDemo/Source/FPSDemo/Variant_Shooter/Weapons/ShooterWeapon.cpp:259-263 | the fields change as `FireCooldownExpiredStep` says |
| Weapon.ShooterWeapon.FireProjectile | FPSDemo/Source/FPSDemo/Variant_Shooter/Weapons/ShooterWeapon.cpp:265-296 | the fields change as `FireProjectileStep` says |
| Weapon.ShooterWeapon.OnRefireTimer | FPSDemo/Source/FPSDemo/Variant_Shooter/Weapons/ShooterWeapon.cpp:247-256 | the fields change as `RefireElapsedStep` says |
| Weapon.ShooterWeapon.OnReloadTimer | FPSDemo/Source/FPSDemo/Variant_Shooter/Weapons/ShooterWeapon.cpp:175-176 | the fields change as `ReloadElapsedStep` says |
| ScoreRules.FindTeam | FPSDemo/Source/FPSDemo/Variant_Shooter/ShooterGameMode.cpp:47-59 | the index of the first entry of the team, or -1 exactly when the table has no entry for it |
| ScoreRules.Credit | FPSDemo/Source/FPSDemo/Variant_Shooter/ShooterGameMode.cpp:61-73 | an existing entry rises by exactly one in place and the other entries are unchanged; otherwise `(team, 1)` is appended at the end; unique team ids stay unique |
| ScoreRules.CreditAddsOnePoint | FPSDemo/Source/FPSDemo/Variant_Shooter/ShooterGameMode.cpp:47-73 | read as a map from team to score, a credit adds one to that team and leaves every other team's score as it was |
| ScoreRules.CreditRaisesTotalByOne | FPSDemo/Source/FPSDemo/Variant_Shooter/ShooterGameMode.cpp:61-73 | each credit adds exactly one point to the table as a whole |
| ScoreRules.FirstWinner | FPSDemo/Source/FPSDemo/Variant_Shooter/ShooterGameMode.cpp:94-111 | the first entry in array order whose score reached the target, or -1 exactly when none has |
| ScoreRules.CheckVictoryStep | FPSDemo/Source/FPSDemo/Variant_Shooter/ShooterGameMode.cpp:86-112 | without authority or without a qualifying entry, nothing changes; otherwise the game ends, the first qualifying team is the winner and the restart timer is set for `VictoryRestartDelay` (armed only when positive); scores untouched |
| ScoreRules.IncrementStep | FPSDemo/Source/FPSDemo/Variant_Shooter/ShooterGameMode.cpp:33-84 | a no-op without authority or once the game has ended; otherwise the team's score rises by exactly one, then the victory check runs |
| ScoreRules.RestartStep | FPSDemo/Source/FPSDemo/Variant_Shooter/ShooterGameMode.cpp:114-120 | not ended, winner 255, empty table |
| ScoreRules.BeginPlayStep | FPSDemo/Source/FPSDemo/Variant_Shooter/ShooterGameMode.cpp:12-17 | the table is emptied and nothing else changes |
| ScoreRules.RestartElapsedStep | FPSDemo/Source/FPSDemo/Variant_Shooter/ShooterGameMode.cpp:107 | an armed restart timer is spent and runs the reset; a cleared one does nothing |
| ScoreRules.FreshSatisfiesInvariant | FPSDemo/Source/FPSDemo/Variant_Shooter/ShooterGameMode.h:69 | a new game mode (empty table, not ended, winner 255) satisfies the match invariant: unique ids, scores in `1..TargetScore`, and below the target while the game runs |
| ScoreRules.IncrementKeepsInvariant | FPSDemo/Source/FPSDemo/Variant_Shooter/ShooterGameMode.cpp:33-84 | `IncrementTeamScore` keeps the match invariant when `TargetScore >= 1` (its `ClampMin`) |
| ScoreRules.CheckVictoryKeepsInvariant | FPSDemo/Source/FPSDemo/Variant_Shooter/ShooterGameMode.cpp:86-112 | the victory check keeps the match invariant |
| ScoreRules.RestartKeepsInvariant | FPSDemo/Source/FPSDemo/Variant_Shooter/ShooterGameMode.cpp:114-120 | the reset, the restart timer and `BeginPlay` keep the match invariant |
| ScoreRules.ScoresFitInt32 | FPSDemo/Source/FPSDemo/Variant_Shooter/ShooterGameMode.cpp:62 | under the invariant no score exceeds the target, so `++Score` cannot overflow an `int32` |
| ScoreRules.EndedGameIsFrozen | FPSDemo/Source/FPSDemo/Variant_Shooter/ShooterGameMode.cpp:41-45 | once the game has ended, any number of further increments change nothing |
| ScoreRules.IncrementsKeepInvariant | FPSDemo/Source/FPSDemo/Variant_Shooter/ShooterGameMode.cpp:33-84 | the match invariant holds after any sequence of increments |
| ScoreRules.OneTeamReachesTarget | FPSDemo/Source/FPSDemo/Variant_Shooter/ShooterGameMode.cpp:94-111 | from a fresh table, `k` points for one team give it a single entry with score `k`; the game has ended exactly when `k` reaches the target, and then that team is the winner |
| ScoreRules.DefaultMatchConfig | FPSDemo/Source/FPSDemo/Variant_Shooter/ShooterGameMode.h:54-58 | the defaults: a target score of 10 and a restart delay of 5 s |
| ScoreRules.DefaultMatchIsWonAtTen | FPSDemo/Source/FPSDemo/Variant_Shooter/ShooterGameMode.cpp:94-111 | with the defaults, a team scoring alone from a fresh match has not won after nine points and has won, as the winner, with its tenth |
| ScoreRules.IncrementsLast | FPSDemo/Source/FPSDemo/Variant_Shooter/ShooterGameMode.cpp:33-84 | a run of increments followed by one more is the run extended by that increment |
| ScoreRules.CheckVictoryIsIdempotent | FPSDemo/Source/FPSDemo/Variant_Shooter/ShooterGameMode.cpp:86-112 | although unguarded, a second victory check leaves the match state (ended flag, winner, scores, timer handle) as the first left it; it does restart the countdown and notify `BP_OnTeamVictory` again, which this state does not record |
| ScoreRules.ZeroRestartDelayNeverRestarts | FPSDemo/Source/FPSDemo/Variant_Shooter/ShooterGameMode.cpp:98-107 | as written, with a `VictoryRestartDelay` of zero the won game ends and its restart timer is cleared, so the restart never runs |
| GameMode.ShooterGameMode.constructor | FPSDemo/Source/FPSDemo/Variant_Shooter/ShooterGameMode.h:53-69 | a fresh match that satisfies the invariant, given `TargetScore >= 1` |
| GameMode.ShooterGameMode.BeginPlay | FPSDemo/Source/FPSDemo/Variant_Shooter/ShooterGameMode.cpp:12-31 | the fields change as `BeginPlayStep` says; the invariant is kept |
| GameMode.ShooterGameMode.IncrementTeamScore | FPSDemo/Source/FPSDemo/Variant_Shooter/ShooterGameMode.cpp:33-84 | the in-place update or append has the effect of `IncrementStep`; the invariant is kept |
| GameMode.ShooterGameMode.TeamIndexOf | FPSDemo/Source/FPSDemo/Variant_Shooter/ShooterGameMode.cpp:47-59 | the search loop returns `FindTeam`'s index: the team's first entry, or -1 |
| GameMode.ShooterGameMode.CheckVictoryCondition | FPSDemo/Source/FPSDemo/Variant_Shooter/ShooterGameMode.cpp:86-112 | the scan with `break` has the effect of `CheckVictoryStep`; the invariant is kept |
| GameMode.ShooterGameMode.RestartGameAfterVictory | FPSDemo/Source/FPSDemo/Variant_Shooter/ShooterGameMode.cpp:114-130 | the state reset of `RestartStep`; the invariant holds after it |
| GameMode.ShooterGameMode.OnVictoryRestartTimer | FPSDemo/Source/FPSDemo/Variant_Shooter/ShooterGameMode.cpp:107 | the fields change as `RestartElapsedStep` says |
| GameMode.ShooterGameMode.RecordKill | FPSDemo/Source/FPSDemo/Variant_Shooter/ShooterCharacter.cpp:331 | the call is logged; the score state is untouched |
| GameMode.ShooterGameMode.RecordDeath | FPSDemo/Source/FPSDemo/Variant_Shooter/ShooterCharacter.cpp:322 | the call is logged; the score state is untouched |
| CharacterRules.HealthFractionBounds | FPSDemo/Source/FPSDemo/Variant_Shooter/ShooterCharacter.cpp:118 | `Max(0, HP / MaxHP)`: never negative, zero exactly when HP is at or below zero, exactly HP / MaxHP otherwise, and at most 1 while HP is at most MaxHP |
| CharacterRules.BeginPlayStep | FPSDemo/Source/FPSDemo/Variant_Shooter/ShooterCharacter.cpp:32-48 | HP becomes MaxHP; on the authority the body is invulnerable with its timer set for `InvulnerabilityDuration` (armed only when positive); the HUD is shown full health |
| CharacterRules.InvulnerabilityExpiredStep | FPSDemo/Source/FPSDemo/Variant_Shooter/ShooterCharacter.cpp:392-402 | the flag is cleared on the authority only; nothing else changes |
| CharacterRules.InvulnerabilityElapsedStep | FPSDemo/Source/FPSDemo/Variant_Shooter/ShooterCharacter.cpp:43 | an armed invulnerability timer is spent and runs `OnInvulnerabilityExpired` |
| CharacterRules.Dealt | FPSDemo/Source/FPSDemo/Variant_Shooter/ShooterCharacter.cpp:82-121 | `TakeDamage` returns the damage for an accepted hit and 0 when there is no authority, the character is already dead, or it is invulnerable |
| CharacterRules.DieStep | FPSDemo/Source/FPSDemo/Variant_Shooter/ShooterCharacter.cpp:355-368 | input disabled, the bullet counter shown as 0/0, then `BP_OnDeath`, and the respawn timer set for `RespawnTime` (armed only when positive) |
| CharacterRules.HitStep | FPSDemo/Source/FPSDemo/Variant_Shooter/ShooterCharacter.cpp:82-121 | a rejected hit changes nothing; an accepted one subtracts exactly the damage with no clamp, overwrites the instigator only with a present one, runs `Die` exactly when HP reaches zero or below, and reports the clamped fraction |
| CharacterRules.WoundStep | FPSDemo/Source/FPSDemo/Variant_Shooter/ShooterCharacter.cpp:102-109 | HP drops by exactly the damage and a present instigator replaces the recorded one; nothing else changes |
| CharacterRules.SettleStep | FPSDemo/Source/FPSDemo/Variant_Shooter/ShooterCharacter.cpp:111-118 | at zero HP or below the respawn timer is set and input disabled, otherwise both are untouched; HP, instigator and protection are untouched; the HUD gets the death entries when dying, then the clamped fraction |
| CharacterRules.RespawnStep | FPSDemo/Source/FPSDemo/Variant_Shooter/ShooterCharacter.cpp:371-390 | the body is destroyed and `EndPlay` clears both timers |
| CharacterRules.RespawnElapsedStep | FPSDemo/Source/FPSDemo/Variant_Shooter/ShooterCharacter.cpp:368 | a cleared respawn timer does nothing; when an armed one runs out, the body is destroyed |
| CharacterRules.DeathStats | FPSDemo/Source/FPSDemo/Variant_Shooter/ShooterCharacter.cpp:314-333 | a death is recorded iff the victim's controller is a player controller, a kill iff the last instigator is one, and the death comes first |
| CharacterRules.DepletedBodyIgnoresHits | FPSDemo/Source/FPSDemo/Variant_Shooter/ShooterCharacter.cpp:90-94 | a body at zero HP or below ignores every later hit and never dies again |
| CharacterRules.DieRunsAtMostOnce | FPSDemo/Source/FPSDemo/Variant_Shooter/ShooterCharacter.cpp:111-115 | however many hits a body takes, `Die` runs at most once |
| CharacterRules.SpawnProtection | FPSDemo/Source/FPSDemo/Variant_Shooter/ShooterCharacter.cpp:37-44 | on the authority a freshly spawned body ignores every hit; once its invulnerability timer runs out it accepts hits again exactly when `InvulnerabilityDuration` is positive (a zero duration arms no timer, so the protection is permanent) |
| CharacterRules.ProtectedBodyIgnoresHits | FPSDemo/Source/FPSDemo/Variant_Shooter/ShooterCharacter.cpp:96-100 | an invulnerable body is unchanged by any sequence of hits |
| CharacterRules.ClientIgnoresHits | FPSDemo/Source/FPSDemo/Variant_Shooter/ShooterCharacter.cpp:84-88 | without authority no sequence of hits changes the body or kills it |
| CharacterRules.KilledBodyIsDestroyedOnRespawn | FPSDemo/Source/FPSDemo/Variant_Shooter/ShooterCharacter.cpp:368-389 | a fatal hit arms the respawn timer exactly when `RespawnTime` is positive, and when it runs out the body is destroyed; with a zero `RespawnTime` the timer event changes nothing, so the dead body stays |
| CharacterRules.DefaultConfig | FPSDemo/Source/FPSDemo/Variant_Shooter/ShooterCharacter.h:65-96 | the defaults: 500 HP, 3 s of spawn protection, a 5 s respawn time and team 0 |
| CharacterRules.DefaultCharacterTimers | FPSDemo/Source/FPSDemo/Variant_Shooter/ShooterCharacter.cpp:32-48 | with the defaults, on the authority, spawn protection is armed for 3 s, ignores every hit and ends when it runs out; a fatal hit arms the 5 s respawn timer, which destroys the body |
| CharacterRules.AddStep | FPSDemo/Source/FPSDemo/Variant_Shooter/ShooterCharacter.cpp:235-267 | a null class or one already owned leaves the inventory unchanged; otherwise the weapon is appended and becomes current; the inventory invariant is kept |
| CharacterRules.SwitchIndex | FPSDemo/Source/FPSDemo/Variant_Shooter/ShooterCharacter.cpp:156-167 | the next index after the current one, wrapping from the last to 0, never the current one |
| CharacterRules.SwitchStep | FPSDemo/Source/FPSDemo/Variant_Shooter/ShooterCharacter.cpp:147-175 | with fewer than two weapons nothing changes; otherwise the next weapon becomes current; the owned list is unchanged and the invariant is kept |
| CharacterRules.SwitchStepIsSuccessorModulo | FPSDemo/Source/FPSDemo/Variant_Shooter/ShooterCharacter.cpp:156-167 | with two or more weapons the new current index is `(i + 1) % n` |
| CharacterRules.Switches | FPSDemo/Source/FPSDemo/Variant_Shooter/ShooterCharacter.cpp:147-175 | any number of switches keeps the owned list and the inventory invariant |
| CharacterRules.SwitchesCompose | FPSDemo/Source/FPSDemo/Variant_Shooter/ShooterCharacter.cpp:147-175 | `a + b` switches are `a` switches followed by `b` |
| CharacterRules.SwitchesAdvance | FPSDemo/Source/FPSDemo/Variant_Shooter/ShooterCharacter.cpp:164-167 | before the end of the list, `k` switches move `k` places on |
| CharacterRules.SwitchFromLast | FPSDemo/Source/FPSDemo/Variant_Shooter/ShooterCharacter.cpp:158-162 | one switch from the last weapon selects the first |
| CharacterRules.SwitchesWrapToFirst | FPSDemo/Source/FPSDemo/Variant_Shooter/ShooterCharacter.cpp:158-167 | from any weapon, switching once per remaining weapon lands on the first |
| CharacterRules.SwitchingComesFullCircle | FPSDemo/Source/FPSDemo/Variant_Shooter/ShooterCharacter.cpp:158-167 | one switch per owned weapon visits the rest in order, wraps to the first, and returns to the starting weapon |
| CharacterRules.AddIsIdempotent | FPSDemo/Source/FPSDemo/Variant_Shooter/ShooterCharacter.cpp:237-240 | adding the same class twice leaves the inventory as adding it once |
| Character.ClassesOf | FPSDemo/Source/FPSDemo/Variant_Shooter/ShooterCharacter.cpp:292-294 | the class of each owned weapon, in order |
| Character.IndexOfUnique | FPSDemo/Source/FPSDemo/Variant_Shooter/ShooterCharacter.cpp:156 | with at most one weapon per class, `Find` returns the weapon's own index |
| Character.SwitchTarget | FPSDemo/Source/FPSDemo/Variant_Shooter/ShooterCharacter.cpp:155-170 | the weapon switched to is another weapon than the previous one and is found at its own index, so the inventory moves as `SwitchStep` says |
| Character.AppendTarget | FPSDemo/Source/FPSDemo/Variant_Shooter/ShooterCharacter.cpp:254 | appending a weapon of a class not yet owned appends its class, the weapon is found at the end, and the inventory invariant holds with it current |
| Character.ShooterCharacter.constructor | FPSDemo/Source/FPSDemo/Variant_Shooter/ShooterCharacter.h:65-100 | a body with 0 HP until `BeginPlay`, no weapons |
| Character.ShooterCharacter.BeginPlay | FPSDemo/Source/FPSDemo/Variant_Shooter/ShooterCharacter.cpp:32-48 | the body changes as `BeginPlayStep` says; weapons untouched |
| Character.ShooterCharacter.EndPlay | FPSDemo/Source/FPSDemo/Variant_Shooter/ShooterCharacter.cpp:50-59 | both timers are cleared; nothing else changes |
| Character.ShooterCharacter.OnInvulnerabilityExpired | FPSDemo/Source/FPSDemo/Variant_Shooter/ShooterCharacter.cpp:392-402 | the body changes as `InvulnerabilityExpiredStep` says |
| Character.ShooterCharacter.OnInvulnerabilityTimer | FPSDemo/Source/FPSDemo/Variant_Shooter/ShooterCharacter.cpp:43 | the body changes as `InvulnerabilityElapsedStep` says |
| Character.ShooterCharacter.TakeDamage | FPSDemo/Source/FPSDemo/Variant_Shooter/ShooterCharacter.cpp:82-121 | returns `Dealt`; the body changes as `HitStep` says; on a fatal hit the weapon and the game mode change as `Die` reports, otherwise they are untouched |
| Character.ShooterCharacter.AcceptHit | FPSDemo/Source/FPSDemo/Variant_Shooter/ShooterCharacter.cpp:102-120 | once the guards pass: the body changes as `HitStep` says; a fatal hit reports the death to the weapon and the game mode, otherwise both are untouched |
| Character.ShooterCharacter.Wound | FPSDemo/Source/FPSDemo/Variant_Shooter/ShooterCharacter.cpp:102-109 | the body changes as `WoundStep` says; the inventory is untouched |
| Character.ShooterCharacter.Settle | FPSDemo/Source/FPSDemo/Variant_Shooter/ShooterCharacter.cpp:111-118 | the body changes as `SettleStep` says; at zero HP or below the death is reported to the weapon and the game mode, otherwise both are untouched |
| Character.ShooterCharacter.Die | FPSDemo/Source/FPSDemo/Variant_Shooter/ShooterCharacter.cpp:305-369 | the current weapon is deactivated; the statistics of `DeathStats` are recorded; one point goes to the character's own `TeamByte` through `IncrementStep`; the body changes as `DieStep` says |
| Character.ShooterCharacter.ScoreDeath | FPSDemo/Source/FPSDemo/Variant_Shooter/ShooterCharacter.cpp:313-351 | the game mode logs exactly `DeathStats` for the victim and the last instigator, then the character's own team scores as `IncrementStep` says; the match invariant is kept |
| Character.ShooterCharacter.OnRespawn | FPSDemo/Source/FPSDemo/Variant_Shooter/ShooterCharacter.cpp:371-390 | the body changes as `RespawnStep` says |
| Character.ShooterCharacter.OnRespawnTimer | FPSDemo/Source/FPSDemo/Variant_Shooter/ShooterCharacter.cpp:368 | the body changes as `RespawnElapsedStep` says |
| Character.ShooterCharacter.FindWeaponOfType | FPSDemo/Source/FPSDemo/Variant_Shooter/ShooterCharacter.cpp:289-303 | the for-loop returns the first owned weapon of the class (`Common.FirstIndex` on the classes), or null |
| Character.ShooterCharacter.AddWeaponClass | FPSDemo/Source/FPSDemo/Variant_Shooter/ShooterCharacter.cpp:235-267 | the inventory changes as `AddStep` says; a new weapon is fresh, activated and current, and the previous one is deactivated |
| Character.ShooterCharacter.SpawnAndEquip | FPSDemo/Source/FPSDemo/Variant_Shooter/ShooterCharacter.cpp:242-265 | for a class not yet owned: the inventory changes as `AddStep` says, the fresh weapon is appended, current and activated, and the previous one is deactivated |
| Character.ShooterCharacter.AppendOwned | FPSDemo/Source/FPSDemo/Variant_Shooter/ShooterCharacter.cpp:254 | the weapon goes at the end of the list; the current weapon and the body are unchanged; the classes stay unique |
| Character.ShooterCharacter.Equip | FPSDemo/Source/FPSDemo/Variant_Shooter/ShooterCharacter.cpp:256-264 | the previous weapon, if any, is deactivated; the appended weapon becomes current and is activated; the list is unchanged |
| Character.ShooterCharacter.DoSwitchWeapon | FPSDemo/Source/FPSDemo/Variant_Shooter/ShooterCharacter.cpp:147-175 | the inventory changes as `SwitchStep` says; the previous weapon is deactivated and the next one activated; every other owned weapon is unchanged |
| Character.ShooterCharacter.SelectWeapon | FPSDemo/Source/FPSDemo/Variant_Shooter/ShooterCharacter.cpp:155-170 | the weapon at the next index, a different one, becomes current; the inventory changes as `SwitchStep` says and the list is unchanged |
| Character.ShooterCharacter.ServerStartFiring | FPSDemo/Source/FPSDemo/Variant_Shooter/ShooterCharacter.cpp:425-432 | the current weapon, if any, starts firing |
| Character.ShooterCharacter.ServerStopFiring | FPSDemo/Source/FPSDemo/Variant_Shooter/ShooterCharacter.cpp:439-446 | the current weapon, if any, stops firing |
| Character.ShooterCharacter.ServerReload | FPSDemo/Source/FPSDemo/Variant_Shooter/ShooterCharacter.cpp:453-460 | the current weapon, if any, changes as `StartReloadStep` says |
| NpcRules.SpawnedNpc | FPSDemo/Source/FPSDemo/Variant_Shooter/AI/ShooterNPC.h:32 | an NPC starts alive at its edited HP with both timers idle |
| NpcRules.NpcDieStep | FPSDemo/Source/FPSDemo/Variant_Shooter/AI/ShooterNPC.cpp:216-266 | ignored when already dead; otherwise dead, with exactly one timer set: respawn iff `bCanRespawn && RespawnTime > 0`, destruction otherwise, the latter armed only when `DeferredDestructionTime` is positive |
| NpcRules.NpcHitStep | FPSDemo/Source/FPSDemo/Variant_Shooter/AI/ShooterNPC.cpp:53-83 | no change without authority or when dead (there is no invulnerability); an accepted hit subtracts exactly the damage and records a present instigator; dead afterwards iff it was dead or the hit was fatal |
| NpcRules.NpcDealt | FPSDemo/Source/FPSDemo/Variant_Shooter/AI/ShooterNPC.cpp:53-83 | returns the damage when accepted, 0 otherwise |
| NpcRules.NpcRespawnStep | FPSDemo/Source/FPSDemo/Variant_Shooter/AI/ShooterNPC.cpp:273-277 | HP is set to the literal 100 and the NPC is alive again; nothing else changes |
| NpcRules.NpcRespawnElapsedStep | FPSDemo/Source/FPSDemo/Variant_Shooter/AI/ShooterNPC.cpp:259 | an armed respawn timer is spent and runs `Respawn` |
| NpcRules.NpcDestroyStep | FPSDemo/Source/FPSDemo/Variant_Shooter/AI/ShooterNPC.cpp:42-51 | destroyed, and `EndPlay` clears both timers |
| NpcRules.NpcDeathElapsedStep | FPSDemo/Source/FPSDemo/Variant_Shooter/AI/ShooterNPC.cpp:264 | when an armed destruction timer runs out, the NPC is destroyed |
| NpcRules.NpcDieIsIdempotent | FPSDemo/Source/FPSDemo/Variant_Shooter/AI/ShooterNPC.cpp:218-225 | a second `Die` changes nothing |
| NpcRules.FatalHitRespawnsOrDestroys | FPSDemo/Source/FPSDemo/Variant_Shooter/AI/ShooterNPC.cpp:256-265 | after a fatal hit exactly one future is set: with respawn enabled, back alive at 100 HP and accepting hits; otherwise the destruction timer is armed exactly when `DeferredDestructionTime` is positive, and then destroys the NPC; with a zero or negative delay the dead NPC stays |
| NpcRules.DefaultNpcConfig | FPSDemo/Source/FPSDemo/Variant_Shooter/AI/ShooterNPC.h:32-54 | the defaults: no respawn, a zero respawn time, a 5 s deferred destruction and team 1 |
| NpcRules.DefaultNpcIsDestroyedAfterDeath | FPSDemo/Source/FPSDemo/Variant_Shooter/AI/ShooterNPC.cpp:256-265 | with the defaults, on the authority, a fatal hit kills the NPC, leaves the respawn timer cleared and arms only the 5 s destruction timer, which destroys it |
| NpcRules.DeadNpcIgnoresHits | FPSDemo/Source/FPSDemo/Variant_Shooter/AI/ShooterNPC.cpp:61-65 | a dead NPC is unchanged by any sequence of hits and never dies again |
| NpcRules.NpcDiesAtMostOnce | FPSDemo/Source/FPSDemo/Variant_Shooter/AI/ShooterNPC.cpp:76-80 | between respawns, `Die` takes effect at most once however many hits land |
| NpcRules.HeldAfterAdd | FPSDemo/Source/FPSDemo/Variant_Shooter/AI/ShooterNPC.cpp:164-176 | a non-null class is held afterwards; a null class keeps the held weapon |
| NpcRules.AddWeaponClassIsIdempotent | FPSDemo/Source/FPSDemo/Variant_Shooter/AI/ShooterNPC.cpp:164 | asking again for the class just added spawns nothing |
| NpcRules.BindOnce | FPSDemo/Source/FPSDemo/Variant_Shooter/AI/ShooterAIController.cpp:34-38 | the handler is bound afterwards, no other binding is lost or reordered, and at most one entry is added |
| NpcRules.DeathHandlerBoundOnce | FPSDemo/Source/FPSDemo/Variant_Shooter/AI/ShooterAIController.cpp:34-38 | however many times the same NPC is possessed, the death handler is bound exactly once |
| NpcRules.BindingIsStable | FPSDemo/Source/FPSDemo/Variant_Shooter/AI/ShooterAIController.cpp:35 | an already-bound handler is never bound again |
| AI.ShooterNPC.constructor | FPSDemo/Source/FPSDemo/Variant_Shooter/AI/ShooterNPC.h:32-54 | a live NPC with no weapon, controller, tags or listeners |
| AI.ShooterNPC.BeginPlay | FPSDemo/Source/FPSDemo/Variant_Shooter/AI/ShooterNPC.cpp:17-40 | the configured weapon class is held, by a freshly spawned weapon with the class defaults; body, shooting flag, aim target, controller, tags and death listeners are untouched |
| AI.ShooterNPC.AddWeaponClass | FPSDemo/Source/FPSDemo/Variant_Shooter/AI/ShooterNPC.cpp:155-183 | a fresh weapon with the class defaults replaces the held one exactly when the class is non-null and differs from the held class, otherwise the weapon is kept; body, shooting flag, aim target, controller, tags and death listeners are untouched |
| AI.ShooterNPC.TakeDamage | FPSDemo/Source/FPSDemo/Variant_Shooter/AI/ShooterNPC.cpp:53-83 | returns `NpcDealt`; the body changes as `NpcHitStep` says; a fatal hit scores for the NPC's own team and records a kill only for a player instigator; weapon, controller, tags, aim target and death listeners are untouched |
| AI.ShooterNPC.Die | FPSDemo/Source/FPSDemo/Variant_Shooter/AI/ShooterNPC.cpp:216-266 | the body changes as `NpcDieStep` says; a first death records a kill for a player instigator and scores one point for the NPC's own `TeamByte`; a repeated death leaves the game mode untouched; the death listeners are never called; weapon, shooting flag, aim target, controller, tags and listeners are untouched |
| AI.ShooterNPC.DeferredDestruction | FPSDemo/Source/FPSDemo/Variant_Shooter/AI/ShooterNPC.cpp:268-271 | the body changes as `NpcDestroyStep` says; weapon, shooting flag, aim target, controller, tags and death listeners are untouched |
| AI.ShooterNPC.OnDeathTimer | FPSDemo/Source/FPSDemo/Variant_Shooter/AI/ShooterNPC.cpp:264 | the body changes as `NpcDeathElapsedStep` says; weapon, shooting flag, aim target, controller, tags and death listeners are untouched |
| AI.ShooterNPC.Respawn | FPSDemo/Source/FPSDemo/Variant_Shooter/AI/ShooterNPC.cpp:273-315 | the body changes as `NpcRespawnStep` says; weapon, shooting flag and aim target are untouched; without a controller nothing else changes; a present controller repossesses the NPC (`Repossessed`): a foreign controller links it, appends its team tag and binds its death handler once, and logs the possession; the current one clears its target and restarts its logic |
| AI.ShooterNPC.OnRespawnTimer | FPSDemo/Source/FPSDemo/Variant_Shooter/AI/ShooterNPC.cpp:259 | with no timer armed or no controller, only the body changes, as `NpcRespawnElapsedStep` says, and the controller is untouched; when the timer was armed and a controller is present, it repossesses the NPC as `Repossessed` states; weapon, shooting flag and aim target are untouched |
| AI.ShooterNPC.OnAfterRespawn | FPSDemo/Source/FPSDemo/Variant_Shooter/AI/ShooterNPC.cpp:317-334 | the body, weapon, shooting flag and aim target are untouched; without a controller nothing changes; a present AI controller repossesses the NPC as `Repossessed` states (team tag appended and the death handler bound once for a new pawn; the target cleared and the logic restarted for the current one, each logged in order) |
| AI.ShooterNPC.StartShooting | FPSDemo/Source/FPSDemo/Variant_Shooter/AI/ShooterNPC.cpp:336-346 | the aim target is stored, the flag raised and the weapon starts firing; controller, tags and death listeners are untouched |
| AI.ShooterNPC.StopShooting | FPSDemo/Source/FPSDemo/Variant_Shooter/AI/ShooterNPC.cpp:348-355 | the flag is lowered and the weapon stops firing; controller, tags and death listeners are untouched |
| AI.ShooterNPC.OnSemiWeaponRefire | FPSDemo/Source/FPSDemo/Variant_Shooter/AI/ShooterNPC.cpp:206-214 | the weapon starts firing again only while the NPC is shooting |
| AI.ShooterAIController.constructor | FPSDemo/Source/FPSDemo/Variant_Shooter/AI/ShooterAIController.h:42 | no pawn, no target, logic idle; the team tag is the one given (the editor default, `Enemy`, is one such value) |
| AI.ShooterAIController.SetCurrentTarget | FPSDemo/Source/FPSDemo/Variant_Shooter/AI/ShooterAIController.cpp:68-71 | only the target is assigned: pawn, logic, actions log, destroyed flag and forwarded events are untouched |
| AI.ShooterAIController.ClearCurrentTarget | FPSDemo/Source/FPSDemo/Variant_Shooter/AI/ShooterAIController.cpp:73-76 | only the target is cleared: pawn, logic, actions log, destroyed flag and forwarded events are untouched |
| AI.ShooterAIController.OnPossess | FPSDemo/Source/FPSDemo/Variant_Shooter/AI/ShooterAIController.cpp:24-40 | the team tag is appended and the death handler bound through `BindOnce`; the NPC's body, controller, weapon and aim are untouched |
| AI.ShooterAIController.Possess | FPSDemo/Source/FPSDemo/Variant_Shooter/AI/ShooterAIController.cpp:84 | controller and NPC are linked, then `OnPossess` runs: tag appended, handler bound once, possession logged; the NPC's weapon and aim, and the controller's target, logic, destroyed flag and forwarded events are untouched |
| AI.ShooterAIController.UnPossess | FPSDemo/Source/FPSDemo/Variant_Shooter/AI/ShooterAIController.cpp:51 | the link to the pawn is dropped on both sides (the pawn's link only if it pointed here); every other field of the pawn is untouched, and so are the destroyed flag and forwarded events |
| AI.ShooterAIController.OnPawnDeath | FPSDemo/Source/FPSDemo/Variant_Shooter/AI/ShooterAIController.cpp:42-66 | movement aborted, logic stopped, pawn unpossessed, in that order, the old pawn's controller link dropped and its other fields untouched; target and forwarded events untouched; the pawn is read only after that, so as written the controller is always destroyed |
| AI.KeepsController | FPSDemo/Source/FPSDemo/Variant_Shooter/AI/ShooterAIController.cpp:54-61 | the controller survives exactly for a present NPC pawn with respawn enabled and a positive respawn time |
| AI.ShooterAIController.RequestRepossess | FPSDemo/Source/FPSDemo/Variant_Shooter/AI/ShooterAIController.cpp:78-98 | nothing for null; otherwise the NPC's body, weapon and aim are untouched and `Repossessed` holds: a pawn other than the current one is linked, tagged, bound once and the possession logged; the current one gets its target cleared and its logic stopped then started, logged in that order |
| AI.ShooterAIController.OnPerceptionUpdated | FPSDemo/Source/FPSDemo/Variant_Shooter/AI/ShooterAIController.cpp:100-104 | the event is forwarded unchanged iff a listener is bound; logic and destroyed flag are untouched |
| AI.ShooterAIController.OnPerceptionForgotten | FPSDemo/Source/FPSDemo/Variant_Shooter/AI/ShooterAIController.cpp:106-110 | the event is forwarded unchanged iff a listener is bound; logic and destroyed flag are untouched |

## Left out

- Aim resolution and projectile placement are left out. These are
  `GetWeaponTargetLocation` and `CalculateProjectileSpawnTransform`:
  floating-point vector maths and engine line traces. A shot is modelled as
  the `ProjectileSpawned` effect.
- Replication is left out: `GetLifetimeReplicatedProps`, the `OnRep_*`
  handlers, and the local prediction in `DoStartFiring`/`DoStopFiring`/`DoReload`.
  Only the server RPC bodies are modelled. `HasAuthority()` is a constant.
- The timer manager and the clock are left out. A timer runs out when its
  "On...Timer" method is called, and world time is a parameter.
- Engine side effects are not modelled: physics, ragdoll, collision,
  movement, mesh attachment and detachment, `SetOwner`, `MakeNoise`
  (kept only as an effect), and the map reload by `ServerTravel`.
  `Destroy` sets a `destroyed` flag.
- `Weapon.ShooterWeapon`: `EndPlay` and `OnOwnerDestroyed` are not
  modelled, because they only clear timers and destroy the actor when its
  owner goes away.
- The UI is not modelled: `ShooterUI`, every `BP_*` call, the kill feed and
  the death screen. The character's own HUD broadcasts are kept in the
  character's log. The holder HUD calls that the weapon makes
  (`OnWeaponActivated`, `UpdateWeaponHUD`) are kept in the weapon's
  effect log instead.
- The bodies of `RecordKill`/`RecordDeath` are not part of this model. Only
  the calls are logged.
- StateTree internals and perception are not modelled. The StateTree is a
  `logicRunning` flag, and `StateTreeAI` is assumed present.
  `StopAIBehavior` has no body and is not modelled. `Possess` links
  controller and pawn and then runs `OnPossess`. The engine's implicit
  unpossessing of a previous pawn and its auto-start of logic are not
  modelled.
- `IsA` is modelled as equality of weapon classes, so subclasses are not
  matched. A class is `Option<WeaponClass>`, and a null class matches
  nothing.
- `SpawnActor` is assumed to succeed for a non-null class. A weapon's tuning
  comes from a `defaults` parameter that stands for the class defaults.
- Floats are `real`, with no rounding. `int32` overflow of a score is shown
  impossible by `ScoreRules.ScoresFitInt32`, not modelled.
- `MaxHP` is assumed positive (the `CharacterConfig` subset type), because
  the HUD fraction divides by it.
- A character's controller is a constant of its configuration, because no
  modelled member changes it.
- `AI.ShooterNPC.StartShooting`, `AI.ShooterNPC.StopShooting`,
  `AI.ShooterNPC.OnSemiWeaponRefire`: require a weapon (the last one only
  while shooting), because the source dereferences `Weapon` without a check
  (`AI/ShooterNPC.cpp:345`, `:354`, `:212`).
- `AI.ShooterNPC.AddWeaponClass`: the detach and attach calls of
  `OnWeaponDeactivated`/`OnWeaponActivated` are engine side effects. The
  replaced weapon is not destroyed, as in the source.
- `WeaponRules.RunKeepsReloadTimerMatched`: proved only for a positive
  `ReloadTime`. The bounds of `ReloadTime` are declared in
  `ShooterWeapon.h`, which is not part of this model. With a zero reload
  time the flag and the timer part ways, as
  `WeaponRules.ZeroReloadTimeLeavesReloadPending` shows.
- `WeaponRules.ReloadFillsMagazine`: proved only for a positive
  `ReloadTime`, for the same reason. A zero reload time never refills the
  magazine.
- `WeaponRules.FullAutoRetryCanBeatRefireRate`: covers a trigger pulled
  strictly after the last shot. A pull at the same instant drops the retry,
  as `WeaponRules.SameInstantRetryIsDropped` shows.
- `CharacterRules.SpawnProtection`: spawn protection ends only for a
  positive `InvulnerabilityDuration`. The lemma states the zero case as
  permanent protection.
- `CharacterRules.KilledBodyIsDestroyedOnRespawn`: the body is destroyed
  only for a positive `RespawnTime`. With 0, which `ShooterCharacter.h:89`
  allows, the dead body stays.
- `NpcRules.FatalHitRespawnsOrDestroys`: an NPC that does not respawn is
  destroyed only for a positive `DeferredDestructionTime`. Otherwise it
  stays in the world.
- `ScoreRules.CheckVictoryIsIdempotent`: equality of match states only.
  A second check restarts the countdown of the restart timer and calls
  `BP_OnTeamVictory` again, and neither the clock nor that event is in
  the state.
