/**
 * `AShooterWeapon` as a class: the firing and reload members update the
 * weapon's fields in place, and each is proved to have exactly the effect
 * that `WeaponRules` gives it, so every property proved there (the magazine
 * invariant, bullet accounting, the reload protocol) holds of the class.
 */
module Weapon {
  import opened Common
  import opened WeaponRules

  class ShooterWeapon {
    /** The weapon's class, used by holders to find a weapon of a given type. */
    const weaponClass: WeaponClass
    /** Tuning read from the weapon's class defaults, and `HasAuthority()`. */
    const config: WeaponConfig

    var isFiring: bool
    var isReloading: bool
    var currentBullets: int
    var timeOfLastShot: real
    var refireTimer: Timer<RefireCallback>
    var reloadTimer: Timer<ReloadCallback>
    var hidden: bool
    /** Calls made on the holder and the world, in order. */
    var effects: seq<WeaponEffect>

    /** The weapon's fields as a `WeaponRules` snapshot. */
    function State(): WeaponState
      reads this
    {
      WeaponState(isFiring, isReloading, currentBullets, timeOfLastShot, refireTimer, reloadTimer, hidden, effects)
    }

    /** Spawning a weapon: construction, then `BeginPlay` fills the first magazine. */
    constructor (weaponClass: WeaponClass, config: WeaponConfig)
      ensures this.weaponClass == weaponClass && this.config == config
      ensures State() == Spawned(config)
    {
      this.weaponClass := weaponClass;
      this.config := config;
      isFiring, isReloading := false, false;
      currentBullets, timeOfLastShot := 0, 0.0;
      refireTimer, reloadTimer := Cleared, Cleared;
      hidden, effects := false, [];
      new;
      BeginPlay();
    }

    method BeginPlay()
      modifies this
      ensures State() == BeginPlayStep(old(State()), config)
    {
      currentBullets := config.magazineSize;
    }

    method ActivateWeapon()
      modifies this
      ensures State() == ActivateStep(old(State()))
    {
      hidden := false;
      effects := effects + [ActivatedNotified];
    }

    method DeactivateWeapon()
      modifies this
      ensures State() == DeactivateStep(old(State()), config)
    {
      StopFiring();
      if isReloading {
        StopReload();
      }
      hidden := true;
      effects := effects + [DeactivatedNotified];
    }

    method StartFiring(now: real)
      modifies this
      ensures State() == StartFiringStep(old(State()), config, now)
    {
      isFiring := true;
      var sinceLastShot := now - timeOfLastShot;
      if sinceLastShot > config.refireRate {
        Fire(now);
      } else if config.fullAuto {
        refireTimer := Arm(FireAgain, sinceLastShot);
      }
    }

    method StopFiring()
      modifies this
      ensures State() == StopFiringStep(old(State()))
    {
      isFiring := false;
      refireTimer := Cleared;
    }

    /** `CanReload`: not reloading, magazine not full, not firing. */
    predicate CanReload(): (r: bool)
      reads this
      ensures r <==> !isReloading && currentBullets < config.magazineSize && !isFiring
    {
      WeaponRules.CanReload(State(), config)
    }

    method StartReload()
      modifies this
      ensures State() == StartReloadStep(old(State()), config)
    {
      if !config.authority {
        return;
      }
      if !CanReload() {
        return;
      }
      isReloading := true;
      if isFiring {
        // The source stops firing here; CanReload() already ruled firing out.
        assert false;
      }
      if config.hasReloadMontage {
        effects := effects + [ReloadMontagePlayed];
      }
      reloadTimer := Arm(CompleteReload, config.reloadTime);
    }

    method StopReload()
      modifies this
      ensures State() == StopReloadStep(old(State()), config)
    {
      if !config.authority {
        return;
      }
      isReloading := false;
      reloadTimer := Cleared;
    }

    method ReloadComplete()
      modifies this
      ensures State() == ReloadCompleteStep(old(State()), config)
    {
      if !config.authority {
        return;
      }
      currentBullets := config.magazineSize;
      isReloading := false;
      effects := effects + [HudUpdated(currentBullets, config.magazineSize)];
    }

    method Fire(now: real)
      modifies this
      ensures State() == FireStep(old(State()), config, now)
    {
      if !isFiring {
        return;
      }
      if isReloading {
        return;
      }
      if currentBullets <= 0 {
        StopFiring();
        return;
      }
      FireProjectile();
      timeOfLastShot := now;
      effects := effects + [NoiseMade];
      if config.fullAuto {
        refireTimer := Arm(FireAgain, config.refireRate);
      } else {
        refireTimer := Arm(CooldownExpired, config.refireRate);
      }
    }

    method FireCooldownExpired()
      modifies this
      ensures State() == FireCooldownExpiredStep(old(State()))
    {
      effects := effects + [SemiRefireNotified];
    }

    method FireProjectile()
      modifies this
      ensures State() == FireProjectileStep(old(State()), config)
    {
      if !config.authority {
        return;
      }
      effects := effects + [ProjectileSpawned, FiringMontagePlayed, RecoilAdded];
      currentBullets := currentBullets - 1;
      effects := effects + [HudUpdated(currentBullets, config.magazineSize)];
    }

    /** The refire timer runs out: its handle is spent and its callback runs. */
    method OnRefireTimer(now: real)
      modifies this
      ensures State() == RefireElapsedStep(old(State()), config, now)
    {
      match refireTimer
      case Cleared =>
      case Armed(callback, _) =>
        refireTimer := Cleared;
        if callback == FireAgain {
          Fire(now);
        } else {
          FireCooldownExpired();
        }
    }

    /** The reload timer runs out: its handle is spent and `ReloadComplete` runs. */
    method OnReloadTimer()
      modifies this
      ensures State() == ReloadElapsedStep(old(State()), config)
    {
      if reloadTimer.Armed? {
        reloadTimer := Cleared;
        ReloadComplete();
      }
    }
  }
}
