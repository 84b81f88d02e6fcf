/**
 * The firing and reload state machine of `AShooterWeapon`, as pure
 * functions over a snapshot of the weapon's fields. Each function is the
 * effect of one member of the weapon; the class `Weapon.ShooterWeapon`
 * implements the members imperatively and is proved to agree with them.
 *
 * World time (`GetWorld()->GetTimeSeconds()`) is a parameter `now`; float
 * arithmetic is modelled with `real`.
 */
module WeaponRules {
  import opened Common

  /** What the refire timer calls back: `Fire` (full auto) or `FireCooldownExpired` (semi auto). */
  datatype RefireCallback = FireAgain | CooldownExpired

  /** What the reload timer calls back: `ReloadComplete`. */
  datatype ReloadCallback = CompleteReload

  /**
   * The calls a weapon makes on its holder (the `IShooterWeaponHolder`
   * interface) and on the world, kept in the order they are made.
   */
  datatype WeaponEffect =
    | ProjectileSpawned           // SpawnActor of the projectile class
    | FiringMontagePlayed         // holder's PlayFiringMontage(FiringMontage)
    | RecoilAdded                 // holder's AddWeaponRecoil
    | HudUpdated(current: int, magazine: int)  // holder's UpdateWeaponHUD
    | NoiseMade                   // MakeNoise for AI hearing
    | ReloadMontagePlayed         // holder's PlayFiringMontage(ReloadMontage)
    | SemiRefireNotified          // holder's OnSemiWeaponRefire
    | ActivatedNotified           // holder's OnWeaponActivated
    | DeactivatedNotified         // holder's OnWeaponDeactivated

  /**
   * What a weapon's members read but never write: the per-class tuning
   * (`MagazineSize`, `RefireRate`, `bFullAuto`, `ReloadTime`, whether a
   * `ReloadMontage` is set) and the network role (`HasAuthority()`).
   */
  datatype WeaponConfig = WeaponConfig(
    magazineSize: int,
    refireRate: real,
    fullAuto: bool,
    reloadTime: real,
    hasReloadMontage: bool,
    authority: bool)

  /** The fields the weapon's members update. */
  datatype WeaponState = WeaponState(
    firing: bool,
    reloading: bool,
    bullets: int,
    lastShot: real,
    refireTimer: Timer<RefireCallback>,
    reloadTimer: Timer<ReloadCallback>,
    hidden: bool,
    effects: seq<WeaponEffect>)

  /** The magazine invariant: `0 <= CurrentBullets <= MagazineSize`. */
  predicate AmmoInBounds(s: WeaponState, cfg: WeaponConfig)
  {
    0 <= s.bullets <= cfg.magazineSize
  }

  /** Projectiles spawned so far. */
  function Shots(log: seq<WeaponEffect>): nat
  {
    Occurrences(log, ProjectileSpawned)
  }

  /** `BeginPlay`: fill the first magazine. */
  function BeginPlayStep(s: WeaponState, cfg: WeaponConfig): (r: WeaponState)
    ensures r.bullets == cfg.magazineSize
    ensures r.(bullets := s.bullets) == s
    ensures cfg.magazineSize >= 0 ==> AmmoInBounds(r, cfg)
  {
    s.(bullets := cfg.magazineSize)
  }

  /** `CanReload`: not reloading, magazine not full, not firing. */
  predicate CanReload(s: WeaponState, cfg: WeaponConfig): (r: bool)
    ensures r <==> !s.reloading && s.bullets < cfg.magazineSize && !s.firing
  {
    !s.reloading && s.bullets < cfg.magazineSize && !s.firing
  }

  /** `StopFiring`: lower the firing flag and clear the refire timer. */
  function StopFiringStep(s: WeaponState): (r: WeaponState)
    ensures !r.firing && r.refireTimer == Cleared
    ensures r.(firing := s.firing, refireTimer := s.refireTimer) == s
  {
    s.(firing := false, refireTimer := Cleared)
  }

  /**
   * `FireProjectile`: on the authority, spawn a projectile, play the firing
   * montage, add recoil, consume one bullet and update the HUD; elsewhere
   * nothing. (Where the projectile goes is not modelled.)
   */
  function FireProjectileStep(s: WeaponState, cfg: WeaponConfig): (r: WeaponState)
    ensures !cfg.authority ==> r == s
    ensures cfg.authority ==> r.bullets == s.bullets - 1
    ensures cfg.authority ==> r.effects == s.effects + [ProjectileSpawned, FiringMontagePlayed, RecoilAdded, HudUpdated(r.bullets, cfg.magazineSize)]
    ensures r.(bullets := s.bullets, effects := s.effects) == s
  {
    if !cfg.authority then s
    else
      var left := s.bullets - 1;
      s.(bullets := left,
         effects := s.effects + [ProjectileSpawned, FiringMontagePlayed, RecoilAdded, HudUpdated(left, cfg.magazineSize)])
  }

  /** The guards `Fire` checks before it shoots. */
  predicate ShotAllowed(s: WeaponState)
  {
    s.firing && !s.reloading && s.bullets > 0
  }

  /**
   * `Fire`: refuse when the trigger was released or while reloading; stop
   * firing when the magazine is empty; otherwise shoot, record the time,
   * make noise, and arm the refire timer for `RefireRate` seconds with the
   * next shot (full auto) or the cooldown notification (semi auto).
   */
  function FireStep(s: WeaponState, cfg: WeaponConfig, now: real): (r: WeaponState)
    ensures !s.firing || s.reloading ==> r == s
    ensures s.firing && !s.reloading && s.bullets <= 0 ==> r == StopFiringStep(s)
    ensures ShotAllowed(s) ==>
      && r.firing && !r.reloading
      && r.bullets == (if cfg.authority then s.bullets - 1 else s.bullets)
      && r.lastShot == now
      && r.refireTimer == Arm(if cfg.fullAuto then FireAgain else CooldownExpired, cfg.refireRate)
      && r.reloadTimer == s.reloadTimer && r.hidden == s.hidden
      && r.effects == FireProjectileStep(s, cfg).effects + [NoiseMade]
    ensures AmmoInBounds(s, cfg) ==> AmmoInBounds(r, cfg)
  {
    if !s.firing then s
    else if s.reloading then s
    else if s.bullets <= 0 then StopFiringStep(s)
    else
      var shot := FireProjectileStep(s, cfg);
      shot.(lastShot := now,
            effects := shot.effects + [NoiseMade],
            refireTimer := Arm(if cfg.fullAuto then FireAgain else CooldownExpired, cfg.refireRate))
  }

  /**
   * `StartFiring`: raise the firing flag; fire at once if more than
   * `RefireRate` seconds passed since the last shot; otherwise a full-auto
   * weapon schedules `Fire` after `TimeSinceLastShot` seconds (the elapsed
   * time, not the remaining cooldown) and a semi-auto weapon does nothing more.
   */
  function StartFiringStep(s: WeaponState, cfg: WeaponConfig, now: real): (r: WeaponState)
    ensures now - s.lastShot > cfg.refireRate ==> r == FireStep(s.(firing := true), cfg, now)
    ensures now - s.lastShot <= cfg.refireRate ==>
      && r.firing
      && r.bullets == s.bullets && r.lastShot == s.lastShot && r.effects == s.effects
      && r.refireTimer == (if cfg.fullAuto then Arm(FireAgain, now - s.lastShot) else s.refireTimer)
    ensures r.reloading == s.reloading && r.reloadTimer == s.reloadTimer
    ensures !r.firing <==> now - s.lastShot > cfg.refireRate && !s.reloading && s.bullets <= 0
    ensures AmmoInBounds(s, cfg) ==> AmmoInBounds(r, cfg)
  {
    var pressed := s.(firing := true);
    var sinceLastShot := now - s.lastShot;
    if sinceLastShot > cfg.refireRate then FireStep(pressed, cfg, now)
    else if cfg.fullAuto then pressed.(refireTimer := Arm(FireAgain, sinceLastShot))
    else pressed
  }

  /**
   * `StartReload`: only on the authority and only when `CanReload`; then
   * raise the reloading flag, play the reload montage if there is one, and
   * arm the reload timer for `ReloadTime` seconds. The source's "stop firing
   * if firing" step cannot run, since `CanReload` demands not firing.
   */
  function StartReloadStep(s: WeaponState, cfg: WeaponConfig): (r: WeaponState)
    ensures !cfg.authority || !CanReload(s, cfg) ==> r == s
    ensures s.bullets >= cfg.magazineSize ==> r == s
    ensures cfg.authority && CanReload(s, cfg) ==>
      && r.reloading && !r.firing
      && r.reloadTimer == Arm(CompleteReload, cfg.reloadTime)
      && r.bullets == s.bullets && r.lastShot == s.lastShot
      && r.refireTimer == s.refireTimer && r.hidden == s.hidden
      && r.effects == s.effects + (if cfg.hasReloadMontage then [ReloadMontagePlayed] else [])
  {
    if !cfg.authority then s
    else if !CanReload(s, cfg) then s
    else
      var raised := s.(reloading := true);
      var stopped := if raised.firing then StopFiringStep(raised) else raised;
      var played := if cfg.hasReloadMontage then stopped.(effects := stopped.effects + [ReloadMontagePlayed]) else stopped;
      played.(reloadTimer := Arm(CompleteReload, cfg.reloadTime))
  }

  /** On the authority, `StartReload` changes the weapon exactly when `CanReload` holds. */
  lemma ReloadStartsIffCanReload(s: WeaponState, cfg: WeaponConfig)
    requires cfg.authority
    ensures StartReloadStep(s, cfg) != s <==> CanReload(s, cfg)
    ensures CanReload(s, cfg) <==> !s.reloading && StartReloadStep(s, cfg).reloading
  {
  }

  /** `StopReload`: on the authority, lower the reloading flag and clear the reload timer. */
  function StopReloadStep(s: WeaponState, cfg: WeaponConfig): (r: WeaponState)
    ensures !cfg.authority ==> r == s
    ensures cfg.authority ==> !r.reloading && r.reloadTimer == Cleared
    ensures r.(reloading := s.reloading, reloadTimer := s.reloadTimer) == s
  {
    if !cfg.authority then s else s.(reloading := false, reloadTimer := Cleared)
  }

  /** `ReloadComplete`: on the authority, fill the magazine, lower the reloading flag, update the HUD. */
  function ReloadCompleteStep(s: WeaponState, cfg: WeaponConfig): (r: WeaponState)
    ensures !cfg.authority ==> r == s
    ensures cfg.authority ==> r.bullets == cfg.magazineSize && !r.reloading
    ensures cfg.authority ==> r.effects == s.effects + [HudUpdated(cfg.magazineSize, cfg.magazineSize)]
    ensures r.firing == s.firing && r.refireTimer == s.refireTimer && r.reloadTimer == s.reloadTimer
    ensures cfg.magazineSize >= 0 && AmmoInBounds(s, cfg) ==> AmmoInBounds(r, cfg)
  {
    if !cfg.authority then s
    else s.(bullets := cfg.magazineSize, reloading := false,
            effects := s.effects + [HudUpdated(cfg.magazineSize, cfg.magazineSize)])
  }

  /** `FireCooldownExpired`: tell the holder a semi-auto weapon may shoot again. */
  function FireCooldownExpiredStep(s: WeaponState): (r: WeaponState)
    ensures r.effects == s.effects + [SemiRefireNotified]
    ensures r.(effects := s.effects) == s
  {
    s.(effects := s.effects + [SemiRefireNotified])
  }

  /** `ActivateWeapon`: unhide and notify the holder. */
  function ActivateStep(s: WeaponState): (r: WeaponState)
    ensures !r.hidden && r.effects == s.effects + [ActivatedNotified]
    ensures r.(hidden := s.hidden, effects := s.effects) == s
  {
    s.(hidden := false, effects := s.effects + [ActivatedNotified])
  }

  /**
   * `DeactivateWeapon`: stop firing, stop an in-progress reload (which only
   * the authority can do), hide, and notify the holder.
   */
  function DeactivateStep(s: WeaponState, cfg: WeaponConfig): (r: WeaponState)
    ensures !r.firing && r.refireTimer == Cleared && r.hidden
    ensures cfg.authority ==> !r.reloading
    ensures cfg.authority && s.reloading ==> r.reloadTimer == Cleared
    ensures !cfg.authority || !s.reloading ==> r.reloading == s.reloading && r.reloadTimer == s.reloadTimer
    ensures r.bullets == s.bullets && r.lastShot == s.lastShot
    ensures r.effects == s.effects + [DeactivatedNotified]
  {
    var stopped := StopFiringStep(s);
    var unloaded := if stopped.reloading then StopReloadStep(stopped, cfg) else stopped;
    unloaded.(hidden := true, effects := unloaded.effects + [DeactivatedNotified])
  }

  /**
   * The refire timer running out: the handle is spent and its callback runs
   * (`Fire` or `FireCooldownExpired`). A cleared timer calls nothing.
   */
  function RefireElapsedStep(s: WeaponState, cfg: WeaponConfig, now: real): (r: WeaponState)
    ensures s.refireTimer == Cleared ==> r == s
    ensures s.refireTimer.Armed? && s.refireTimer.callback == FireAgain ==> r == FireStep(s.(refireTimer := Cleared), cfg, now)
    ensures s.refireTimer.Armed? && s.refireTimer.callback == CooldownExpired ==>
      r == FireCooldownExpiredStep(s.(refireTimer := Cleared))
  {
    match s.refireTimer
    case Cleared => s
    case Armed(FireAgain, _) => FireStep(s.(refireTimer := Cleared), cfg, now)
    case Armed(CooldownExpired, _) => FireCooldownExpiredStep(s.(refireTimer := Cleared))
  }

  /** The reload timer running out: the handle is spent and `ReloadComplete` runs. */
  function ReloadElapsedStep(s: WeaponState, cfg: WeaponConfig): (r: WeaponState)
    ensures s.reloadTimer == Cleared ==> r == s
    ensures s.reloadTimer.Armed? ==> r == ReloadCompleteStep(s.(reloadTimer := Cleared), cfg)
  {
    if s.reloadTimer.Cleared? then s else ReloadCompleteStep(s.(reloadTimer := Cleared), cfg)
  }

  /** Everything that can happen to a weapon: a call of one of its members, or one of its timers running out. */
  datatype WeaponEvent =
    | StartFiringCalled(now: real)
    | StopFiringCalled
    | StartReloadCalled
    | StopReloadCalled
    | ActivateCalled
    | DeactivateCalled
    | RefireTimerElapsed(now: real)
    | ReloadTimerElapsed

  function Step(s: WeaponState, cfg: WeaponConfig, e: WeaponEvent): WeaponState
  {
    match e
    case StartFiringCalled(now) => StartFiringStep(s, cfg, now)
    case StopFiringCalled => StopFiringStep(s)
    case StartReloadCalled => StartReloadStep(s, cfg)
    case StopReloadCalled => StopReloadStep(s, cfg)
    case ActivateCalled => ActivateStep(s)
    case DeactivateCalled => DeactivateStep(s, cfg)
    case RefireTimerElapsed(now) => RefireElapsedStep(s, cfg, now)
    case ReloadTimerElapsed => ReloadElapsedStep(s, cfg)
  }

  /** The weapon after a sequence of events. */
  function Run(s: WeaponState, cfg: WeaponConfig, events: seq<WeaponEvent>): WeaponState
    decreases |events|
  {
    if events == [] then s else Run(Step(s, cfg, events[0]), cfg, events[1..])
  }

  /** The state a freshly spawned weapon reaches at `BeginPlay`. */
  function Spawned(cfg: WeaponConfig): (r: WeaponState)
    ensures r.bullets == cfg.magazineSize && !r.firing && !r.reloading
  {
    BeginPlayStep(WeaponState(false, false, 0, 0.0, Cleared, Cleared, false, []), cfg)
  }

  // ---------------------------------------------------------------------
  // Properties of the state machine over every sequence of events.
  // ---------------------------------------------------------------------

  lemma StepKeepsAmmoInBounds(s: WeaponState, cfg: WeaponConfig, e: WeaponEvent)
    requires cfg.magazineSize >= 0 && AmmoInBounds(s, cfg)
    ensures AmmoInBounds(Step(s, cfg, e), cfg)
  {
  }

  /**
   * Once `BeginPlay` filled the magazine, `0 <= CurrentBullets <= MagazineSize`
   * holds whatever members are called and whatever timers run out.
   */
  lemma {:induction false} RunKeepsAmmoInBounds(s: WeaponState, cfg: WeaponConfig, events: seq<WeaponEvent>)
    requires cfg.magazineSize >= 0 && AmmoInBounds(s, cfg)
    ensures AmmoInBounds(Run(s, cfg, events), cfg)
    decreases |events|
  {
    if events != [] {
      StepKeepsAmmoInBounds(s, cfg, events[0]);
      RunKeepsAmmoInBounds(Step(s, cfg, events[0]), cfg, events[1..]);
    }
  }

  lemma SpawnedWeaponKeepsAmmoInBounds(cfg: WeaponConfig, events: seq<WeaponEvent>)
    requires cfg.magazineSize >= 0
    ensures AmmoInBounds(Run(Spawned(cfg), cfg, events), cfg)
  {
    RunKeepsAmmoInBounds(Spawned(cfg), cfg, events);
  }

  /** `Fire` spends one bullet exactly when it spawns one projectile. */
  lemma FireSpendsOneBulletPerProjectile(s: WeaponState, cfg: WeaponConfig, now: real)
    ensures FireStep(s, cfg, now).bullets + Shots(FireStep(s, cfg, now).effects) == s.bullets + Shots(s.effects)
  {
    if ShotAllowed(s) && cfg.authority {
      var added := [ProjectileSpawned, FiringMontagePlayed, RecoilAdded, HudUpdated(s.bullets - 1, cfg.magazineSize), NoiseMade];
      assert FireStep(s, cfg, now).effects == s.effects + added;
      OccurrencesConcat(s.effects, added, ProjectileSpawned);
      OccurrencesPositive(added[1..], ProjectileSpawned);
    } else if ShotAllowed(s) {
      OccurrencesConcat(s.effects, [NoiseMade], ProjectileSpawned);
    }
  }

  /**
   * Bullet accounting for one event other than a completed reload: the
   * bullets left plus the projectiles spawned stay the same, so each
   * projectile costs exactly one bullet and no bullet is lost otherwise.
   */
  lemma StepSpendsOneBulletPerProjectile(s: WeaponState, cfg: WeaponConfig, e: WeaponEvent)
    requires !e.ReloadTimerElapsed?
    ensures Step(s, cfg, e).bullets + Shots(Step(s, cfg, e).effects) == s.bullets + Shots(s.effects)
  {
    match e
    case StartFiringCalled(now) =>
      if now - s.lastShot > cfg.refireRate {
        FireSpendsOneBulletPerProjectile(s.(firing := true), cfg, now);
      }
    case RefireTimerElapsed(now) =>
      if s.refireTimer.Armed? && s.refireTimer.callback == FireAgain {
        FireSpendsOneBulletPerProjectile(s.(refireTimer := Cleared), cfg, now);
      } else if s.refireTimer.Armed? {
        OccurrencesConcat(s.effects, [SemiRefireNotified], ProjectileSpawned);
      }
    case StartReloadCalled =>
      OccurrencesConcat(s.effects, [ReloadMontagePlayed], ProjectileSpawned);
    case ActivateCalled =>
      OccurrencesConcat(s.effects, [ActivatedNotified], ProjectileSpawned);
    case DeactivateCalled =>
      OccurrencesConcat(s.effects, [DeactivatedNotified], ProjectileSpawned);
    case StopFiringCalled =>
    case StopReloadCalled =>
  }

  /** Over a run with no completed reload, the magazine lost exactly one bullet per projectile. */
  lemma {:induction false} RunSpendsOneBulletPerProjectile(s: WeaponState, cfg: WeaponConfig, events: seq<WeaponEvent>)
    requires forall i :: 0 <= i < |events| ==> !events[i].ReloadTimerElapsed?
    ensures Run(s, cfg, events).bullets + Shots(Run(s, cfg, events).effects) == s.bullets + Shots(s.effects)
    decreases |events|
  {
    if events != [] {
      StepSpendsOneBulletPerProjectile(s, cfg, events[0]);
      RunSpendsOneBulletPerProjectile(Step(s, cfg, events[0]), cfg, events[1..]);
    }
  }

  /** A weapon without authority never changes its bullet count and never spawns a projectile. */
  lemma {:induction false} ClientNeverSpendsAmmo(s: WeaponState, cfg: WeaponConfig, events: seq<WeaponEvent>)
    requires !cfg.authority
    ensures Run(s, cfg, events).bullets == s.bullets
    ensures Run(s, cfg, events).reloading == s.reloading
    decreases |events|
  {
    if events != [] {
      ClientNeverSpendsAmmo(Step(s, cfg, events[0]), cfg, events[1..]);
    }
  }

  /** On the authority, the reload timer is pending exactly while the weapon is reloading. */
  predicate ReloadTimerMatchesFlag(s: WeaponState)
  {
    s.reloadTimer.Armed? <==> s.reloading
  }

  lemma {:induction false} RunKeepsReloadTimerMatched(s: WeaponState, cfg: WeaponConfig, events: seq<WeaponEvent>)
    requires cfg.authority && cfg.reloadTime > 0.0 && ReloadTimerMatchesFlag(s)
    ensures ReloadTimerMatchesFlag(Run(s, cfg, events))
    decreases |events|
  {
    if events != [] {
      RunKeepsReloadTimerMatched(Step(s, cfg, events[0]), cfg, events[1..]);
    }
  }

  /**
   * The reload protocol: on the authority, a weapon that can reload ends a
   * `StartReload` followed by its timer with a full magazine and the
   * reloading flag down.
   */
  lemma ReloadFillsMagazine(s: WeaponState, cfg: WeaponConfig)
    requires cfg.authority && cfg.reloadTime > 0.0 && CanReload(s, cfg)
    ensures Run(s, cfg, [StartReloadCalled, ReloadTimerElapsed]).bullets == cfg.magazineSize
    ensures !Run(s, cfg, [StartReloadCalled, ReloadTimerElapsed]).reloading
    ensures Run(s, cfg, [StartReloadCalled, ReloadTimerElapsed]).reloadTimer == Cleared
  {
    var r1 := Step(s, cfg, StartReloadCalled);
    assert Run(s, cfg, [StartReloadCalled, ReloadTimerElapsed]) == Run(r1, cfg, [ReloadTimerElapsed]);
    assert Run(r1, cfg, [ReloadTimerElapsed]) == Step(r1, cfg, ReloadTimerElapsed);
  }

  /**
   * With a `ReloadTime` of zero or less, `StartReload` raises the reloading
   * flag but `SetTimer` schedules nothing: the reload timer stays cleared,
   * so nothing completes the reload, the magazine is not refilled and the
   * flag stays up, which also keeps `Fire` from shooting.
   */
  lemma ZeroReloadTimeLeavesReloadPending(s: WeaponState, cfg: WeaponConfig)
    requires cfg.authority && cfg.reloadTime <= 0.0 && CanReload(s, cfg)
    ensures var r := Run(s, cfg, [StartReloadCalled, ReloadTimerElapsed]);
      && r.reloading && r.reloadTimer == Cleared && r.bullets == s.bullets
      && !ReloadTimerMatchesFlag(r) && !CanReload(r, cfg)
  {
    var r1 := Step(s, cfg, StartReloadCalled);
    assert Run(s, cfg, [StartReloadCalled, ReloadTimerElapsed]) == Run(r1, cfg, [ReloadTimerElapsed]);
    assert Run(r1, cfg, [ReloadTimerElapsed]) == Step(r1, cfg, ReloadTimerElapsed);
  }

  /**
   * `StartFiring` does not look at the reloading flag, so the trigger can be
   * held during a reload: both flags are up after a reload is started and
   * the trigger pulled. (`Fire` still refuses to shoot in that state.)
   */
  lemma FiringDuringReloadIsReachable(s: WeaponState, cfg: WeaponConfig, now: real)
    requires cfg.authority && CanReload(s, cfg)
    ensures Run(s, cfg, [StartReloadCalled, StartFiringCalled(now)]).firing
    ensures Run(s, cfg, [StartReloadCalled, StartFiringCalled(now)]).reloading
    ensures Run(s, cfg, [StartReloadCalled, StartFiringCalled(now)]).bullets == s.bullets
  {
    var r1 := Step(s, cfg, StartReloadCalled);
    assert Run(s, cfg, [StartReloadCalled, StartFiringCalled(now)]) == Run(r1, cfg, [StartFiringCalled(now)]);
    assert Run(r1, cfg, [StartFiringCalled(now)]) == Step(r1, cfg, StartFiringCalled(now));
  }

  /**
   * The full-auto retry is scheduled after the time already elapsed since
   * the last shot rather than after the rest of the cooldown. When the
   * trigger is pulled less than half a refire interval after a shot, the
   * scheduled shot comes sooner than `RefireRate` after the previous one.
   */
  lemma FullAutoRetryCanBeatRefireRate(s: WeaponState, cfg: WeaponConfig, now: real)
    requires cfg.fullAuto && ShotAllowed(s)
    requires 0.0 < now - s.lastShot && 2.0 * (now - s.lastShot) < cfg.refireRate
    ensures StartFiringStep(s, cfg, now).refireTimer == Armed(FireAgain, now - s.lastShot)
    ensures var retryAt := now + (now - s.lastShot);
      && RefireElapsedStep(StartFiringStep(s, cfg, now), cfg, retryAt).lastShot == retryAt
      && retryAt - s.lastShot < cfg.refireRate
  {
  }

  /**
   * A full-auto trigger pulled at the very time of the last shot asks for a
   * retry after zero seconds, which `SetTimer` turns into clearing the
   * handle: the weapon is left firing with nothing scheduled, and a refire
   * timer event finds nothing to run.
   */
  lemma SameInstantRetryIsDropped(s: WeaponState, cfg: WeaponConfig, now: real, later: real)
    requires cfg.fullAuto && now == s.lastShot && cfg.refireRate >= 0.0
    ensures var r := StartFiringStep(s, cfg, now);
      && r.firing && r.refireTimer == Cleared && r.bullets == s.bullets
      && RefireElapsedStep(r, cfg, later) == r
  {
  }
}
