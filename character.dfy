/**
 * `AShooterCharacter` as a class: its health, spawn protection and respawn
 * fields are updated in place, its weapons are `Weapon.ShooterWeapon`
 * objects it owns, and its death scores through the game mode object.
 * Every member is proved to have the effect `CharacterRules` gives it on
 * the body and the inventory, and the effect `WeaponRules` and `ScoreRules`
 * give the calls it makes on its weapons and the game mode.
 */
module Character {
  import opened Common
  import WeaponRules
  import ScoreRules
  import opened CharacterRules
  import opened Weapon
  import opened GameMode

  /** The classes of a list of weapons, in order. */
  function ClassesOf(ws: seq<ShooterWeapon>): (r: seq<WeaponClass>)
    ensures |r| == |ws| && forall i :: 0 <= i < |ws| ==> r[i] == ws[i].weaponClass
  {
    if ws == [] then [] else [ws[0].weaponClass] + ClassesOf(ws[1..])
  }

  /** Weapons of distinct classes are distinct, so each sits at exactly one index. */
  lemma IndexOfUnique(ws: seq<ShooterWeapon>, k: int)
    requires UniqueClasses(ClassesOf(ws)) && 0 <= k < |ws|
    ensures FirstIndex(ws, ws[k]) == k
  {
    var cs := ClassesOf(ws);
    var i := FirstIndex(ws, ws[k]);
    assert cs[i] == cs[k];
  }

  /**
   * The weapon `DoSwitchWeapon` moves to from index `prev` is another weapon,
   * found again at its own index, so the inventory moves as `SwitchStep` says.
   */
  lemma SwitchTarget(ws: seq<ShooterWeapon>, prev: int, next: int)
    requires UniqueClasses(ClassesOf(ws)) && |ws| > 1 && 0 <= prev < |ws| && next == SwitchIndex(prev, |ws|)
    ensures FirstIndex(ws, ws[next]) == next && ws[prev] != ws[next]
    ensures CharacterRules.Inventory(ClassesOf(ws), next) == SwitchStep(CharacterRules.Inventory(ClassesOf(ws), prev))
  {
    IndexOfUnique(ws, next);
    assert ClassesOf(ws)[prev] != ClassesOf(ws)[next];
  }

  /**
   * Appending a weapon of a class not yet owned appends its class, and the
   * new weapon is found at the end of the list.
   */
  lemma AppendTarget(ws: seq<ShooterWeapon>, w: ShooterWeapon)
    requires UniqueClasses(ClassesOf(ws)) && w.weaponClass !in ClassesOf(ws)
    ensures ClassesOf(ws + [w]) == ClassesOf(ws) + [w.weaponClass]
    ensures FirstIndex(ws + [w], w) == |ws|
    ensures InventoryInvariant(CharacterRules.Inventory(ClassesOf(ws + [w]), |ws|))
  {
    assert ClassesOf(ws + [w]) == ClassesOf(ws) + [w.weaponClass];
  }

  /**
   * What a death does to the objects a combatant calls: its weapon `w`
   * deactivated, and on the game mode `gm` the victim's and killer's
   * statistics recorded and one point for the combatant's own team.
   */
  twostate predicate DeathReported(w: ShooterWeapon?, gm: ShooterGameMode?, team: byte,
                                   victim: Option<ControllerRef>, instigator: Option<ControllerRef>)
    reads w, gm
  {
    && (w != null ==> w.State() == WeaponRules.DeactivateStep(old(w.State()), w.config))
    && (gm != null ==>
          && gm.State() == ScoreRules.IncrementStep(old(gm.State()), gm.config, team)
          && gm.statCalls == old(gm.statCalls) + DeathStats(victim, instigator))
  }

  class ShooterCharacter {
    const config: CharacterConfig
    /** `GetAuthGameMode()` cast to the shooter game mode; null on clients. */
    const gameMode: ShooterGameMode?

    var currentHP: real
    var isInvulnerable: bool
    var lastDamageInstigator: Option<ControllerRef>
    var invulnerabilityTimer: Timer<InvulnerabilityCallback>
    var respawnTimer: Timer<RespawnCallback>
    var inputEnabled: bool
    var destroyed: bool
    var hud: seq<HudEvent>

    var ownedWeapons: seq<ShooterWeapon>
    var currentWeapon: ShooterWeapon?

    /** The body's fields as a `CharacterRules` snapshot. */
    function Body(): CharacterRules.Body
      reads this
    {
      CharacterRules.Body(currentHP, isInvulnerable, lastDamageInstigator, invulnerabilityTimer, respawnTimer,
                          inputEnabled, destroyed, hud)
    }

    /** `OwnedWeapons` and `CurrentWeapon` as a `CharacterRules` inventory. */
    function Inventory(): CharacterRules.Inventory
      reads this
    {
      CharacterRules.Inventory(ClassesOf(ownedWeapons), FirstIndex(ownedWeapons, currentWeapon))
    }

    ghost predicate Valid()
      reads this, gameMode
    {
      && InventoryInvariant(Inventory())
      && (currentWeapon == null ==> ownedWeapons == [])
      && (currentWeapon != null ==> currentWeapon in ownedWeapons)
      && (gameMode != null ==> gameMode.Valid())
    }

    constructor (config: CharacterConfig, gameMode: ShooterGameMode?)
      requires gameMode != null ==> gameMode.Valid()
      ensures this.config == config && this.gameMode == gameMode
      ensures Body() == Unspawned && Inventory() == EmptyInventory
      ensures Valid()
    {
      this.config := config;
      this.gameMode := gameMode;
      currentHP, isInvulnerable, lastDamageInstigator := 0.0, false, None;
      invulnerabilityTimer, respawnTimer := Cleared, Cleared;
      inputEnabled, destroyed, hud := true, false, [];
      ownedWeapons, currentWeapon := [], null;
    }

    method BeginPlay()
      modifies this
      ensures Body() == BeginPlayStep(old(Body()), config)
      ensures ownedWeapons == old(ownedWeapons) && currentWeapon == old(currentWeapon)
    {
      currentHP := config.maxHP;
      if config.authority {
        isInvulnerable := true;
        invulnerabilityTimer := Arm(ExpireInvulnerability, config.invulnerabilityDuration);
      }
      hud := hud + [HealthShown(1.0)];
    }

    /** `EndPlay`: clears the respawn and invulnerability timers. */
    method EndPlay()
      modifies this
      ensures Body() == old(Body()).(respawnTimer := Cleared, invulnerabilityTimer := Cleared)
      ensures ownedWeapons == old(ownedWeapons) && currentWeapon == old(currentWeapon)
    {
      respawnTimer := Cleared;
      invulnerabilityTimer := Cleared;
    }

    method OnInvulnerabilityExpired()
      modifies this
      ensures Body() == InvulnerabilityExpiredStep(old(Body()), config)
      ensures ownedWeapons == old(ownedWeapons) && currentWeapon == old(currentWeapon)
    {
      if !config.authority {
        return;
      }
      isInvulnerable := false;
    }

    /** The invulnerability timer runs out: its handle is spent and the callback runs. */
    method OnInvulnerabilityTimer()
      modifies this
      ensures Body() == InvulnerabilityElapsedStep(old(Body()), config)
      ensures ownedWeapons == old(ownedWeapons) && currentWeapon == old(currentWeapon)
    {
      if invulnerabilityTimer.Armed? {
        invulnerabilityTimer := Cleared;
        OnInvulnerabilityExpired();
      }
    }

    method TakeDamage(damage: real, instigator: Option<ControllerRef>) returns (dealt: real)
      requires Valid()
      modifies this, currentWeapon, gameMode
      ensures dealt == Dealt(old(Body()), config, damage)
      ensures Body() == HitStep(old(Body()), config, damage, instigator)
      ensures ownedWeapons == old(ownedWeapons) && currentWeapon == old(currentWeapon)
      ensures Kills(old(Body()), config, damage) ==> DeathReported(currentWeapon, gameMode, config.teamByte, config.controller, lastDamageInstigator)
      ensures !Kills(old(Body()), config, damage) ==> (currentWeapon != null ==> unchanged(currentWeapon)) && (gameMode != null ==> unchanged(gameMode))
      ensures Valid()
    {
      if !config.authority {
        return 0.0;
      }
      if currentHP <= 0.0 {
        return 0.0;
      }
      if isInvulnerable {
        return 0.0;
      }
      AcceptHit(damage, instigator);
      return damage;
    }

    /** The rest of `TakeDamage` once its guards have let the hit through. */
    method AcceptHit(damage: real, instigator: Option<ControllerRef>)
      requires Valid() && Accepts(Body(), config)
      modifies this, currentWeapon, gameMode
      ensures Body() == HitStep(old(Body()), config, damage, instigator)
      ensures ownedWeapons == old(ownedWeapons) && currentWeapon == old(currentWeapon)
      ensures Kills(old(Body()), config, damage) ==> DeathReported(currentWeapon, gameMode, config.teamByte, config.controller, lastDamageInstigator)
      ensures !Kills(old(Body()), config, damage) ==> (currentWeapon != null ==> unchanged(currentWeapon)) && (gameMode != null ==> unchanged(gameMode))
      ensures Valid()
    {
      Wound(damage, instigator);
      Settle();
    }

    /** The start of an accepted hit: a present instigator is recorded and the damage subtracted. */
    method Wound(damage: real, instigator: Option<ControllerRef>)
      requires Valid()
      modifies this
      ensures Body() == WoundStep(old(Body()), damage, instigator)
      ensures ownedWeapons == old(ownedWeapons) && currentWeapon == old(currentWeapon)
      ensures Valid()
    {
      if instigator.Some? {
        lastDamageInstigator := instigator;
      }
      currentHP := currentHP - damage;
    }

    /** The rest of an accepted hit: `Die` when HP has reached zero or below, then the HUD update. */
    method Settle()
      requires Valid()
      modifies this, currentWeapon, gameMode
      ensures Body() == SettleStep(old(Body()), config)
      ensures ownedWeapons == old(ownedWeapons) && currentWeapon == old(currentWeapon)
      ensures old(currentHP) <= 0.0 ==> DeathReported(currentWeapon, gameMode, config.teamByte, config.controller, lastDamageInstigator)
      ensures old(currentHP) > 0.0 ==> (currentWeapon != null ==> unchanged(currentWeapon)) && (gameMode != null ==> unchanged(gameMode))
      ensures Valid()
    {
      ghost var wounded := Body();
      if currentHP <= 0.0 {
        Die();
      }
      assert Body() == if wounded.hp <= 0.0 then DieStep(wounded, config) else wounded;
      hud := hud + [HealthShown(HealthFraction(currentHP, config.maxHP))];
    }

    method Die()
      requires Valid()
      modifies this, currentWeapon, gameMode
      ensures Body() == DieStep(old(Body()), config)
      ensures ownedWeapons == old(ownedWeapons) && currentWeapon == old(currentWeapon)
      ensures DeathReported(currentWeapon, gameMode, config.teamByte, config.controller, lastDamageInstigator)
      ensures Valid()
    {
      if currentWeapon != null {
        currentWeapon.DeactivateWeapon();
      }
      if gameMode != null {
        ScoreDeath();
      }
      inputEnabled := false;
      hud := hud + [BulletCountShown(0, 0), DeathShown];
      respawnTimer := Arm(RespawnBody, config.respawnTime);
    }

    /**
     * The game mode's part of `Die`: the victim's death and the killer's kill
     * are recorded for player controllers, then this character's team scores.
     */
    method ScoreDeath()
      requires gameMode != null && gameMode.Valid()
      modifies gameMode
      ensures gameMode.Valid()
      ensures gameMode.State() == ScoreRules.IncrementStep(old(gameMode.State()), gameMode.config, config.teamByte)
      ensures gameMode.statCalls == old(gameMode.statCalls) + DeathStats(config.controller, lastDamageInstigator)
    {
      if IsPlayerController(config.controller) {
        gameMode.RecordDeath(config.controller.value);
      }
      if IsPlayerController(lastDamageInstigator) {
        gameMode.RecordKill(lastDamageInstigator.value);
      }
      gameMode.IncrementTeamScore(config.teamByte);
    }

    /** `OnRespawn`: `Destroy()`, whose `EndPlay` clears the timers. */
    method OnRespawn()
      modifies this
      ensures Body() == RespawnStep(old(Body()))
      ensures ownedWeapons == old(ownedWeapons) && currentWeapon == old(currentWeapon)
    {
      destroyed := true;
      EndPlay();
    }

    /** The respawn timer runs out: its handle is spent and `OnRespawn` runs. */
    method OnRespawnTimer()
      modifies this
      ensures Body() == RespawnElapsedStep(old(Body()))
      ensures ownedWeapons == old(ownedWeapons) && currentWeapon == old(currentWeapon)
    {
      if respawnTimer.Armed? {
        respawnTimer := Cleared;
        OnRespawn();
      }
    }

    /** The first owned weapon of the given class, or null. */
    method FindWeaponOfType(weaponClass: Option<WeaponClass>) returns (w: ShooterWeapon?)
      ensures weaponClass.None? ==> w == null
      ensures weaponClass.Some? ==>
        var k := FirstIndex(ClassesOf(ownedWeapons), weaponClass.value);
        (k == -1 ==> w == null) && (k >= 0 ==> w == ownedWeapons[k])
    {
      ghost var classes := ClassesOf(ownedWeapons);
      for i := 0 to |ownedWeapons|
        invariant weaponClass.Some? ==> forall j :: 0 <= j < i ==> classes[j] != weaponClass.value
      {
        if weaponClass.Some? && ownedWeapons[i].weaponClass == weaponClass.value {
          FirstIndexAt(classes, weaponClass.value, i);
          return ownedWeapons[i];
        }
      }
      return null;
    }

    /**
     * `AddWeaponClass`: when no owned weapon has the class, a weapon of it is
     * spawned with the class's `defaults`, appended, and made current after
     * the previous one is deactivated. A null class spawns nothing.
     */
    method AddWeaponClass(weaponClass: Option<WeaponClass>, defaults: WeaponRules.WeaponConfig)
      requires Valid()
      modifies this, currentWeapon
      ensures Valid() && Body() == old(Body())
      ensures Inventory() == AddStep(old(Inventory()), weaponClass)
      ensures weaponClass.None? || weaponClass.value in old(Inventory()).classes ==>
        ownedWeapons == old(ownedWeapons) && currentWeapon == old(currentWeapon) && (currentWeapon != null ==> unchanged(currentWeapon))
      ensures weaponClass.Some? && weaponClass.value !in old(Inventory()).classes ==>
        && ownedWeapons == old(ownedWeapons) + [currentWeapon]
        && fresh(currentWeapon) && currentWeapon.config == defaults
        && currentWeapon.State() == WeaponRules.ActivateStep(WeaponRules.Spawned(defaults))
        && (old(currentWeapon) != null ==>
              old(currentWeapon).State() == WeaponRules.DeactivateStep(old(currentWeapon.State()), old(currentWeapon).config))
    {
      var owned := FindWeaponOfType(weaponClass);
      if owned == null && weaponClass.Some? {
        SpawnAndEquip(weaponClass.value, defaults);
      }
    }

    /** The spawning branch of `AddWeaponClass`, for a class not yet owned. */
    method SpawnAndEquip(weaponClass: WeaponClass, defaults: WeaponRules.WeaponConfig)
      requires Valid() && weaponClass !in Inventory().classes
      modifies this, currentWeapon
      ensures Valid() && Body() == old(Body())
      ensures Inventory() == AddStep(old(Inventory()), Some(weaponClass))
      ensures ownedWeapons == old(ownedWeapons) + [currentWeapon]
      ensures fresh(currentWeapon) && currentWeapon.config == defaults
      ensures currentWeapon.State() == WeaponRules.ActivateStep(WeaponRules.Spawned(defaults))
      ensures old(currentWeapon) != null ==>
        old(currentWeapon).State() == WeaponRules.DeactivateStep(old(currentWeapon.State()), old(currentWeapon).config)
    {
      var added := new ShooterWeapon(weaponClass, defaults);
      AppendOwned(added);
      Equip(added);
    }

    /**
     * The end of `AddWeaponClass`: the previous weapon, if any, is
     * deactivated, and the weapon just appended becomes current and active.
     */
    method Equip(added: ShooterWeapon)
      requires ownedWeapons != [] && added == ownedWeapons[|ownedWeapons| - 1] && added != currentWeapon
      requires InventoryInvariant(CharacterRules.Inventory(ClassesOf(ownedWeapons), |ownedWeapons| - 1))
      requires FirstIndex(ownedWeapons, added) == |ownedWeapons| - 1
      requires gameMode != null ==> gameMode.Valid()
      modifies this, currentWeapon, added
      ensures Valid() && Body() == old(Body()) && ownedWeapons == old(ownedWeapons)
      ensures currentWeapon == added && Inventory().current == |ownedWeapons| - 1
      ensures added.State() == WeaponRules.ActivateStep(old(added.State()))
      ensures old(currentWeapon) != null ==>
        old(currentWeapon).State() == WeaponRules.DeactivateStep(old(currentWeapon.State()), old(currentWeapon).config)
    {
      if currentWeapon != null {
        currentWeapon.DeactivateWeapon();
      }
      currentWeapon := added;
      currentWeapon.ActivateWeapon();
    }

    /** `OwnedWeapons.Add`: the weapon of a class not yet owned goes at the end of the list. */
    method AppendOwned(added: ShooterWeapon)
      requires Valid() && added.weaponClass !in Inventory().classes
      modifies this
      ensures ownedWeapons == old(ownedWeapons) + [added] && currentWeapon == old(currentWeapon)
      ensures Body() == old(Body())
      ensures ClassesOf(ownedWeapons) == old(Inventory()).classes + [added.weaponClass]
      ensures FirstIndex(ownedWeapons, added) == |old(ownedWeapons)|
      ensures InventoryInvariant(CharacterRules.Inventory(ClassesOf(ownedWeapons), |old(ownedWeapons)|))
      ensures currentWeapon != null ==> currentWeapon in ownedWeapons
      ensures gameMode != null ==> gameMode.Valid()
    {
      AppendTarget(ownedWeapons, added);
      ownedWeapons := ownedWeapons + [added];
    }

    /**
     * `DoSwitchWeapon`: with at least two weapons, the current one is
     * deactivated and the next in the list, wrapping to the first, is
     * activated. The list itself never changes, and no other weapon does.
     */
    method DoSwitchWeapon()
      requires Valid()
      modifies this, ownedWeapons
      ensures Valid() && Body() == old(Body()) && ownedWeapons == old(ownedWeapons)
      ensures Inventory() == SwitchStep(old(Inventory()))
      ensures |ownedWeapons| <= 1 ==> unchanged(ownedWeapons)
      ensures |ownedWeapons| > 1 ==>
        var prev := old(Inventory()).current;
        var next := Inventory().current;
        && ownedWeapons[prev].State() == WeaponRules.DeactivateStep(old(ownedWeapons[prev].State()), ownedWeapons[prev].config)
        && ownedWeapons[next].State() == WeaponRules.ActivateStep(old(ownedWeapons[next].State()))
      ensures forall w :: w in ownedWeapons && w != old(currentWeapon) && w != currentWeapon ==> unchanged(w)
    {
      if |ownedWeapons| > 1 {
        currentWeapon.DeactivateWeapon();
        var weaponIndex := FirstIndex(ownedWeapons, currentWeapon);
        if weaponIndex == |ownedWeapons| - 1 {
          weaponIndex := 0;
        } else {
          weaponIndex := weaponIndex + 1;
        }
        SelectWeapon(weaponIndex);
        currentWeapon.ActivateWeapon();
      }
    }

    /** The part of `DoSwitchWeapon` that makes the weapon at index `next` current. */
    method SelectWeapon(next: int)
      requires Valid() && |ownedWeapons| > 1 && next == SwitchIndex(Inventory().current, |ownedWeapons|)
      modifies this
      ensures Valid() && Body() == old(Body()) && ownedWeapons == old(ownedWeapons)
      ensures Inventory() == SwitchStep(old(Inventory())) && Inventory().current == next
      ensures currentWeapon == ownedWeapons[next] && currentWeapon != old(currentWeapon)
    {
      SwitchTarget(ownedWeapons, Inventory().current, next);
      currentWeapon := ownedWeapons[next];
    }

    /** The server side of the fire input: the current weapon starts firing. */
    method ServerStartFiring(now: real)
      modifies currentWeapon
      ensures currentWeapon != null ==>
        currentWeapon.State() == WeaponRules.StartFiringStep(old(currentWeapon.State()), currentWeapon.config, now)
    {
      if currentWeapon != null {
        currentWeapon.StartFiring(now);
      }
    }

    /** The server side of releasing the fire input: the current weapon stops firing. */
    method ServerStopFiring()
      modifies currentWeapon
      ensures currentWeapon != null ==>
        currentWeapon.State() == WeaponRules.StopFiringStep(old(currentWeapon.State()))
    {
      if currentWeapon != null {
        currentWeapon.StopFiring();
      }
    }

    /** The server side of the reload input: a reload starts when the weapon allows one. */
    method ServerReload()
      modifies currentWeapon
      ensures currentWeapon != null ==>
        currentWeapon.State() == WeaponRules.StartReloadStep(old(currentWeapon.State()), currentWeapon.config)
    {
      if currentWeapon != null && currentWeapon.CanReload() {
        currentWeapon.StartReload();
      }
    }
  }
}
