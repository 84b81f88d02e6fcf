/**
 * `AShooterNPC` and `AShooterAIController` as classes. They refer to each
 * other (an NPC's controller, a controller's pawn, the death handlers bound
 * on an NPC), so they share this module. The NPC's damage, death and
 * respawn are proved to have the effect `NpcRules` gives them, and its
 * calls on its weapon and the game mode the effect `WeaponRules` and
 * `ScoreRules` give those.
 */
module AI {
  import opened Common
  import WeaponRules
  import opened NpcRules
  import opened Weapon
  import opened GameMode
  import Character

  /**
   * The check at the end of `OnPawnDeath`: the controller stays alive only
   * for a pawn that is a shooter NPC set to respawn.
   */
  predicate KeepsController(pawn: ShooterNPC?): (r: bool)
    ensures r <==> pawn != null && pawn.config.canRespawn && pawn.config.respawnTime > 0.0
  {
    pawn != null && Respawns(pawn.config)
  }

  class ShooterNPC {
    const config: NpcConfig
    /** `GetAuthGameMode()` cast to the shooter game mode; null on clients. */
    const gameMode: ShooterGameMode?

    var currentHP: real
    var isDead: bool
    var lastDamageInstigator: Option<ControllerRef>
    var respawnTimer: Timer<NpcRespawnCallback>
    var deathTimer: Timer<DestructionCallback>
    var destroyed: bool

    var isShooting: bool
    var currentAimTarget: Option<ActorRef>
    var weapon: ShooterWeapon?

    /** `GetController()`, when it is a shooter AI controller. */
    var controller: ShooterAIController?
    /** The actor's `Tags`. */
    var tags: seq<string>
    /** The controllers whose `OnPawnDeath` is bound to this NPC's death delegate. */
    var deathListeners: seq<ShooterAIController>

    /** The fields damage, death and respawn change, as an `NpcRules` snapshot. */
    function Body(): NpcBody
      reads this
    {
      NpcBody(currentHP, isDead, lastDamageInstigator, respawnTimer, deathTimer, destroyed)
    }

    /** The class of the held weapon, if any. */
    function HeldClass(): Option<WeaponClass>
      reads this
    {
      if weapon == null then None else Some(weapon.weaponClass)
    }

    ghost predicate Valid()
      reads this, gameMode
    {
      gameMode != null ==> gameMode.Valid()
    }

    /** Every field except the controller link is as it was. */
    twostate predicate KeptButController()
      reads this
    {
      && Body() == old(Body()) && weapon == old(weapon) && isShooting == old(isShooting)
      && currentAimTarget == old(currentAimTarget) && tags == old(tags) && deathListeners == old(deathListeners)
    }

    /** The possession side is as it was: controller, tags and bound death handlers. */
    twostate predicate LinksKept()
      reads this
    {
      controller == old(controller) && tags == old(tags) && deathListeners == old(deathListeners)
    }

    /** The shooting side is as it was: the held weapon, the flag and the aim target. */
    twostate predicate AimKept()
      reads this
    {
      weapon == old(weapon) && isShooting == old(isShooting) && currentAimTarget == old(currentAimTarget)
    }

    /** Construction, with `CurrentHP` as edited (100 by default). */
    constructor (config: NpcConfig, gameMode: ShooterGameMode?, initialHP: real)
      requires gameMode != null ==> gameMode.Valid()
      ensures this.config == config && this.gameMode == gameMode
      ensures Body() == SpawnedNpc(initialHP) && !isShooting && weapon == null && controller == null
      ensures tags == [] && deathListeners == []
      ensures Valid()
    {
      this.config := config;
      this.gameMode := gameMode;
      currentHP, isDead, lastDamageInstigator := initialHP, false, None;
      respawnTimer, deathTimer, destroyed := Cleared, Cleared, false;
      isShooting, currentAimTarget, weapon := false, None, null;
      controller, tags, deathListeners := null, [], [];
    }

    /**
     * `BeginPlay`: spawns a weapon of the configured class with that class's
     * `defaults` and hands it to `AddWeaponClass`, which keeps it.
     */
    method BeginPlay(defaults: WeaponRules.WeaponConfig)
      modifies this
      ensures Body() == old(Body()) && isShooting == old(isShooting) && currentAimTarget == old(currentAimTarget)
      ensures LinksKept()
      ensures HeldClass() == config.weaponClass
      ensures weapon != null ==> fresh(weapon) && weapon.State() == WeaponRules.Spawned(defaults)
    {
      var spawned: ShooterWeapon? := null;
      if config.weaponClass.Some? {
        spawned := new ShooterWeapon(config.weaponClass.value, defaults);
      }
      weapon := spawned;
      if weapon != null {
        AddWeaponClass(Some(weapon.weaponClass), defaults);
      }
    }

    /**
     * `AddWeaponClass`: a weapon of the requested class is spawned with the
     * class's `defaults` and replaces the held one exactly when the class is
     * not null and differs from the held weapon's class.
     */
    method AddWeaponClass(weaponClass: Option<WeaponClass>, defaults: WeaponRules.WeaponConfig)
      modifies this
      ensures Body() == old(Body()) && isShooting == old(isShooting) && currentAimTarget == old(currentAimTarget)
      ensures LinksKept()
      ensures HeldClass() == HeldAfterAdd(old(HeldClass()), weaponClass)
      ensures SpawnsWeapon(old(HeldClass()), weaponClass) ==>
        fresh(weapon) && weapon.State() == WeaponRules.Spawned(defaults)
      ensures !SpawnsWeapon(old(HeldClass()), weaponClass) ==> weapon == old(weapon)
    {
      if weaponClass.Some? && (weapon == null || weapon.weaponClass != weaponClass.value) {
        var newWeapon := new ShooterWeapon(weaponClass.value, defaults);
        weapon := newWeapon;
      }
    }

    method TakeDamage(damage: real, instigator: Option<ControllerRef>) returns (dealt: real)
      requires Valid()
      modifies this, gameMode
      ensures dealt == NpcDealt(old(Body()), config, damage)
      ensures Body() == NpcHitStep(old(Body()), config, damage, instigator)
      ensures NpcKills(old(Body()), config, damage) ==>
        Character.DeathReported(null, gameMode, config.teamByte, None, lastDamageInstigator)
      ensures !NpcKills(old(Body()), config, damage) ==> gameMode != null ==> unchanged(gameMode)
      ensures AimKept() && LinksKept()
      ensures Valid()
    {
      if !config.authority {
        return 0.0;
      }
      if isDead {
        return 0.0;
      }
      if instigator.Some? {
        lastDamageInstigator := instigator;
      }
      currentHP := currentHP - damage;
      if currentHP <= 0.0 {
        Die();
      }
      return damage;
    }

    /**
     * `Die`: ignored when already dead. Otherwise the NPC is marked dead, a
     * kill is recorded when the last instigator is a player controller, the
     * NPC's own team scores, and the respawn or the destruction timer is armed.
     * The NPC's death delegate is not broadcast.
     */
    method Die()
      requires Valid()
      modifies this, gameMode
      ensures Body() == NpcDieStep(old(Body()), config)
      ensures !old(isDead) ==> Character.DeathReported(null, gameMode, config.teamByte, None, lastDamageInstigator)
      ensures old(isDead) ==> gameMode != null ==> unchanged(gameMode)
      ensures AimKept() && LinksKept()
      ensures Valid()
    {
      if isDead {
        return;
      }
      isDead := true;
      if gameMode != null {
        if IsPlayerController(lastDamageInstigator) {
          gameMode.RecordKill(lastDamageInstigator.value);
        }
        gameMode.IncrementTeamScore(config.teamByte);
      }
      if Respawns(config) {
        respawnTimer := Arm(RespawnNpc, config.respawnTime);
      } else {
        deathTimer := Arm(DestroyNpc, config.deferredDestructionTime);
      }
    }

    /** `DeferredDestruction`: `Destroy()`, whose `EndPlay` clears both timers. */
    method DeferredDestruction()
      modifies this
      ensures Body() == NpcDestroyStep(old(Body()))
      ensures AimKept() && LinksKept()
    {
      destroyed := true;
      deathTimer := Cleared;
      respawnTimer := Cleared;
    }

    /** The destruction timer runs out: its handle is spent and `DeferredDestruction` runs. */
    method OnDeathTimer()
      modifies this
      ensures Body() == NpcDeathElapsedStep(old(Body()))
      ensures AimKept() && LinksKept()
    {
      if deathTimer.Armed? {
        deathTimer := Cleared;
        DeferredDestruction();
      }
    }

    /**
     * `Respawn`: HP back to the literal 100 and alive again, then
     * `OnAfterRespawn` asks the NPC's AI controller, if any, to repossess it.
     */
    method Respawn()
      modifies this, controller
      ensures Body() == NpcRespawnStep(old(Body()))
      ensures AimKept() && controller == old(controller)
      ensures controller == null ==> LinksKept()
      ensures controller != null ==> controller.Repossessed(this)
    {
      currentHP := RespawnHP;
      isDead := false;
      OnAfterRespawn();
    }

    /** The respawn timer runs out: its handle is spent and `Respawn` runs. */
    method OnRespawnTimer()
      modifies this, controller
      ensures Body() == NpcRespawnElapsedStep(old(Body()))
      ensures AimKept() && controller == old(controller)
      ensures old(respawnTimer).Cleared? || controller == null ==> LinksKept() && (controller != null ==> unchanged(controller))
      ensures old(respawnTimer).Armed? && controller != null ==> controller.Repossessed(this)
    {
      if respawnTimer.Armed? {
        respawnTimer := Cleared;
        Respawn();
      }
    }

    /** `OnAfterRespawn`: the NPC's AI controller, if any, is asked to repossess it. */
    method OnAfterRespawn()
      modifies this, controller
      ensures Body() == old(Body()) && AimKept() && controller == old(controller)
      ensures controller == null ==> LinksKept()
      ensures controller != null ==> controller.Repossessed(this)
    {
      if controller != null {
        controller.RequestRepossess(this);
      }
    }

    /** `StartShooting`: the aim target is stored, the flag raised and the weapon starts firing. */
    method StartShooting(target: Option<ActorRef>, now: real)
      requires weapon != null
      modifies this, weapon
      ensures currentAimTarget == target && isShooting
      ensures Body() == old(Body()) && weapon == old(weapon) && LinksKept()
      ensures weapon.State() == WeaponRules.StartFiringStep(old(weapon.State()), weapon.config, now)
    {
      currentAimTarget := target;
      isShooting := true;
      weapon.StartFiring(now);
    }

    /** `StopShooting`: the flag lowered and the weapon stops firing. */
    method StopShooting()
      requires weapon != null
      modifies this, weapon
      ensures !isShooting && currentAimTarget == old(currentAimTarget)
      ensures Body() == old(Body()) && weapon == old(weapon) && LinksKept()
      ensures weapon.State() == WeaponRules.StopFiringStep(old(weapon.State()))
    {
      isShooting := false;
      weapon.StopFiring();
    }

    /** A semi-automatic weapon may fire again: it is fired only while the NPC is shooting. */
    method OnSemiWeaponRefire(now: real)
      requires isShooting ==> weapon != null
      modifies weapon
      ensures isShooting ==> weapon.State() == WeaponRules.StartFiringStep(old(weapon.State()), weapon.config, now)
      ensures !isShooting && weapon != null ==> unchanged(weapon)
    {
      if isShooting {
        weapon.StartFiring(now);
      }
    }
  }

  class ShooterAIController {
    /** `TeamTag`, "Enemy" by default. */
    const teamTag: string
    /** Whether the StateTree has bound the perception delegates. */
    const perceptionUpdatedBound: bool
    const perceptionForgottenBound: bool

    /** `GetPawn()`, when it is a shooter NPC. */
    var pawn: ShooterNPC?
    var targetEnemy: Option<ActorRef>
    var logicRunning: bool
    var destroyed: bool
    /** Calls on the path following, the StateTree and possession, in order. */
    var actions: seq<ControllerAction>
    /** Perception events passed on to the StateTree, in order. */
    var forwarded: seq<PerceptionEvent>

    constructor (teamTag: string, perceptionUpdatedBound: bool, perceptionForgottenBound: bool)
      ensures this.teamTag == teamTag
      ensures this.perceptionUpdatedBound == perceptionUpdatedBound
      ensures this.perceptionForgottenBound == perceptionForgottenBound
      ensures pawn == null && targetEnemy == None && !logicRunning && !destroyed
      ensures actions == [] && forwarded == []
    {
      this.teamTag := teamTag;
      this.perceptionUpdatedBound := perceptionUpdatedBound;
      this.perceptionForgottenBound := perceptionForgottenBound;
      pawn, targetEnemy, logicRunning, destroyed := null, None, false, false;
      actions, forwarded := [], [];
    }

    /**
     * What `RequestRepossess(npc)` leaves behind: a pawn other than the
     * current one is possessed; the current one gets its target cleared and
     * its logic restarted, stop then start.
     */
    twostate predicate Repossessed(npc: ShooterNPC)
      reads this, npc
    {
      && npc.AimKept() && destroyed == old(destroyed) && forwarded == old(forwarded)
      && if old(pawn) != npc then
        && pawn == npc && npc.controller == this
        && npc.deathListeners == BindOnce(old(npc.deathListeners), this)
        && npc.tags == old(npc.tags) + [teamTag]
        && targetEnemy == old(targetEnemy) && logicRunning == old(logicRunning)
        && actions == old(actions) + [PawnPossessed]
      else
        && pawn == npc && targetEnemy == None && logicRunning
        && npc.LinksKept()
        && actions == old(actions) + [LogicStopped("Respawn"), LogicStarted]
    }

    method SetCurrentTarget(target: Option<ActorRef>)
      modifies this
      ensures targetEnemy == target
      ensures pawn == old(pawn) && logicRunning == old(logicRunning) && actions == old(actions)
      ensures destroyed == old(destroyed) && forwarded == old(forwarded)
    {
      targetEnemy := target;
    }

    method ClearCurrentTarget()
      modifies this
      ensures targetEnemy == None
      ensures pawn == old(pawn) && logicRunning == old(logicRunning) && actions == old(actions)
      ensures destroyed == old(destroyed) && forwarded == old(forwarded)
    {
      targetEnemy := None;
    }

    /** `OnPossess` of a shooter NPC: the team tag is added and the death handler bound once. */
    method OnPossess(npc: ShooterNPC)
      modifies npc
      ensures npc.tags == old(npc.tags) + [teamTag]
      ensures npc.deathListeners == BindOnce(old(npc.deathListeners), this)
      ensures npc.Body() == old(npc.Body()) && npc.controller == old(npc.controller) && npc.AimKept()
    {
      npc.tags := npc.tags + [teamTag];
      if this !in npc.deathListeners {
        npc.deathListeners := npc.deathListeners + [this];
      }
    }

    /** `Possess`: the controller and the NPC are linked, then `OnPossess` runs. */
    method Possess(npc: ShooterNPC)
      modifies this, npc
      ensures pawn == npc && npc.controller == this
      ensures npc.tags == old(npc.tags) + [teamTag]
      ensures npc.deathListeners == BindOnce(old(npc.deathListeners), this)
      ensures npc.Body() == old(npc.Body()) && npc.AimKept()
      ensures targetEnemy == old(targetEnemy) && logicRunning == old(logicRunning)
      ensures destroyed == old(destroyed) && forwarded == old(forwarded)
      ensures actions == old(actions) + [PawnPossessed]
    {
      pawn := npc;
      npc.controller := this;
      actions := actions + [PawnPossessed];
      OnPossess(npc);
    }

    /** `UnPossess`: the link to the pawn is dropped on both sides. */
    method UnPossess()
      modifies this, pawn
      ensures pawn == null
      ensures old(pawn) != null ==> old(pawn).controller == (if old(pawn.controller) == this then null else old(pawn.controller))
      ensures old(pawn) != null ==> old(pawn).KeptButController()
      ensures targetEnemy == old(targetEnemy) && logicRunning == old(logicRunning)
      ensures destroyed == old(destroyed) && forwarded == old(forwarded)
      ensures actions == old(actions) + [PawnUnpossessed]
    {
      if pawn != null && pawn.controller == this {
        pawn.controller := null;
      }
      pawn := null;
      actions := actions + [PawnUnpossessed];
    }

    /**
     * `OnPawnDeath`: movement aborted, logic stopped and the pawn unpossessed,
     * and only then is the pawn read to decide whether the controller stays.
     * By then there is no pawn, so the controller is always destroyed.
     */
    method OnPawnDeath()
      modifies this, pawn
      ensures actions == old(actions) + [MoveAborted, LogicStopped(""), PawnUnpossessed]
      ensures !logicRunning && pawn == null && destroyed
      ensures old(pawn) != null ==> old(pawn).controller == (if old(pawn.controller) == this then null else old(pawn.controller))
      ensures old(pawn) != null ==> old(pawn).KeptButController()
      ensures targetEnemy == old(targetEnemy) && forwarded == old(forwarded)
    {
      actions := actions + [MoveAborted, LogicStopped("")];
      logicRunning := false;
      UnPossess();
      if KeepsController(pawn) {
        return;
      }
      destroyed := true;
    }

    /**
     * `RequestRepossess`: nothing for a null NPC; a pawn other than the
     * current one is possessed; the current one has its target cleared and
     * its logic restarted.
     */
    method RequestRepossess(npc: ShooterNPC?)
      modifies this, npc
      ensures npc == null ==> unchanged(this)
      ensures npc != null ==> npc.Body() == old(npc.Body()) && Repossessed(npc)
    {
      if npc == null {
        return;
      }
      if pawn != npc {
        Possess(npc);
      } else {
        ClearCurrentTarget();
        actions := actions + [LogicStopped("Respawn")];
        logicRunning := false;
        actions := actions + [LogicStarted];
        logicRunning := true;
      }
    }

    /** A perception update is passed on unchanged, if a listener is bound. */
    method OnPerceptionUpdated(actor: ActorRef, stimulus: Stimulus)
      modifies this
      ensures forwarded == old(forwarded) + (if perceptionUpdatedBound then [PerceptionUpdated(actor, stimulus)] else [])
      ensures pawn == old(pawn) && targetEnemy == old(targetEnemy) && actions == old(actions)
      ensures logicRunning == old(logicRunning) && destroyed == old(destroyed)
    {
      if perceptionUpdatedBound {
        forwarded := forwarded + [PerceptionUpdated(actor, stimulus)];
      }
    }

    /** A forgotten actor is passed on unchanged, if a listener is bound. */
    method OnPerceptionForgotten(actor: ActorRef)
      modifies this
      ensures forwarded == old(forwarded) + (if perceptionForgottenBound then [PerceptionForgotten(actor)] else [])
      ensures pawn == old(pawn) && targetEnemy == old(targetEnemy) && actions == old(actions)
      ensures logicRunning == old(logicRunning) && destroyed == old(destroyed)
    {
      if perceptionForgottenBound {
        forwarded := forwarded + [PerceptionForgotten(actor)];
      }
    }
  }
}
