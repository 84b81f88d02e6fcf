/**
 * The rules of `AShooterNPC` and `AShooterAIController` that do not touch
 * other objects, as pure functions: damage, the idempotent death with its
 * respawn-or-destroy choice, respawn, the weapon-class check of
 * `AddWeaponClass`, and the once-only binding of the death handler. The
 * classes in module `AI` are proved to agree with these.
 */
module NpcRules {
  import opened Common

  /**
   * What the NPC reads but never writes: `bCanRespawn`, `RespawnTime`,
   * `DeferredDestructionTime`, `TeamByte`, `WeaponClass` and `HasAuthority()`.
   */
  datatype NpcConfig = NpcConfig(
    canRespawn: bool,
    respawnTime: real,
    deferredDestructionTime: real,
    teamByte: byte,
    weaponClass: Option<WeaponClass>,
    authority: bool)

  /** The header defaults: no respawn, destroyed 5 s after death, team 1. */
  function DefaultNpcConfig(weaponClass: Option<WeaponClass>, authority: bool): (r: NpcConfig)
    ensures !r.canRespawn && r.respawnTime == 0.0 && r.deferredDestructionTime == 5.0 && r.teamByte == 1
    ensures r.weaponClass == weaponClass && r.authority == authority
  {
    NpcConfig(false, 0.0, 5.0, 1, weaponClass, authority)
  }

  /** The HP an NPC starts with by its header default, and the HP `Respawn` restores. */
  const RespawnHP: real := 100.0

  /** What the NPC's timers call back: `Respawn` and `DeferredDestruction`. */
  datatype NpcRespawnCallback = RespawnNpc
  datatype DestructionCallback = DestroyNpc

  /** The NPC's own fields that damage, death and respawn change. */
  datatype NpcBody = NpcBody(
    hp: real,
    dead: bool,
    lastInstigator: Option<ControllerRef>,
    respawnTimer: Timer<NpcRespawnCallback>,
    deathTimer: Timer<DestructionCallback>,
    destroyed: bool)

  /** An NPC as constructed, with `CurrentHP` as edited (100 by default). */
  function SpawnedNpc(hp: real): (r: NpcBody)
    ensures r.hp == hp && !r.dead && !r.destroyed
    ensures r.respawnTimer == Cleared && r.deathTimer == Cleared
  {
    NpcBody(hp, false, None, Cleared, Cleared, false)
  }

  /** `Die` schedules a respawn rather than destruction. */
  predicate Respawns(cfg: NpcConfig)
  {
    cfg.canRespawn && cfg.respawnTime > 0.0
  }

  /** The guards of `TakeDamage`: authority and not dead. There is no invulnerability. */
  predicate NpcAccepts(b: NpcBody, cfg: NpcConfig)
  {
    cfg.authority && !b.dead
  }

  /**
   * The fields `Die` changes on the NPC itself: ignored when already dead;
   * otherwise the dead flag, and exactly one timer armed: the respawn timer
   * when the NPC respawns, the destruction timer otherwise.
   */
  function NpcDieStep(b: NpcBody, cfg: NpcConfig): (r: NpcBody)
    ensures b.dead ==> r == b
    ensures !b.dead ==> r.dead && r.hp == b.hp && r.lastInstigator == b.lastInstigator && r.destroyed == b.destroyed
    ensures !b.dead && Respawns(cfg) ==>
      r.respawnTimer == Arm(RespawnNpc, cfg.respawnTime) && r.deathTimer == b.deathTimer
    ensures !b.dead && !Respawns(cfg) ==>
      r.deathTimer == Arm(DestroyNpc, cfg.deferredDestructionTime) && r.respawnTimer == b.respawnTimer
  {
    if b.dead then b
    else
      var b1 := b.(dead := true);
      if Respawns(cfg) then b1.(respawnTimer := Arm(RespawnNpc, cfg.respawnTime))
      else b1.(deathTimer := Arm(DestroyNpc, cfg.deferredDestructionTime))
  }

  /** An accepted hit of `damage` leaves the NPC at zero HP or below: `Die` runs. */
  predicate NpcKills(b: NpcBody, cfg: NpcConfig, damage: real)
  {
    NpcAccepts(b, cfg) && b.hp - damage <= 0.0
  }

  /**
   * `TakeDamage` on the NPC: a rejected hit changes nothing; an accepted one
   * records a present instigator, subtracts the damage and runs `Die` when
   * HP reaches zero or below.
   */
  function NpcHitStep(b: NpcBody, cfg: NpcConfig, damage: real, instigator: Option<ControllerRef>): (r: NpcBody)
    ensures !NpcAccepts(b, cfg) ==> r == b
    ensures NpcAccepts(b, cfg) ==> r.hp == b.hp - damage
    ensures NpcAccepts(b, cfg) ==> r.lastInstigator == (if instigator.Some? then instigator else b.lastInstigator)
    ensures r.dead <==> b.dead || NpcKills(b, cfg, damage)
    ensures !NpcKills(b, cfg, damage) ==> r.respawnTimer == b.respawnTimer && r.deathTimer == b.deathTimer
    ensures r.destroyed == b.destroyed
  {
    if !NpcAccepts(b, cfg) then b
    else
      var b1 := b.(lastInstigator := if instigator.Some? then instigator else b.lastInstigator, hp := b.hp - damage);
      if b1.hp <= 0.0 then NpcDieStep(b1, cfg) else b1
  }

  /** What `TakeDamage` returns. */
  function NpcDealt(b: NpcBody, cfg: NpcConfig, damage: real): (r: real)
    ensures NpcAccepts(b, cfg) ==> r == damage
    ensures !NpcAccepts(b, cfg) ==> r == 0.0
  {
    if NpcAccepts(b, cfg) then damage else 0.0
  }

  /** `Respawn`, on the NPC's own fields: HP set to the literal 100, alive again. */
  function NpcRespawnStep(b: NpcBody): (r: NpcBody)
    ensures r.hp == RespawnHP && !r.dead
    ensures r.(hp := b.hp, dead := b.dead) == b
  {
    b.(hp := RespawnHP, dead := false)
  }

  /** The respawn timer runs out: its handle is spent and `Respawn` runs. */
  function NpcRespawnElapsedStep(b: NpcBody): (r: NpcBody)
    ensures b.respawnTimer.Cleared? ==> r == b
    ensures b.respawnTimer.Armed? ==> r == NpcRespawnStep(b.(respawnTimer := Cleared))
  {
    if b.respawnTimer.Cleared? then b else NpcRespawnStep(b.(respawnTimer := Cleared))
  }

  /** `DeferredDestruction`: `Destroy()`, whose `EndPlay` clears both timers. */
  function NpcDestroyStep(b: NpcBody): (r: NpcBody)
    ensures r.destroyed && r.deathTimer == Cleared && r.respawnTimer == Cleared
    ensures r.(destroyed := b.destroyed, deathTimer := b.deathTimer, respawnTimer := b.respawnTimer) == b
  {
    b.(destroyed := true, deathTimer := Cleared, respawnTimer := Cleared)
  }

  /** The destruction timer runs out: its handle is spent and `DeferredDestruction` runs. */
  function NpcDeathElapsedStep(b: NpcBody): (r: NpcBody)
    ensures b.deathTimer.Cleared? ==> r == b
    ensures b.deathTimer.Armed? ==> r.destroyed
  {
    if b.deathTimer.Cleared? then b else NpcDestroyStep(b.(deathTimer := Cleared))
  }

  /** `Die` is idempotent: a second call changes nothing. */
  lemma NpcDieIsIdempotent(b: NpcBody, cfg: NpcConfig)
    ensures NpcDieStep(NpcDieStep(b, cfg), cfg) == NpcDieStep(b, cfg)
  {
  }

  /**
   * A fatal hit on an NPC whose timers are idle leads to exactly one of two
   * futures: with respawn enabled, the respawn timer brings it back alive at
   * 100 HP and the destruction timer stays idle; otherwise the destruction
   * timer destroys it and the respawn timer stays idle. A
   * `DeferredDestructionTime` of zero or less arms no destruction timer: the
   * dead NPC then stays in the world.
   */
  lemma FatalHitRespawnsOrDestroys(b: NpcBody, cfg: NpcConfig, damage: real, instigator: Option<ControllerRef>)
    requires NpcKills(b, cfg, damage) && b.respawnTimer == Cleared && b.deathTimer == Cleared
    ensures var d := NpcHitStep(b, cfg, damage, instigator);
      && d.dead
      && (Respawns(cfg) ==>
            && d.deathTimer == Cleared && d.respawnTimer.Armed?
            && NpcRespawnElapsedStep(d).hp == RespawnHP && !NpcRespawnElapsedStep(d).dead
            && NpcAccepts(NpcRespawnElapsedStep(d), cfg))
      && (!Respawns(cfg) ==> d.respawnTimer == Cleared && (d.deathTimer.Armed? <==> cfg.deferredDestructionTime > 0.0))
      && (!Respawns(cfg) && cfg.deferredDestructionTime > 0.0 ==> NpcDeathElapsedStep(d).destroyed)
      && (!Respawns(cfg) && cfg.deferredDestructionTime <= 0.0 ==> NpcDeathElapsedStep(d) == d)
  {
  }

  /**
   * With the header defaults an NPC does not respawn: on the authority a
   * fatal hit arms only the 5 s destruction timer, which destroys it.
   */
  lemma DefaultNpcIsDestroyedAfterDeath(b: NpcBody, weaponClass: Option<WeaponClass>, damage: real, instigator: Option<ControllerRef>)
    requires NpcKills(b, DefaultNpcConfig(weaponClass, true), damage)
    requires b.respawnTimer == Cleared && b.deathTimer == Cleared
    ensures var d := NpcHitStep(b, DefaultNpcConfig(weaponClass, true), damage, instigator);
      && d.dead && d.respawnTimer == Cleared && d.deathTimer == Armed(DestroyNpc, 5.0)
      && NpcDeathElapsedStep(d).destroyed
  {
    FatalHitRespawnsOrDestroys(b, DefaultNpcConfig(weaponClass, true), damage, instigator);
  }

  // ---------------------------------------------------------------------
  // Damage over a sequence of hits.
  // ---------------------------------------------------------------------

  datatype NpcHit = NpcHit(damage: real, instigator: Option<ControllerRef>)

  function NpcHits(b: NpcBody, cfg: NpcConfig, hits: seq<NpcHit>): NpcBody
    decreases |hits|
  {
    if hits == [] then b
    else NpcHits(NpcHitStep(b, cfg, hits[0].damage, hits[0].instigator), cfg, hits[1..])
  }

  /** How many of the hits run `Die` on a living NPC. */
  function NpcDeaths(b: NpcBody, cfg: NpcConfig, hits: seq<NpcHit>): nat
    decreases |hits|
  {
    if hits == [] then 0
    else
      (if NpcKills(b, cfg, hits[0].damage) then 1 else 0)
      + NpcDeaths(NpcHitStep(b, cfg, hits[0].damage, hits[0].instigator), cfg, hits[1..])
  }

  lemma {:induction false} DeadNpcIgnoresHits(b: NpcBody, cfg: NpcConfig, hits: seq<NpcHit>)
    requires b.dead
    ensures NpcHits(b, cfg, hits) == b && NpcDeaths(b, cfg, hits) == 0
    decreases |hits|
  {
    if hits != [] {
      DeadNpcIgnoresHits(b, cfg, hits[1..]);
    }
  }

  /** Between respawns an NPC dies at most once, however many hits it takes. */
  lemma {:induction false} NpcDiesAtMostOnce(b: NpcBody, cfg: NpcConfig, hits: seq<NpcHit>)
    ensures NpcDeaths(b, cfg, hits) <= 1
    decreases |hits|
  {
    if hits != [] {
      var next := NpcHitStep(b, cfg, hits[0].damage, hits[0].instigator);
      if NpcKills(b, cfg, hits[0].damage) {
        DeadNpcIgnoresHits(next, cfg, hits[1..]);
      } else {
        NpcDiesAtMostOnce(next, cfg, hits[1..]);
      }
    }
  }

  // ---------------------------------------------------------------------
  // The NPC's single weapon.
  // ---------------------------------------------------------------------

  /**
   * `AddWeaponClass` spawns a weapon exactly when the class is not null and
   * the NPC holds no weapon or one of another class.
   */
  predicate SpawnsWeapon(held: Option<WeaponClass>, requested: Option<WeaponClass>)
  {
    requested.Some? && (held.None? || held.value != requested.value)
  }

  /** The class of the weapon held after `AddWeaponClass`. */
  function HeldAfterAdd(held: Option<WeaponClass>, requested: Option<WeaponClass>): (r: Option<WeaponClass>)
    ensures requested.Some? ==> r == requested
    ensures requested.None? ==> r == held
  {
    if SpawnsWeapon(held, requested) then requested else held
  }

  /** Asking for the held class again spawns nothing. */
  lemma AddWeaponClassIsIdempotent(held: Option<WeaponClass>, requested: Option<WeaponClass>)
    ensures !SpawnsWeapon(HeldAfterAdd(held, requested), requested)
    ensures HeldAfterAdd(HeldAfterAdd(held, requested), requested) == HeldAfterAdd(held, requested)
  {
  }

  // ---------------------------------------------------------------------
  // The AI controller.
  // ---------------------------------------------------------------------

  /** Ordered side effects of the controller on its path following, StateTree and pawn. */
  datatype ControllerAction =
    | MoveAborted
    | LogicStopped(reason: string)
    | LogicStarted
    | PawnPossessed
    | PawnUnpossessed

  /** What the perception hooks forward to the StateTree. */
  datatype Stimulus = Stimulus(id: nat)
  datatype PerceptionEvent =
    | PerceptionUpdated(actor: ActorRef, stimulus: Stimulus)
    | PerceptionForgotten(actor: ActorRef)

  predicate NoDuplicates<T(==)>(s: seq<T>)
  {
    forall i, j :: 0 <= i < j < |s| ==> s[i] != s[j]
  }

  /**
   * `AddDynamic` guarded by `IsAlreadyBound`: a listener is appended only
   * if it is not bound yet.
   */
  function BindOnce<T(==)>(listeners: seq<T>, l: T): (r: seq<T>)
    ensures l in r && forall x :: x in listeners ==> x in r
    ensures |listeners| <= |r| <= |listeners| + 1 && r[..|listeners|] == listeners
    ensures NoDuplicates(listeners) ==> NoDuplicates(r)
  {
    if l in listeners then listeners else listeners + [l]
  }

  /** `k` possessions of the same pawn by the same controller. */
  function BindRepeatedly<T(==)>(listeners: seq<T>, l: T, k: nat): seq<T>
    decreases k
  {
    if k == 0 then listeners else BindRepeatedly(BindOnce(listeners, l), l, k - 1)
  }

  /**
   * However many times a controller possesses the same NPC, its death
   * handler ends up bound exactly once, and no other binding is touched.
   */
  lemma {:induction false} DeathHandlerBoundOnce<T>(listeners: seq<T>, l: T, k: nat)
    requires k >= 1 && l !in listeners
    ensures Occurrences(BindRepeatedly(listeners, l, k), l) == 1
    ensures BindRepeatedly(listeners, l, k) == listeners + [l]
  {
    OccurrencesPositive(listeners, l);
    OccurrencesConcat(listeners, [l], l);
    BindingIsStable(listeners + [l], l, k - 1);
  }

  lemma {:induction false} BindingIsStable<T>(listeners: seq<T>, l: T, k: nat)
    requires l in listeners
    ensures BindRepeatedly(listeners, l, k) == listeners
    decreases k
  {
    if k > 0 {
      BindingIsStable(listeners, l, k - 1);
    }
  }
}
