/**
 * The rules of `AShooterCharacter` that do not touch other objects, as pure
 * functions: spawn protection, damage and death, the destroy-to-respawn
 * path, the statistics a death reports, and the weapon inventory's
 * find-or-add and cyclic switch. The class `Character.ShooterCharacter`
 * updates its fields in place and is proved to agree with these.
 */
module CharacterRules {
  import opened Common
  import opened ScoreRules

  /**
   * What the character reads but never writes: `MaxHP`,
   * `InvulnerabilityDuration`, `RespawnTime`, `TeamByte`, `HasAuthority()`
   * and the controller `GetController()` returns.
   */
  datatype CharacterSettings = CharacterSettings(
    maxHP: real,
    invulnerabilityDuration: real,
    respawnTime: real,
    teamByte: byte,
    authority: bool,
    controller: Option<ControllerRef>)

  /** `MaxHP` is a designer-set positive value; the HUD divides by it. */
  type CharacterConfig = c: CharacterSettings | c.maxHP > 0.0
    witness CharacterSettings(500.0, 3.0, 5.0, 0, true, None)

  /** The header defaults: 500 HP, 3 s of spawn protection, respawn after 5 s, team 0. */
  function DefaultConfig(authority: bool, controller: Option<ControllerRef>): (r: CharacterConfig)
    ensures r.maxHP == 500.0 && r.invulnerabilityDuration == 3.0 && r.respawnTime == 5.0 && r.teamByte == 0
    ensures r.authority == authority && r.controller == controller
  {
    CharacterSettings(500.0, 3.0, 5.0, 0, authority, controller)
  }

  /** What the invulnerability timer calls back: `OnInvulnerabilityExpired`. */
  datatype InvulnerabilityCallback = ExpireInvulnerability

  /** What the respawn timer calls back: `OnRespawn`. */
  datatype RespawnCallback = RespawnBody

  /**
   * Notifications the character raises for its HUD and Blueprint:
   * `OnDamaged(fraction)`, `OnBulletCountUpdated(magazine, bullets)` and
   * `BP_OnDeath`.
   */
  datatype HudEvent =
    | HealthShown(fraction: real)
    | BulletCountShown(magazineSize: int, bullets: int)
    | DeathShown

  /** The character's own fields, apart from its weapons. */
  datatype Body = Body(
    hp: real,
    invulnerable: bool,
    lastInstigator: Option<ControllerRef>,
    invulnerabilityTimer: Timer<InvulnerabilityCallback>,
    respawnTimer: Timer<RespawnCallback>,
    inputEnabled: bool,
    destroyed: bool,
    hud: seq<HudEvent>)

  /** A character as constructed: `CurrentHP = 0` until `BeginPlay`. */
  const Unspawned: Body := Body(0.0, false, None, Cleared, Cleared, true, false, [])

  /** The fraction `OnDamaged` reports: `Max(0, CurrentHP / MaxHP)`. */
  function HealthFraction(hp: real, maxHP: real): real
    requires maxHP > 0.0
  {
    if hp / maxHP > 0.0 then hp / maxHP else 0.0
  }

  /**
   * The reported fraction is never negative, is zero exactly for a depleted
   * body, is `HP / MaxHP` for a living one, and is at most 1 while HP is at
   * most `MaxHP`.
   */
  lemma HealthFractionBounds(hp: real, maxHP: real)
    requires maxHP > 0.0
    ensures HealthFraction(hp, maxHP) >= 0.0
    ensures HealthFraction(hp, maxHP) == 0.0 <==> hp <= 0.0
    ensures hp >= 0.0 ==> HealthFraction(hp, maxHP) * maxHP == hp
    ensures hp <= maxHP ==> HealthFraction(hp, maxHP) <= 1.0
  {
  }

  /**
   * `BeginPlay`: full health, spawn protection on the authority with its
   * timer armed, and the HUD told the body is at full health.
   */
  function BeginPlayStep(b: Body, cfg: CharacterConfig): (r: Body)
    ensures r.hp == cfg.maxHP
    ensures cfg.authority ==> r.invulnerable && r.invulnerabilityTimer == Arm(ExpireInvulnerability, cfg.invulnerabilityDuration)
    ensures !cfg.authority ==> r.invulnerable == b.invulnerable && r.invulnerabilityTimer == b.invulnerabilityTimer
    ensures r.hud == b.hud + [HealthShown(1.0)]
    ensures r.(hp := b.hp, invulnerable := b.invulnerable, invulnerabilityTimer := b.invulnerabilityTimer, hud := b.hud) == b
  {
    var b1 := b.(hp := cfg.maxHP);
    var b2 := if cfg.authority then b1.(invulnerable := true, invulnerabilityTimer := Arm(ExpireInvulnerability, cfg.invulnerabilityDuration)) else b1;
    b2.(hud := b2.hud + [HealthShown(1.0)])
  }

  /** `OnInvulnerabilityExpired`: clears the flag, on the authority only. */
  function InvulnerabilityExpiredStep(b: Body, cfg: CharacterConfig): (r: Body)
    ensures cfg.authority ==> !r.invulnerable && r.(invulnerable := b.invulnerable) == b
    ensures !cfg.authority ==> r == b
  {
    if cfg.authority then b.(invulnerable := false) else b
  }

  /** The invulnerability timer runs out: the handle is spent and the callback runs. */
  function InvulnerabilityElapsedStep(b: Body, cfg: CharacterConfig): (r: Body)
    ensures b.invulnerabilityTimer.Cleared? ==> r == b
    ensures b.invulnerabilityTimer.Armed? ==> r == InvulnerabilityExpiredStep(b.(invulnerabilityTimer := Cleared), cfg)
  {
    if b.invulnerabilityTimer.Cleared? then b
    else InvulnerabilityExpiredStep(b.(invulnerabilityTimer := Cleared), cfg)
  }

  /** The guards of `TakeDamage`: authority, still alive, not invulnerable. */
  predicate Accepts(b: Body, cfg: CharacterConfig)
  {
    cfg.authority && b.hp > 0.0 && !b.invulnerable
  }

  /** An accepted hit of `damage` depletes the body: `Die` is called. */
  predicate Kills(b: Body, cfg: CharacterConfig, damage: real)
  {
    Accepts(b, cfg) && b.hp - damage <= 0.0
  }

  /** What `TakeDamage` returns: the damage if the hit is accepted, 0 otherwise. */
  function Dealt(b: Body, cfg: CharacterConfig, damage: real): (r: real)
    ensures Accepts(b, cfg) ==> r == damage
    ensures !Accepts(b, cfg) ==> r == 0.0
  {
    if Accepts(b, cfg) then damage else 0.0
  }

  /**
   * The fields `Die` changes on the body itself: input disabled, the bullet
   * counter reset, `BP_OnDeath`, and the respawn timer armed.
   */
  function DieStep(b: Body, cfg: CharacterConfig): (r: Body)
    ensures r.respawnTimer == Arm(RespawnBody, cfg.respawnTime) && !r.inputEnabled
    ensures r.hud == b.hud + [BulletCountShown(0, 0), DeathShown]
    ensures r.(respawnTimer := b.respawnTimer, inputEnabled := b.inputEnabled, hud := b.hud) == b
  {
    b.(inputEnabled := false, hud := b.hud + [BulletCountShown(0, 0), DeathShown],
       respawnTimer := Arm(RespawnBody, cfg.respawnTime))
  }

  /**
   * `TakeDamage` on the body: a rejected hit changes nothing; an accepted one
   * records a present instigator, subtracts the damage without clamping,
   * runs `Die` when HP reaches zero or below, and reports the health
   * fraction to the HUD.
   */
  function HitStep(b: Body, cfg: CharacterConfig, damage: real, instigator: Option<ControllerRef>): (r: Body)
    ensures !Accepts(b, cfg) ==> r == b
    ensures Accepts(b, cfg) ==> r.hp == b.hp - damage
    ensures Accepts(b, cfg) ==> r.lastInstigator == (if instigator.Some? then instigator else b.lastInstigator)
    ensures r.invulnerable == b.invulnerable && r.destroyed == b.destroyed
    ensures Kills(b, cfg, damage) ==> r.respawnTimer == Arm(RespawnBody, cfg.respawnTime) && !r.inputEnabled
    ensures !Kills(b, cfg, damage) ==> r.respawnTimer == b.respawnTimer && r.inputEnabled == b.inputEnabled
    ensures Accepts(b, cfg) ==> |r.hud| > 0 && r.hud[|r.hud| - 1] == HealthShown(HealthFraction(b.hp - damage, cfg.maxHP))
  {
    if !Accepts(b, cfg) then b
    else SettleStep(WoundStep(b, damage, instigator), cfg)
  }

  /** The start of an accepted hit: a present instigator is recorded and the damage subtracted. */
  function WoundStep(b: Body, damage: real, instigator: Option<ControllerRef>): (r: Body)
    ensures r.hp == b.hp - damage
    ensures r.lastInstigator == (if instigator.Some? then instigator else b.lastInstigator)
    ensures r.(hp := b.hp, lastInstigator := b.lastInstigator) == b
  {
    b.(lastInstigator := if instigator.Some? then instigator else b.lastInstigator, hp := b.hp - damage)
  }

  /**
   * The rest of an accepted hit, on the wounded body: `Die` when HP is zero
   * or below, then the clamped health fraction to the HUD.
   */
  function SettleStep(b: Body, cfg: CharacterConfig): (r: Body)
    ensures b.hp <= 0.0 ==> r.respawnTimer == Arm(RespawnBody, cfg.respawnTime) && !r.inputEnabled
    ensures b.hp > 0.0 ==> r.respawnTimer == b.respawnTimer && r.inputEnabled == b.inputEnabled
    ensures r.hp == b.hp && r.lastInstigator == b.lastInstigator && r.destroyed == b.destroyed
    ensures r.invulnerable == b.invulnerable && r.invulnerabilityTimer == b.invulnerabilityTimer
    ensures r.hud == b.hud + (if b.hp <= 0.0 then [BulletCountShown(0, 0), DeathShown] else []) + [HealthShown(HealthFraction(b.hp, cfg.maxHP))]
  {
    var b2 := if b.hp <= 0.0 then DieStep(b, cfg) else b;
    b2.(hud := b2.hud + [HealthShown(HealthFraction(b2.hp, cfg.maxHP))])
  }

  /**
   * `OnRespawn`: the body destroys itself so that its player controller
   * spawns a new one; `EndPlay` then clears both timers.
   */
  function RespawnStep(b: Body): (r: Body)
    ensures r.destroyed && r.respawnTimer == Cleared && r.invulnerabilityTimer == Cleared
    ensures r.(destroyed := b.destroyed, respawnTimer := b.respawnTimer, invulnerabilityTimer := b.invulnerabilityTimer) == b
  {
    b.(destroyed := true, respawnTimer := Cleared, invulnerabilityTimer := Cleared)
  }

  /** The respawn timer runs out: the handle is spent and `OnRespawn` runs. */
  function RespawnElapsedStep(b: Body): (r: Body)
    ensures b.respawnTimer.Cleared? ==> r == b
    ensures b.respawnTimer.Armed? ==> r.destroyed
  {
    if b.respawnTimer.Cleared? then b else RespawnStep(b.(respawnTimer := Cleared))
  }

  /**
   * The statistics `Die` reports: the victim's death when its controller is
   * a player controller, then the kill when the last instigator is one.
   */
  function DeathStats(victim: Option<ControllerRef>, instigator: Option<ControllerRef>): (r: seq<StatCall>)
    ensures forall v :: DeathRecorded(v) in r <==> IsPlayerController(victim) && v == victim.value
    ensures forall k :: KillRecorded(k) in r <==> IsPlayerController(instigator) && k == instigator.value
    ensures |r| <= 2 && (|r| == 2 ==> r[0].DeathRecorded? && r[1].KillRecorded?)
  {
    (if IsPlayerController(victim) then [DeathRecorded(victim.value)] else [])
    + (if IsPlayerController(instigator) then [KillRecorded(instigator.value)] else [])
  }

  // ---------------------------------------------------------------------
  // Damage over a sequence of hits.
  // ---------------------------------------------------------------------

  /** One call of `TakeDamage`. */
  datatype Hit = Hit(damage: real, instigator: Option<ControllerRef>)

  /** The body after a sequence of hits, in order. */
  function Hits(b: Body, cfg: CharacterConfig, hits: seq<Hit>): Body
    decreases |hits|
  {
    if hits == [] then b
    else Hits(HitStep(b, cfg, hits[0].damage, hits[0].instigator), cfg, hits[1..])
  }

  /** How many of the hits call `Die`. */
  function Deaths(b: Body, cfg: CharacterConfig, hits: seq<Hit>): nat
    decreases |hits|
  {
    if hits == [] then 0
    else
      (if Kills(b, cfg, hits[0].damage) then 1 else 0)
      + Deaths(HitStep(b, cfg, hits[0].damage, hits[0].instigator), cfg, hits[1..])
  }

  /** A depleted body ignores every later hit: none of them changes it or calls `Die`. */
  lemma {:induction false} DepletedBodyIgnoresHits(b: Body, cfg: CharacterConfig, hits: seq<Hit>)
    requires b.hp <= 0.0
    ensures Hits(b, cfg, hits) == b && Deaths(b, cfg, hits) == 0
    decreases |hits|
  {
    if hits != [] {
      DepletedBodyIgnoresHits(b, cfg, hits[1..]);
    }
  }

  /** However many hits a body takes, `Die` runs at most once. */
  lemma {:induction false} DieRunsAtMostOnce(b: Body, cfg: CharacterConfig, hits: seq<Hit>)
    ensures Deaths(b, cfg, hits) <= 1
    decreases |hits|
  {
    if hits != [] {
      var h := hits[0];
      var next := HitStep(b, cfg, h.damage, h.instigator);
      if Kills(b, cfg, h.damage) {
        DepletedBodyIgnoresHits(next, cfg, hits[1..]);
      } else {
        DieRunsAtMostOnce(next, cfg, hits[1..]);
      }
    }
  }

  /**
   * Spawn protection: on the authority a freshly spawned body ignores every
   * hit until its invulnerability timer runs out, and accepts hits after.
   * An `InvulnerabilityDuration` of zero arms no timer, so the protection
   * never ends.
   */
  lemma SpawnProtection(b: Body, cfg: CharacterConfig, hits: seq<Hit>)
    requires cfg.authority
    ensures Hits(BeginPlayStep(b, cfg), cfg, hits) == BeginPlayStep(b, cfg)
    ensures Accepts(InvulnerabilityElapsedStep(BeginPlayStep(b, cfg), cfg), cfg) <==> cfg.invulnerabilityDuration > 0.0
  {
    ProtectedBodyIgnoresHits(BeginPlayStep(b, cfg), cfg, hits);
  }

  /**
   * With the header defaults, on the authority: spawn protection is armed
   * for 3 s, ignores every hit meanwhile and ends when its timer runs out;
   * a fatal hit arms the 5 s respawn timer, which destroys the body.
   */
  lemma DefaultCharacterTimers(b: Body, controller: Option<ControllerRef>, hits: seq<Hit>, damage: real, instigator: Option<ControllerRef>)
    ensures var cfg := DefaultConfig(true, controller);
      && BeginPlayStep(b, cfg).invulnerabilityTimer == Armed(ExpireInvulnerability, 3.0)
      && Hits(BeginPlayStep(b, cfg), cfg, hits) == BeginPlayStep(b, cfg)
      && Accepts(InvulnerabilityElapsedStep(BeginPlayStep(b, cfg), cfg), cfg)
    ensures var cfg := DefaultConfig(true, controller);
      Kills(b, cfg, damage) ==>
        && HitStep(b, cfg, damage, instigator).respawnTimer == Armed(RespawnBody, 5.0)
        && RespawnElapsedStep(HitStep(b, cfg, damage, instigator)).destroyed
  {
    var cfg := DefaultConfig(true, controller);
    SpawnProtection(b, cfg, hits);
    if Kills(b, cfg, damage) {
      KilledBodyIsDestroyedOnRespawn(b, cfg, damage, instigator);
    }
  }

  lemma {:induction false} ProtectedBodyIgnoresHits(b: Body, cfg: CharacterConfig, hits: seq<Hit>)
    requires b.invulnerable
    ensures Hits(b, cfg, hits) == b
    decreases |hits|
  {
    if hits != [] {
      ProtectedBodyIgnoresHits(b, cfg, hits[1..]);
    }
  }

  /** On a client no hit changes the body. */
  lemma {:induction false} ClientIgnoresHits(b: Body, cfg: CharacterConfig, hits: seq<Hit>)
    requires !cfg.authority
    ensures Hits(b, cfg, hits) == b && Deaths(b, cfg, hits) == 0
    decreases |hits|
  {
    if hits != [] {
      ClientIgnoresHits(b, cfg, hits[1..]);
    }
  }

  /**
   * The destroy-to-respawn path: when the respawn timer armed by a fatal hit
   * runs out, the body is destroyed. A `RespawnTime` of zero arms no timer,
   * so the dead body is never destroyed and never respawns.
   */
  lemma KilledBodyIsDestroyedOnRespawn(b: Body, cfg: CharacterConfig, damage: real, instigator: Option<ControllerRef>)
    requires Kills(b, cfg, damage)
    ensures HitStep(b, cfg, damage, instigator).respawnTimer.Armed? <==> cfg.respawnTime > 0.0
    ensures cfg.respawnTime > 0.0 ==> RespawnElapsedStep(HitStep(b, cfg, damage, instigator)).destroyed
    ensures cfg.respawnTime <= 0.0 ==> RespawnElapsedStep(HitStep(b, cfg, damage, instigator)) == HitStep(b, cfg, damage, instigator)
  {
  }

  // ---------------------------------------------------------------------
  // Weapon inventory.
  // ---------------------------------------------------------------------

  /** The classes of `OwnedWeapons` in order, and the index of `CurrentWeapon` (-1 for none). */
  datatype Inventory = Inventory(classes: seq<WeaponClass>, current: int)

  const EmptyInventory: Inventory := Inventory([], -1)

  predicate UniqueClasses(cs: seq<WeaponClass>)
  {
    forall i, j :: 0 <= i < j < |cs| ==> cs[i] != cs[j]
  }

  /** A current weapon exactly when one is owned, and then an index into the list. */
  predicate Indexed(inv: Inventory)
  {
    && -1 <= inv.current < |inv.classes|
    && (inv.current == -1 <==> inv.classes == [])
  }

  /** At most one weapon per class, and a current weapon exactly when one is owned. */
  predicate InventoryInvariant(inv: Inventory)
  {
    UniqueClasses(inv.classes) && Indexed(inv)
  }

  /**
   * `AddWeaponClass`: a null class or one already owned changes nothing;
   * otherwise the new weapon is appended and becomes current.
   */
  function AddStep(inv: Inventory, c: Option<WeaponClass>): (r: Inventory)
    ensures c.None? || c.value in inv.classes ==> r == inv
    ensures c.Some? && c.value !in inv.classes ==>
      r.classes == inv.classes + [c.value] && r.current == |inv.classes|
    ensures InventoryInvariant(inv) ==> InventoryInvariant(r)
    ensures InventoryInvariant(inv) && c.Some? ==> r.current >= 0 && FirstIndex(r.classes, c.value) >= 0
  {
    if c.None? || FirstIndex(inv.classes, c.value) != -1 then inv
    else Inventory(inv.classes + [c.value], |inv.classes|)
  }

  /**
   * The index `DoSwitchWeapon` selects when `found` is the current weapon's
   * index in a list of `n` weapons: the next one, wrapping from the last to 0.
   */
  function SwitchIndex(found: int, n: int): (r: int)
    requires n > 1 && 0 <= found < n
    ensures 0 <= r < n && r != found
    ensures found < n - 1 ==> r == found + 1
    ensures found == n - 1 ==> r == 0
  {
    if found == n - 1 then 0 else found + 1
  }

  /** `DoSwitchWeapon`: with at least two weapons, the next one becomes current. */
  function SwitchStep(inv: Inventory): (r: Inventory)
    requires Indexed(inv)
    ensures r.classes == inv.classes && Indexed(r)
    ensures InventoryInvariant(inv) ==> InventoryInvariant(r)
    ensures |inv.classes| <= 1 ==> r == inv
    ensures |inv.classes| > 1 ==> r.current == SwitchIndex(inv.current, |inv.classes|)
  {
    if |inv.classes| > 1 then inv.(current := SwitchIndex(inv.current, |inv.classes|)) else inv
  }

  /** The switch moves the current index one place on, modulo the number of weapons. */
  lemma SwitchStepIsSuccessorModulo(inv: Inventory)
    requires Indexed(inv) && |inv.classes| > 1
    ensures SwitchStep(inv).current == (inv.current + 1) % |inv.classes|
  {
    var n := |inv.classes|;
    if inv.current == n - 1 {
      assert (inv.current + 1) % n == n % n == 0;
    } else {
      assert (inv.current + 1) % n == inv.current + 1;
    }
  }

  /** `k` presses of the switch-weapon input. */
  function Switches(inv: Inventory, k: nat): (r: Inventory)
    requires Indexed(inv)
    ensures Indexed(r) && r.classes == inv.classes
    decreases k
  {
    if k == 0 then inv else Switches(SwitchStep(inv), k - 1)
  }

  lemma {:induction false} SwitchesCompose(inv: Inventory, a: nat, b: nat)
    requires Indexed(inv)
    ensures Switches(inv, a + b) == Switches(Switches(inv, a), b)
    decreases a
  {
    if a > 0 {
      SwitchesCompose(SwitchStep(inv), a - 1, b);
    }
  }

  /** Before the end of the list is reached, `k` presses move `k` places on. */
  lemma {:induction false} SwitchesAdvance(inv: Inventory, k: nat)
    requires Indexed(inv) && |inv.classes| > 1 && inv.current + k < |inv.classes|
    ensures Switches(inv, k).current == inv.current + k
    decreases k
  {
    if k > 0 {
      SwitchesAdvance(SwitchStep(inv), k - 1);
    }
  }

  /** One press from the last weapon lands on the first. */
  lemma SwitchFromLast(inv: Inventory)
    requires Indexed(inv) && |inv.classes| > 1 && inv.current == |inv.classes| - 1
    ensures Switches(inv, 1).current == 0
  {
    assert Switches(inv, 1) == Switches(SwitchStep(inv), 0);
  }

  /** From any weapon, pressing until past the last one lands on the first. */
  lemma SwitchesWrapToFirst(inv: Inventory)
    requires Indexed(inv) && |inv.classes| > 1
    ensures Switches(inv, |inv.classes| - inv.current).current == 0
  {
    var toLast := |inv.classes| - 1 - inv.current;
    SwitchesAdvance(inv, toLast);
    SwitchFromLast(Switches(inv, toLast));
    SwitchesCompose(inv, toLast, 1);
  }

  /**
   * Switching is a cycle: pressing the switch once per owned weapon visits
   * the rest in list order, wraps from the last to the first, and comes back
   * to the weapon it started from.
   */
  lemma SwitchingComesFullCircle(inv: Inventory)
    requires Indexed(inv) && |inv.classes| > 1
    ensures Switches(inv, |inv.classes|) == inv
  {
    var c := inv.current;
    var toFirst := |inv.classes| - c;
    SwitchesWrapToFirst(inv);
    var atFirst := Switches(inv, toFirst);
    SwitchesAdvance(atFirst, c);
    SwitchesCompose(inv, toFirst, c);
  }

  /** Adding the same class twice leaves the inventory as adding it once. */
  lemma AddIsIdempotent(inv: Inventory, c: Option<WeaponClass>)
    ensures AddStep(AddStep(inv, c), c) == AddStep(inv, c)
  {
  }
}
