/**
 * Types shared by the combat rules of the shooter variant: the engine's
 * unsigned byte (team ids), optional references, timer handles and the
 * opaque identities of actors, controllers and weapon classes.
 */
module Common {

  /** An unreal `uint8`, used for team ids. */
  newtype byte = x: int | 0 <= x < 256

  /** The largest value of an `int32`. */
  const Int32Max: int := 0x7FFF_FFFF

  /** `WinningTeam` holds 255 while no team has won. */
  const NoTeam: byte := 255

  datatype Option<T> = None | Some(value: T)

  /**
   * A timer handle owned by an actor. `Armed(c, d)` means that callback `c`
   * is scheduled to run `d` seconds after the timer was set; setting a timer
   * again replaces what was pending, clearing it drops the callback. The
   * timer manager itself (the clock) is not modelled: a callback runs when
   * the owning class's "...Elapsed" method is called. Every timer is set
   * through `Arm`.
   */
  datatype Timer<C> = Cleared | Armed(callback: C, delay: real)

  /**
   * `SetTimer(Handle, Callback, Rate, false)`: a positive rate arms the
   * handle, replacing whatever was pending; a rate of zero or less clears
   * the handle and schedules nothing, so the callback never runs.
   */
  function Arm<C>(callback: C, rate: real): (r: Timer<C>)
    ensures r.Armed? <==> rate > 0.0
    ensures r.Armed? ==> r.callback == callback && r.delay == rate
  {
    if rate > 0.0 then Armed(callback, rate) else Cleared
  }

  /**
   * `TArray::Find` and the first-match loops over a list: the index of the
   * first element equal to `x`, or -1 when there is none.
   */
  function FirstIndex<T(==)>(s: seq<T>, x: T): (r: int)
    ensures -1 <= r < |s|
    ensures r == -1 <==> x !in s
    ensures r >= 0 ==> s[r] == x && forall j :: 0 <= j < r ==> s[j] != x
    decreases |s|
  {
    if s == [] then -1
    else if s[0] == x then 0
    else
      var k := FirstIndex(s[1..], x);
      assert forall y :: y in s[1..] ==> y in s;
      if k == -1 then -1 else k + 1
  }

  /** An index holding `x` with no `x` before it is the one `FirstIndex` finds. */
  lemma FirstIndexAt<T>(s: seq<T>, x: T, i: int)
    requires 0 <= i < |s| && s[i] == x && forall j :: 0 <= j < i ==> s[j] != x
    ensures FirstIndex(s, x) == i
  {
    var k := FirstIndex(s, x);
    assert k != -1 by { assert x in s; }
  }

  /** Identity of an actor in the world (an aim target, a perceived actor). */
  datatype ActorRef = ActorRef(id: nat)

  /**
   * Identity of a controller that caused damage. Only the distinction the
   * rules look at is kept: whether a cast to `APlayerController` succeeds.
   */
  datatype ControllerRef = PlayerController(id: nat) | OtherController(id: nat)

  /** A weapon class (`TSubclassOf<AShooterWeapon>`). */
  datatype WeaponClass = WeaponClass(id: nat)

  predicate IsPlayerController(c: Option<ControllerRef>)
  {
    c.Some? && c.value.PlayerController?
  }

  /** How many times `x` occurs in `s`. */
  function Occurrences<T(==)>(s: seq<T>, x: T): nat
  {
    if s == [] then 0 else (if s[0] == x then 1 else 0) + Occurrences(s[1..], x)
  }

  /** Counting distributes over concatenation. */
  lemma {:induction false} OccurrencesConcat<T>(a: seq<T>, b: seq<T>, x: T)
    ensures Occurrences(a + b, x) == Occurrences(a, x) + Occurrences(b, x)
    decreases |a|
  {
    if a != [] {
      assert (a + b)[0] == a[0] && (a + b)[1..] == a[1..] + b;
      OccurrencesConcat(a[1..], b, x);
    } else {
      assert a + b == b;
    }
  }

  /** `x` is counted at least once exactly when it occurs. */
  lemma {:induction false} OccurrencesPositive<T>(s: seq<T>, x: T)
    ensures Occurrences(s, x) > 0 <==> x in s
    decreases |s|
  {
    if s != [] {
      OccurrencesPositive(s[1..], x);
      assert forall y :: y in s <==> y == s[0] || y in s[1..];
    }
  }
}
