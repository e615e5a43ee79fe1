/**
 * PowerupController (Assets/Scripts/PowerupController.cs): the variant chosen on spawn,
 * the fall and triple timers, and the pickup priority. Whether the player is inside
 * the outer radius and which pickup colliders contain the player are inputs; the
 * awards are returned in the order the player's Get* handlers would be called.
 */
module Powerups {
  import opened Common

  /** The Get* calls a tick can make on the player. */
  datatype Award = Extend | Shield | Power | Bomb

  /** The shared static flag PowerupController.SpawnExtend. */
  class SpawnFlags {
    var spawnExtend: bool

    constructor (spawnExtend: bool)
      ensures this.spawnExtend == spawnExtend
    {
      this.spawnExtend := spawnExtend;
    }
  }

  datatype PowerupState = PowerupState(spawnedExtend: bool, fallTimer: real, tripleTimer: real, lane: real, active: bool)

  datatype Spawned = Spawned(spawnExtend: bool, state: PowerupState)

  /** Spawn: the extend variant exactly when the flag is set and the player is shielded, which clears the flag. */
  function SpawnSpec(spawnExtend: bool, playerShielded: bool, lane: real, fallDuration: real, tripleDuration: real): (r: Spawned)
    ensures r.state.spawnedExtend <==> spawnExtend && playerShielded
    ensures r.spawnExtend <==> spawnExtend && !playerShielded
    ensures r.state.fallTimer == fallDuration && r.state.tripleTimer == tripleDuration && r.state.active
  {
    var extend := spawnExtend && playerShielded;
    Spawned(if extend then false else spawnExtend, PowerupState(extend, fallDuration, tripleDuration, lane, true))
  }

  /** The flag lets at most one extend powerup out: the next spawn is the shield variant. */
  lemma ExtendSpawnsOnce(spawnExtend: bool, shielded1: bool, shielded2: bool, lane1: real, lane2: real, fall: real, triple: real)
    ensures var first := SpawnSpec(spawnExtend, shielded1, lane1, fall, triple);
      first.state.spawnedExtend ==> !SpawnSpec(first.spawnExtend, shielded2, lane2, fall, triple).state.spawnedExtend
  {
  }

  /** The award of the shield-or-extend collider. */
  function ShieldOrExtend(spawnedExtend: bool): Award
  {
    if spawnedExtend then Extend else Shield
  }

  datatype Ticked = Ticked(alive: bool, awards: seq<Award>, state: PowerupState)

  /**
   * Tick over `deltaTime` seconds: the fall timer first, then the triple timer while the
   * player is inside the outer radius, then at most one single pickup in priority order.
   */
  function TickSpec(st: PowerupState, deltaTime: real, tripleDuration: real,
                    inside: bool, onShieldExtend: bool, onPower: bool, onBomb: bool): (r: Ticked)
    ensures r.state.fallTimer == st.fallTimer - deltaTime
    ensures r.state.fallTimer <= 0.0 ==> !r.alive && r.awards == []
    ensures !r.alive ==> !r.state.active
    ensures r.alive <==> r.awards == [] && r.state.fallTimer > 0.0
    ensures r.alive ==> r.state.active == st.active
    ensures r.state.spawnedExtend == st.spawnedExtend && r.state.lane == st.lane
  {
    var fall := st.fallTimer - deltaTime;
    var st1 := st.(fallTimer := fall);
    if fall <= 0.0 then Ticked(false, [], st1.(active := false))
    else
      var triple := if inside then st1.tripleTimer - deltaTime else tripleDuration;
      var st2 := st1.(tripleTimer := triple);
      if inside && triple <= 0.0 then
        Ticked(false, [ShieldOrExtend(st.spawnedExtend), Power, Bomb], st2.(active := false))
      else
        var single :=
          if onShieldExtend then [ShieldOrExtend(st.spawnedExtend)]
          else if onPower then [Power]
          else if onBomb then [Bomb]
          else [];
        if single != [] then Ticked(false, single, st2.(active := false))
        else Ticked(true, [], st2)
  }

  /**
   * The awards of one tick are nothing, exactly one pickup (the first in the order
   * shield/extend, power, bomb that the player touches), or all three in that order.
   */
  lemma TickAwards(st: PowerupState, deltaTime: real, tripleDuration: real,
                   inside: bool, onShieldExtend: bool, onPower: bool, onBomb: bool)
    requires st.fallTimer - deltaTime > 0.0
    ensures var r := TickSpec(st, deltaTime, tripleDuration, inside, onShieldExtend, onPower, onBomb);
      var triple := inside && st.tripleTimer - deltaTime <= 0.0;
      (triple ==> r.awards == [ShieldOrExtend(st.spawnedExtend), Power, Bomb]) &&
      (!triple && onShieldExtend ==> r.awards == [ShieldOrExtend(st.spawnedExtend)]) &&
      (!triple && !onShieldExtend && onPower ==> r.awards == [Power]) &&
      (!triple && !onShieldExtend && !onPower && onBomb ==> r.awards == [Bomb]) &&
      (!triple && !onShieldExtend && !onPower && !onBomb ==> r.awards == [])
  {
  }

  /** Leaving the outer radius refills the triple timer; staying inside drains it by the elapsed time. */
  lemma TripleTimerRule(st: PowerupState, deltaTime: real, tripleDuration: real,
                        inside: bool, onShieldExtend: bool, onPower: bool, onBomb: bool)
    requires st.fallTimer - deltaTime > 0.0
    ensures var r := TickSpec(st, deltaTime, tripleDuration, inside, onShieldExtend, onPower, onBomb);
      r.state.tripleTimer == if inside then st.tripleTimer - deltaTime else tripleDuration
  {
  }

  /** `n` ticks of `deltaTime` with the player inside the radius and touching nothing. */
  function Hover(st: PowerupState, n: nat, deltaTime: real, tripleDuration: real): Ticked
    decreases n
  {
    var r := TickSpec(st, deltaTime, tripleDuration, true, false, false, false);
    if n <= 1 || !r.alive then r else Hover(r.state, n - 1, deltaTime, tripleDuration)
  }

  /**
   * Hovering without touching a pickup, the powerup survives each tick while both
   * timers stay positive, with the triple timer drained by the ticks so far.
   */
  lemma {:induction false} HoverDrainsTripleTimer(st: PowerupState, n: nat, deltaTime: real, tripleDuration: real)
    requires n >= 1 && deltaTime >= 0.0
    requires st.fallTimer - n as real * deltaTime > 0.0 && st.tripleTimer - n as real * deltaTime > 0.0
    ensures var r := Hover(st, n, deltaTime, tripleDuration);
      r.alive && r.awards == [] &&
      r.state.tripleTimer == st.tripleTimer - n as real * deltaTime &&
      r.state.fallTimer == st.fallTimer - n as real * deltaTime
    decreases n
  {
    var r := TickSpec(st, deltaTime, tripleDuration, true, false, false, false);
    assert r.alive && r.state.tripleTimer == st.tripleTimer - deltaTime;
    if n > 1 {
      assert r.state.fallTimer - (n - 1) as real * deltaTime == st.fallTimer - n as real * deltaTime;
      HoverDrainsTripleTimer(r.state, n - 1, deltaTime, tripleDuration);
    }
  }

  class PowerupController {
    const flags: SpawnFlags
    /** FallDuration and TripleDuration, 10 and 2.5 seconds by default. */
    const fallDuration: real
    const tripleDuration: real

    var spawnedExtend: bool
    var fallTimer: real
    var tripleTimer: real
    var lane: real
    var active: bool

    function State(): PowerupState
      reads this
    {
      PowerupState(spawnedExtend, fallTimer, tripleTimer, lane, active)
    }

    /** Init leaves the powerup inactive. */
    constructor (flags: SpawnFlags, fallDuration: real, tripleDuration: real)
      ensures this.flags == flags && this.fallDuration == fallDuration && this.tripleDuration == tripleDuration
      ensures !active
    {
      this.flags := flags;
      this.fallDuration := fallDuration;
      this.tripleDuration := tripleDuration;
      spawnedExtend, fallTimer, tripleTimer, lane, active := false, 0.0, 0.0, 0.0, false;
    }

    method Spawn(lane: real, playerShielded: bool)
      modifies this, flags
      ensures var r := SpawnSpec(old(flags.spawnExtend), playerShielded, lane, fallDuration, tripleDuration);
        State() == r.state && flags.spawnExtend == r.spawnExtend
    {
      this.lane := lane;
      if flags.spawnExtend && playerShielded {
        flags.spawnExtend := false;
        spawnedExtend := true;
      } else {
        spawnedExtend := false;
      }
      fallTimer := fallDuration;
      tripleTimer := tripleDuration;
      active := true;
    }

    method Tick(deltaTime: real, inside: bool, onShieldExtend: bool, onPower: bool, onBomb: bool)
      returns (alive: bool, awards: seq<Award>)
      modifies this
      ensures var r := TickSpec(old(State()), deltaTime, tripleDuration, inside, onShieldExtend, onPower, onBomb);
        alive == r.alive && awards == r.awards && State() == r.state
    {
      awards := [];
      fallTimer := fallTimer - deltaTime;
      if fallTimer <= 0.0 {
        active := false;
        return false, awards;
      }
      if inside {
        tripleTimer := tripleTimer - deltaTime;
        if tripleTimer <= 0.0 {
          awards := [ShieldOrExtend(spawnedExtend), Power, Bomb];
          active := false;
          return false, awards;
        }
      } else {
        tripleTimer := tripleDuration;
      }
      var despawn := false;
      if onShieldExtend {
        despawn := true;
        awards := [ShieldOrExtend(spawnedExtend)];
      } else if onPower {
        despawn := true;
        awards := [Power];
      } else if onBomb {
        despawn := true;
        awards := [Bomb];
      }
      if despawn {
        active := false;
        return false, awards;
      }
      return true, awards;
    }
  }
}
