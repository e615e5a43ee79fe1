/**
 * EnemyController (Assets/Scripts/EnemyController.cs): a beat-driven route queue with a
 * beats-remaining counter, an exit leg, health, and the gating of its emitters. The
 * curve interpolation between route points is an input; audio time and the beat
 * length are inputs too.
 */
module EnemyControl {
  import opened Common
  import opened EmitterCore
  import opened Emitters

  /** A route point: where to go, and in how many beats (RouteStep.BeatsToComplete, declared >= 0). */
  datatype RoutePoint = RoutePoint(destination: Vec2, beatsToComplete: int)

  /** What Spawn reads from its SpawnInfo; `route` is None when there is no route prefab. */
  datatype EnemySpawnInfo = EnemySpawnInfo(isMirrored: bool, lane: real, route: Option<seq<RoutePoint>>)

  /** The movement state of an enemy. */
  datatype Mover = Mover(
    isMirrored: bool,
    route: seq<RoutePoint>, // the points still queued, front first
    beatsToGo: int,
    position: Vec2,
    start: Vec2,
    destination: Vec2,
    destTime: real,
    destDuration: real,
    isExiting: bool,
    active: bool)

  /** The y the exit leg heads for, one unit below the screen. */
  const ExitY: real := -ScreenHalfHeight - 1.0

  /** StartMove(position, beats, isMirrored) at audio time `now`. */
  function StartMoveSpec(m: Mover, target: Vec2, beats: int, mirrored: bool, now: real, beatLength: real): (r: Mover)
    ensures r.destination == (if mirrored then Vec2(-target.x, target.y) else target)
    ensures r.beatsToGo == beats
    ensures beats == 0 ==> r == m.(beatsToGo := 0, position := r.destination, destination := r.destination)
    ensures beats != 0 ==>
              r == m.(beatsToGo := beats, start := m.position, destination := r.destination,
                      destDuration := beats as real * beatLength, destTime := now + beats as real * beatLength)
  {
    var p := if mirrored then target.(x := -target.x) else target;
    if beats == 0 then m.(beatsToGo := 0, position := p, destination := p)
    else m.(beatsToGo := beats, start := m.position, destination := p,
            destDuration := beats as real * beatLength, destTime := now + beats as real * beatLength)
  }

  /** ExitStage: head straight down over four beats, never mirrored. */
  function ExitSpec(m: Mover, now: real, beatLength: real): (r: Mover)
    ensures r.isExiting && r.beatsToGo == 4 && r.destination == Vec2(m.position.x, ExitY)
    ensures r.destTime == now + 4.0 * beatLength && r.start == m.position
    ensures r.route == m.route && r.isMirrored == m.isMirrored && r.position == m.position
  {
    StartMoveSpec(m.(isExiting := true), Vec2(m.position.x, ExitY), 4, false, now, beatLength)
  }

  /** Whatever the mirror flag, the exit leg keeps the enemy's x. */
  lemma ExitIgnoresMirror(m: Mover, now: real, beatLength: real)
    ensures ExitSpec(m.(isMirrored := true), now, beatLength).destination == ExitSpec(m.(isMirrored := false), now, beatLength).destination
  {
  }

  /** Spawn: enter one unit above the screen in the spawn's lane, then exit at once or start the first route point. */
  function SpawnSpec(m: Mover, info: EnemySpawnInfo, now: real, beatLength: real): (r: Mover)
    ensures r.active && r.isMirrored == info.isMirrored
    ensures info.route.None? || info.route.value == [] ==> r.isExiting && r.beatsToGo == 4
    ensures info.route.Some? && info.route.value != [] ==>
              !r.isExiting && r.route == info.route.value[1..] && r.beatsToGo == info.route.value[0].beatsToComplete &&
              r.destination == (if info.isMirrored then Vec2(-info.route.value[0].destination.x, info.route.value[0].destination.y)
                                else info.route.value[0].destination)
  {
    var entry := Vec2(info.lane, ScreenHalfHeight + 1.0);
    var m1 := m.(isExiting := false, beatsToGo := 0, isMirrored := info.isMirrored,
                 position := entry, destination := entry, active := true);
    if info.route.None? || |info.route.value| == 0 then ExitSpec(m1, now, beatLength)
    else
      var first := info.route.value[0];
      StartMoveSpec(m1.(route := info.route.value[1..]), first.destination, first.beatsToComplete, m1.isMirrored, now, beatLength)
  }

  /** OnBeat: ignored while exiting; otherwise count down and, once done, start the next point or exit. */
  function MoverBeatSpec(m: Mover, now: real, beatLength: real): (r: Mover)
    ensures m.isExiting ==> r == m
    ensures !m.isExiting && m.beatsToGo - 1 > 0 ==> r == m.(beatsToGo := m.beatsToGo - 1)
    ensures !m.isExiting && m.beatsToGo - 1 <= 0 && m.route == [] ==> r.isExiting && r.destination == Vec2(m.position.x, ExitY)
    ensures !m.isExiting && m.beatsToGo - 1 <= 0 && m.route != [] ==>
              !r.isExiting && r.route == m.route[1..] && r.beatsToGo == m.route[0].beatsToComplete
  {
    if m.isExiting then m
    else
      var m1 := m.(beatsToGo := m.beatsToGo - 1);
      if m1.beatsToGo > 0 then m1
      else if m1.route == [] then ExitSpec(m1, now, beatLength)
      else StartMoveSpec(m1.(route := m1.route[1..]), m1.route[0].destination, m1.route[0].beatsToComplete, m1.isMirrored, now, beatLength)
  }

  /** `n` successive beats at the same audio time and beat length. */
  function Beats(m: Mover, n: nat, now: real, beatLength: real): Mover
    decreases n
  {
    if n == 0 then m else Beats(MoverBeatSpec(m, now, beatLength), n - 1, now, beatLength)
  }

  /**
   * A leg of b >= 1 beats lasts exactly b beats: the first b - 1 only count down, and
   * the b-th dequeues the next route point (or starts the exit when none is left).
   */
  lemma {:induction false} LegLastsItsBeats(m: Mover, now: real, beatLength: real, n: nat)
    requires !m.isExiting && n < m.beatsToGo
    ensures Beats(m, n, now, beatLength) == m.(beatsToGo := m.beatsToGo - n)
    ensures n + 1 == m.beatsToGo ==>
              var r := Beats(m, n + 1, now, beatLength);
              (m.route != [] ==> !r.isExiting && r.route == m.route[1..] && r.beatsToGo == m.route[0].beatsToComplete) &&
              (m.route == [] ==> r.isExiting)
    decreases n
  {
    if n > 0 {
      var m1 := MoverBeatSpec(m, now, beatLength);
      assert m1 == m.(beatsToGo := m.beatsToGo - 1);
      LegLastsItsBeats(m1, now, beatLength, n - 1);
    }
    if n + 1 == m.beatsToGo {
      var mn := Beats(m, n, now, beatLength);
      assert Beats(m, n + 1, now, beatLength) == Beats(MoverBeatSpec(m, now, beatLength), n, now, beatLength);
      BeatsSplit(m, n, now, beatLength);
    }
  }

  /** n + 1 beats are n beats followed by one more. */
  lemma {:induction false} BeatsSplit(m: Mover, n: nat, now: real, beatLength: real)
    ensures Beats(m, n + 1, now, beatLength) == MoverBeatSpec(Beats(m, n, now, beatLength), now, beatLength)
    decreases n
  {
    if n > 0 {
      BeatsSplit(MoverBeatSpec(m, now, beatLength), n - 1, now, beatLength);
    }
  }

  /** Once exiting, no number of beats changes the mover. */
  lemma {:induction false} ExitingIgnoresBeats(m: Mover, n: nat, now: real, beatLength: real)
    requires m.isExiting
    ensures Beats(m, n, now, beatLength) == m
    decreases n
  {
    if n > 0 {
      ExitingIgnoresBeats(MoverBeatSpec(m, now, beatLength), n - 1, now, beatLength);
    }
  }

  /** OnUnpause(lostTime): the deadline moves by exactly the time lost. */
  function UnpauseSpec(m: Mover, lostTime: real): (r: Mover)
    ensures r == m.(destTime := m.destTime + lostTime)
  {
    m.(destTime := m.destTime + lostTime)
  }

  datatype Moved = Moved(alive: bool, ticksEmitters: bool, mover: Mover)

  /**
   * The movement and gating part of Tick at audio time `now`, with `curvePos` the
   * interpolated position used while the leg is still running.
   */
  function TickMove(m: Mover, now: real, curvePos: Vec2, cutoffHeight: real): (r: Moved)
    ensures !r.alive <==> m.isExiting && now >= m.destTime
    ensures !r.alive ==> !r.mover.active
    ensures r.ticksEmitters <==> r.alive && r.mover.position.y >= cutoffHeight
    ensures r.mover.position == if now < m.destTime then curvePos else m.destination
  {
    if now < m.destTime then Moved(true, curvePos.y >= cutoffHeight, m.(position := curvePos))
    else
      var m1 := m.(position := m.destination);
      if m1.isExiting then Moved(false, false, m1.(active := false))
      else Moved(true, m1.position.y >= cutoffHeight, m1)
  }

  /** An enemy that reaches the end of its exit leg is despawned; one not exiting never is. */
  lemma DespawnOnlyAfterExit(m: Mover, info: EnemySpawnInfo, now: real, later: real, beatLength: real, curvePos: Vec2, cutoffHeight: real)
    requires info.route.None? || info.route.value == []
    requires later >= now + 4.0 * beatLength
    ensures !TickMove(SpawnSpec(m, info, now, beatLength), later, curvePos, cutoffHeight).alive
    ensures !m.isExiting ==> TickMove(m, later, curvePos, cutoffHeight).alive
  {
  }

  class EnemyController {
    /** The child emitters, in component order. */
    const emitters: seq<ShotEmitter>

    var health: int
    var isMirrored: bool
    var route: seq<RoutePoint>
    var beatsToGo: int
    var position: Vec2
    var start: Vec2
    var destination: Vec2
    var destTime: real
    var destDuration: real
    var isExiting: bool
    var active: bool

    function MoverOf(): Mover
      reads this
    {
      Mover(isMirrored, route, beatsToGo, position, start, destination, destTime, destDuration, isExiting, active)
    }

    ghost predicate Valid()
      reads this, ReprOf(emitters)
    {
      Disjoint(emitters) && AllValid(emitters)
    }

    /** The enemy after Init: inactive, its emitters initialised, Health at its default 1. */
    constructor (emitters: seq<ShotEmitter>)
      requires Disjoint(emitters) && AllValid(emitters)
      ensures this.emitters == emitters && health == 1 && !active && route == []
      ensures Valid()
    {
      this.emitters := emitters;
      health := 1;
      isMirrored, route, beatsToGo := false, [], 0;
      position, start, destination := Vec2(0.0, 0.0), Vec2(0.0, 0.0), Vec2(0.0, 0.0);
      destTime, destDuration, isExiting, active := 0.0, 0.0, false, false;
    }

    method StartMove(target: Vec2, beats: int, mirrored: bool, now: real, beatLength: real)
      modifies this
      ensures MoverOf() == StartMoveSpec(old(MoverOf()), target, beats, mirrored, now, beatLength)
      ensures health == old(health)
    {
      var p := target;
      if mirrored {
        p := p.(x := -p.x);
      }
      beatsToGo := beats;
      if beatsToGo == 0 {
        destination := p;
        position := p;
        return;
      }
      start := position;
      destination := p;
      destDuration := beats as real * beatLength;
      destTime := now + destDuration;
    }

    method ExitStage(now: real, beatLength: real)
      modifies this
      ensures MoverOf() == ExitSpec(old(MoverOf()), now, beatLength)
      ensures health == old(health)
    {
      isExiting := true;
      StartMove(Vec2(position.x, ExitY), 4, false, now, beatLength);
    }

    method Spawn(info: EnemySpawnInfo, now: real, beatLength: real)
      modifies this
      ensures MoverOf() == SpawnSpec(old(MoverOf()), info, now, beatLength)
      ensures health == old(health)
    {
      isExiting := false;
      beatsToGo := 0;
      isMirrored := info.isMirrored;
      destination := Vec2(info.lane, ScreenHalfHeight + 1.0);
      position := destination;
      active := true;
      if info.route.None? || |info.route.value| == 0 {
        ExitStage(now, beatLength);
        return;
      }
      route := info.route.value;
      var first := route[0];
      route := route[1..];
      StartMove(first.destination, first.beatsToComplete, isMirrored, now, beatLength);
    }

    /** TryDie: take `count` damage and report whether the enemy has died. */
    method TryDie(count: int) returns (dead: bool)
      modifies this
      ensures health == old(health) - count && dead == (health <= 0)
      ensures MoverOf() == old(MoverOf())
    {
      health := health - count;
      dead := health <= 0;
    }

    method OnBeat(now: real, beatLength: real)
      modifies this
      ensures MoverOf() == MoverBeatSpec(old(MoverOf()), now, beatLength)
      ensures health == old(health)
    {
      if isExiting {
        return;
      }
      beatsToGo := beatsToGo - 1;
      if beatsToGo > 0 {
        return;
      }
      if route == [] {
        ExitStage(now, beatLength);
        return;
      }
      var next := route[0];
      route := route[1..];
      StartMove(next.destination, next.beatsToComplete, isMirrored, now, beatLength);
    }

    method OnUnpause(lostTime: real)
      modifies this
      ensures MoverOf() == UnpauseSpec(old(MoverOf()), lostTime)
      ensures health == old(health)
    {
      destTime := destTime + lostTime;
    }

    /**
     * Tick at audio time `now`: move, despawn at the end of the exit leg, and at or
     * above the cutoff height tick the emitters, restarting them all once none fires.
     */
    method Tick(now: real, curvePos: Vec2, cutoffHeight: real) returns (alive: bool)
      requires Valid()
      modifies this, ReprOf(emitters)
      ensures Valid() && health == old(health)
      ensures var r := TickMove(old(MoverOf()), now, curvePos, cutoffHeight);
        alive == r.alive && MoverOf() == r.mover &&
        (!r.ticksEmitters ==> forall k :: 0 <= k < |emitters| ==> emitters[k].State() == old(emitters[k].State())) &&
        (r.ticksEmitters ==>
           var anyRunning := exists k :: 0 <= k < |emitters| && TickSpec(emitters[k].program, old(emitters[k].State()), false).running;
           forall k :: 0 <= k < |emitters| ==>
             var ticked := TickSpec(emitters[k].program, old(emitters[k].State()), false).state;
             emitters[k].State() == if anyRunning then ticked else RestartSpec(ticked))
    {
      if now < destTime {
        position := curvePos;
      } else {
        position := destination;
        if isExiting {
          active := false;
          return false;
        }
      }
      if position.y < cutoffHeight {
        return true;
      }
      var firing := TickAll(Some(emitters), false);
      if firing {
        return true;
      }
      RestartAll(emitters);
      return true;
    }
  }
}
