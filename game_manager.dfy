/**
 * GameManager (Assets/Scripts/GameManager.cs) as an object: the beat clock of module
 * Timeline held in fields, the per-stage spawn timelines, and the enemy-shot pool of
 * two FIFO queues. Shots are identified by number; where a shot ends up after its own
 * Tick is an input.
 */
module Game {
  import opened Common
  import opened Timeline

  type ShotId = nat

  /** The ids 0 .. n-1 in creation order. */
  function Ids(n: nat): (r: seq<ShotId>)
    ensures |r| == n && forall i :: 0 <= i < n ==> r[i] == i
  {
    if n == 0 then [] else Ids(n - 1) + [n - 1]
  }

  /** The pool retires a shot whose position leaves the screen rectangle. */
  predicate OffScreen(p: Vec2) {
    Abs(p.x) > ScreenHalfWidth || Abs(p.y) > ScreenHalfHeight
  }

  /** The shots of `s`, in order, that stay on screen after moving. */
  function Kept(s: seq<ShotId>, moved: ShotId -> Vec2): (r: seq<ShotId>)
    ensures |r| <= |s|
  {
    if s == [] then []
    else
      var x := s[|s| - 1];
      Kept(s[..|s| - 1], moved) + (if OffScreen(moved(x)) then [] else [x])
  }

  /** The shots of `s`, in order, that leave the screen after moving. */
  function Retired(s: seq<ShotId>, moved: ShotId -> Vec2): (r: seq<ShotId>)
    ensures |r| <= |s|
  {
    if s == [] then []
    else
      var x := s[|s| - 1];
      Retired(s[..|s| - 1], moved) + (if OffScreen(moved(x)) then [x] else [])
  }

  /** The pool tick splits the active shots: none is lost, none is duplicated. */
  lemma {:induction false} KeptRetiredPartition(s: seq<ShotId>, moved: ShotId -> Vec2)
    ensures multiset(Kept(s, moved)) + multiset(Retired(s, moved)) == multiset(s)
    decreases |s|
  {
    if s != [] {
      var init := s[..|s| - 1];
      KeptRetiredPartition(init, moved);
      assert s == init + [s[|s| - 1]];
    }
  }

  /** Every on-screen shot is kept, and with none off screen nothing is dropped. */
  lemma {:induction false} KeptHoldsOnScreenShots(s: seq<ShotId>, moved: ShotId -> Vec2)
    ensures forall x :: x in s && !OffScreen(moved(x)) ==> x in Kept(s, moved)
    ensures (forall x :: x in s ==> !OffScreen(moved(x))) ==> Kept(s, moved) == s
    decreases |s|
  {
    if s != [] {
      KeptHoldsOnScreenShots(s[..|s| - 1], moved);
      assert s == s[..|s| - 1] + [s[|s| - 1]];
    }
  }

  /**
   * Kept works shot by shot, in queue order: the kept shots of a split queue are those
   * of its front followed by those of its back, so it drops shots and never reorders.
   */
  lemma {:induction false} KeptKeepsOrder(s: seq<ShotId>, t: seq<ShotId>, moved: ShotId -> Vec2)
    ensures Kept(s + t, moved) == Kept(s, moved) + Kept(t, moved)
    decreases |t|
  {
    if t != [] {
      var init := t[..|t| - 1];
      KeptKeepsOrder(s, init, moved);
      assert (s + t)[..|s + t| - 1] == s + init;
      assert (s + t)[|s + t| - 1] == t[|t| - 1];
    } else {
      assert s + t == s;
    }
  }

  /** One round of the pool loop: the front shot leaves the queue and joins the kept or the retired shots. */
  lemma SplitStep(s: seq<ShotId>, i: nat, moved: ShotId -> Vec2)
    requires i < |s|
    ensures (s[i..] + Kept(s[..i], moved))[0] == s[i]
    ensures (s[i..] + Kept(s[..i], moved))[1..] == s[i + 1..] + Kept(s[..i], moved)
    ensures Kept(s[..i + 1], moved) == Kept(s[..i], moved) + (if OffScreen(moved(s[i])) then [] else [s[i]])
    ensures Retired(s[..i + 1], moved) == Retired(s[..i], moved) + (if OffScreen(moved(s[i])) then [s[i]] else [])
  {
    assert s[..i + 1][..i] == s[..i];
    assert s[i..] == [s[i]] + s[i + 1..];
  }

  /**
   * The snapshot-count loop of FixedUpdate on a queue of active shots: dequeue each of
   * the |queue| shots once, in order, and re-enqueue it or hand it to the retired list.
   */
  method SplitPool(queue: seq<ShotId>, moved: ShotId -> Vec2) returns (kept: seq<ShotId>, retired: seq<ShotId>)
    ensures kept == Kept(queue, moved) && retired == Retired(queue, moved)
  {
    var q := queue;
    retired := [];
    var count := |q|;
    for i := 0 to count
      invariant q == queue[i..] + Kept(queue[..i], moved)
      invariant retired == Retired(queue[..i], moved)
    {
      var shot := q[0];
      SplitStep(queue, i, moved);
      ghost var k := Kept(queue[..i], moved);
      q := q[1..];
      if OffScreen(moved(shot)) {
        retired := retired + [shot];
      } else {
        assert queue[i + 1..] + k + [shot] == queue[i + 1..] + (k + [shot]);
        q := q + [shot];
      }
    }
    assert queue[..count] == queue && queue[count..] == [];
    kept := q;
  }

  lemma ShotsConserved(inactive: seq<ShotId>, active: seq<ShotId>, kept: seq<ShotId>, retired: seq<ShotId>)
    requires multiset(kept) + multiset(retired) == multiset(active)
    ensures multiset(inactive + retired) + multiset(kept) == multiset(inactive) + multiset(active)
  {
  }

  /** Moving the front of one queue to the back of the other keeps the shots of the pool. */
  lemma MoveFrontConserved(inactive: seq<ShotId>, active: seq<ShotId>)
    requires inactive != []
    ensures multiset(inactive[1..]) + multiset(active + [inactive[0]]) == multiset(inactive) + multiset(active)
  {
    assert inactive == [inactive[0]] + inactive[1..];
  }

  class GameManager {
    const stages: seq<StageConfig>
    const poolSize: nat

    /** Each stage's Timeline dictionary, in stage order. */
    var timelines: seq<TimelineMap>

    var stage: int
    var loop: int
    var bar: int
    var beat: int
    var beatLen: real
    var barLen: real
    var nextStage: real
    var nextBar: real
    var nextBeat: real

    var inactive: seq<ShotId>
    var active: seq<ShotId>

    function ClockOf(): Clock
      reads this
    {
      Clock(stage, loop, bar, beat, beatLen, barLen, nextStage, nextBar, nextBeat)
    }

    /** The pool owns exactly the ids 0 .. poolSize-1, each in exactly one of the two queues. */
    ghost predicate PoolValid()
      reads this
    {
      multiset(inactive) + multiset(active) == multiset(Ids(poolSize))
    }

    ghost predicate Valid()
      reads this
    {
      StagesValid(stages) && ClockValid(ClockOf(), stages) && |timelines| == |stages| && PoolValid()
    }

    /**
     * The field initialisers followed by Start at audio time `now`: every shot
     * inactive in creation order, the timelines filled, the first stage one second away.
     */
    constructor (stages: seq<StageConfig>, poolSize: nat, now: real)
      requires StagesValid(stages)
      ensures this.stages == stages && this.poolSize == poolSize
      ensures inactive == Ids(poolSize) && active == []
      ensures |timelines| == |stages| && forall k :: 0 <= k < |stages| ==> timelines[k] == Overlay(map[], stages[k].spawns)
      ensures ClockOf() == StartClock(now)
      ensures Valid()
    {
      this.stages := stages;
      this.poolSize := poolSize;
      timelines := seq(|stages|, _ => map[]);
      stage, loop, bar, beat := -1, 1, 0, 0;
      beatLen, barLen, nextStage, nextBar, nextBeat := 0.0, 0.0, 0.0, 0.0, 0.0;
      active := [];
      var pool: seq<ShotId> := [];
      var i := 0;
      while i < poolSize
        invariant 0 <= i <= poolSize
        invariant pool == Ids(i)
      {
        pool := pool + [i];
        i := i + 1;
      }
      inactive := pool;
      new;
      InitTimelines();
      nextStage := now + 1.0;
    }

    /** InitTimelines: write every spawn of every stage under its (bar, beat) key. */
    method InitTimelines()
      requires |timelines| == |stages|
      modifies this
      ensures |timelines| == |stages|
      ensures forall k :: 0 <= k < |stages| ==> timelines[k] == Overlay(old(timelines[k]), stages[k].spawns)
      ensures ClockOf() == old(ClockOf()) && inactive == old(inactive) && active == old(active)
    {
      for i := 0 to |stages|
        invariant |timelines| == |stages|
        invariant forall k :: 0 <= k < i ==> timelines[k] == Overlay(old(timelines[k]), stages[k].spawns)
        invariant forall k :: i <= k < |stages| ==> timelines[k] == old(timelines[k])
        invariant ClockOf() == old(ClockOf()) && inactive == old(inactive) && active == old(active)
      {
        var spawns := stages[i].spawns;
        for j := 0 to |spawns|
          invariant |timelines| == |stages|
          invariant timelines[i] == Overlay(old(timelines[i]), spawns[..j])
          invariant forall k :: 0 <= k < i ==> timelines[k] == Overlay(old(timelines[k]), stages[k].spawns)
          invariant forall k :: i < k < |stages| ==> timelines[k] == old(timelines[k])
          invariant ClockOf() == old(ClockOf()) && inactive == old(inactive) && active == old(active)
        {
          var sp := spawns[j];
          assert spawns[..j + 1][..j] == spawns[..j];
          timelines := timelines[i := timelines[i][(sp.bar, sp.beat) := (sp.lane, sp.enemy)]];
        }
        assert spawns[..|spawns|] == spawns;
      }
    }

    /** StartNextStage at audio time `now`. */
    method StartNextStage(now: real)
      requires StagesValid(stages) && -1 <= stage < |stages|
      modifies this
      ensures ClockOf() == StageStep(old(ClockOf()), stages, now)
      ensures timelines == old(timelines) && inactive == old(inactive) && active == old(active)
    {
      stage := stage + 1;
      if stage == |stages| {
        stage := 0;
        loop := loop + 1;
      }
      var startTime := now + 1.0;
      bar := -1;
      nextStage := startTime + stages[stage].trackSeconds;
      nextBar := startTime;
      nextBeat := startTime;
      beatLen := 60.0 / stages[stage].bpm as real;
      barLen := BeatsPerBar as real * beatLen;
    }

    /** StartNextBar, with the intended beat deadline; returns what TrySpawning spawns. */
    method StartNextBar() returns (spawned: Option<EnemySpawn>)
      requires -1 <= stage < |timelines|
      modifies this
      ensures ClockOf() == BarStep(old(ClockOf()))
      ensures timelines == old(timelines) && inactive == old(inactive) && active == old(active)
      ensures spawned == if old(stage) == -1 then None else TrySpawning(timelines[old(stage)], bar, beat)
    {
      if stage == -1 {
        return None;
      }
      bar := bar + 1;
      beat := 0;
      spawned := TrySpawning(timelines[stage], bar, beat);
      nextBeat := nextBar + beatLen;
      nextBar := nextBar + barLen;
    }

    /** StartNextBeat; returns what TrySpawning spawns. */
    method StartNextBeat() returns (spawned: Option<EnemySpawn>)
      requires -1 <= stage < |timelines|
      modifies this
      ensures ClockOf() == BeatStep(old(ClockOf()))
      ensures timelines == old(timelines) && inactive == old(inactive) && active == old(active)
      ensures spawned == if old(stage) == -1 then None else TrySpawning(timelines[old(stage)], bar, beat)
    {
      if stage == -1 {
        return None;
      }
      beat := beat + 1;
      spawned := TrySpawning(timelines[stage], bar, beat);
      nextBeat := nextBeat + beatLen;
    }

    /** SpawnEnemyShot: move the front inactive shot to the back of the active queue, if there is one. */
    method SpawnEnemyShot() returns (shot: Option<ShotId>)
      modifies this
      ensures old(inactive) == [] ==> shot == None && inactive == [] && active == old(active)
      ensures old(inactive) != [] ==>
                shot == Some(old(inactive)[0]) && inactive == old(inactive)[1..] && active == old(active) + [old(inactive)[0]]
      ensures old(PoolValid()) ==> PoolValid()
      ensures ClockOf() == old(ClockOf()) && timelines == old(timelines)
    {
      if |inactive| == 0 {
        return None;
      }
      var s := inactive[0];
      MoveFrontConserved(inactive, active);
      inactive, active := inactive[1..], active + [s];
      shot := Some(s);
    }

    /** The pool part of FixedUpdate: each shot active before the loop is handled once, in queue order. */
    method TickShots(moved: ShotId -> Vec2)
      modifies this
      ensures active == Kept(old(active), moved)
      ensures inactive == old(inactive) + Retired(old(active), moved)
      ensures old(PoolValid()) ==> PoolValid()
      ensures ClockOf() == old(ClockOf()) && timelines == old(timelines)
    {
      var kept, retired := SplitPool(active, moved);
      KeptRetiredPartition(active, moved);
      ShotsConserved(inactive, active, kept, retired);
      active, inactive := kept, inactive + retired;
    }

    /**
     * FixedUpdate at audio time `now`: fire at most one boundary, stage before bar
     * before beat, then tick the pool. Returns the enemy spawned by the boundary.
     */
    method FixedUpdate(now: real, moved: ShotId -> Vec2) returns (spawned: Option<EnemySpawn>)
      requires Valid()
      modifies this
      ensures Valid()
      ensures var r := Advance(old(ClockOf()), stages, now);
        ClockOf() == r.clock && spawned == SpawnOf(r, timelines)
      ensures timelines == old(timelines)
      ensures active == Kept(old(active), moved) && inactive == old(inactive) + Retired(old(active), moved)
    {
      AdvanceKeepsClockValid(ClockOf(), stages, now);
      spawned := None;
      if now > nextStage {
        StartNextStage(now);
      } else if now > nextBar {
        spawned := StartNextBar();
      } else if now > nextBeat {
        spawned := StartNextBeat();
      }
      TickShots(moved);
    }
  }
}
