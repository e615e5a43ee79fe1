/**
 * GameManager's beat clock (Assets/Scripts/GameManager.cs) as values: the stage, bar
 * and beat counters, their deadlines on the audio clock, the one-boundary-per-tick
 * advance, and the (bar, beat) spawn timeline.
 */
module Timeline {
  import opened Common

  const BeatsPerBar: int := 4

  /** One timeline entry as InitTimelines reads it from a stage's spawn list. */
  datatype TimelineSpawn = TimelineSpawn(bar: int, beat: int, lane: int, enemy: Option<EnemyId>)

  /** What the clock reads from a StageSettings: BPM, the track's length in seconds (samples / frequency), the spawns. */
  datatype StageConfig = StageConfig(bpm: int, trackSeconds: real, spawns: seq<TimelineSpawn>)

  type TimelineMap = map<(int, int), (int, Option<EnemyId>)>

  predicate StagesValid(stages: seq<StageConfig>) {
    |stages| > 0 && forall k :: 0 <= k < |stages| ==> stages[k].bpm > 0
  }

  /** The counters and deadlines of the clock. */
  datatype Clock = Clock(
    stage: int, loop: int, bar: int, beat: int,
    beatLen: real, barLen: real,
    nextStage: real, nextBar: real, nextBeat: real)

  /** The clock after Start at audio time `now`: no stage yet, the first stage one second away. */
  function StartClock(now: real): Clock {
    Clock(-1, 1, 0, 0, 0.0, 0.0, now + 1.0, 0.0, 0.0)
  }

  /**
   * The clock invariant: before the first stage nothing is claimed; during a stage
   * the bar is as long as four beats, and the bar deadline lies exactly
   * (BeatsPerBar - 1 - beat) beats after the beat deadline, with beat in 0..3;
   * just after a stage starts (bar = -1) both deadlines coincide.
   */
  predicate ClockValid(c: Clock, stages: seq<StageConfig>) {
    -1 <= c.stage < |stages| && c.bar >= -1 &&
    (c.stage >= 0 ==>
       c.beatLen > 0.0 && c.barLen == BeatsPerBar as real * c.beatLen &&
       (c.bar == -1 ==> c.nextBar == c.nextBeat) &&
       (c.bar >= 0 ==> 0 <= c.beat < BeatsPerBar &&
                       c.nextBar - c.nextBeat == (BeatsPerBar - 1 - c.beat) as real * c.beatLen))
  }

  /** StartNextStage at audio time `now`. */
  function StageStep(c: Clock, stages: seq<StageConfig>, now: real): (r: Clock)
    requires StagesValid(stages) && -1 <= c.stage < |stages|
    ensures 0 <= r.stage < |stages| && r.bar == -1 && r.beat == c.beat
    ensures r.stage == if c.stage + 1 == |stages| then 0 else c.stage + 1
    ensures r.loop == if c.stage + 1 == |stages| then c.loop + 1 else c.loop
    ensures r.nextBar == r.nextBeat == now + 1.0
    ensures r.nextStage == now + 1.0 + stages[r.stage].trackSeconds
    ensures r.beatLen * stages[r.stage].bpm as real == 60.0 && r.barLen == 4.0 * r.beatLen
  {
    var wrapped := c.stage + 1 == |stages|;
    var stage := if wrapped then 0 else c.stage + 1;
    var startTime := now + 1.0;
    var beatLen := 60.0 / stages[stage].bpm as real;
    Clock(stage, if wrapped then c.loop + 1 else c.loop, -1, c.beat, beatLen, BeatsPerBar as real * beatLen,
          startTime + stages[stage].trackSeconds, startTime, startTime)
  }

  /** StartNextBar as written: both deadlines move on by their own length. */
  function BarStepAsWritten(c: Clock): Clock {
    if c.stage == -1 then c
    else c.(bar := c.bar + 1, beat := 0, nextBeat := c.nextBeat + c.beatLen, nextBar := c.nextBar + c.barLen)
  }

  /** StartNextBar as intended: the first beat deadline of the new bar is one beat after the bar boundary. */
  function BarStep(c: Clock): Clock {
    if c.stage == -1 then c
    else c.(bar := c.bar + 1, beat := 0, nextBeat := c.nextBar + c.beatLen, nextBar := c.nextBar + c.barLen)
  }

  /** StartNextBeat. */
  function BeatStep(c: Clock): Clock {
    if c.stage == -1 then c
    else c.(beat := c.beat + 1, nextBeat := c.nextBeat + c.beatLen)
  }

  /** The boundary a FixedUpdate fired, if any. */
  datatype Boundary = NoBoundary | StageBoundary | BarBoundary | BeatBoundary

  datatype Advanced = Advanced(boundary: Boundary, clock: Clock)

  /** The timeline part of FixedUpdate at audio time `now`, parameterised by the bar step used. */
  function AdvanceWith(c: Clock, stages: seq<StageConfig>, now: real, asWritten: bool): (r: Advanced)
    requires StagesValid(stages) && -1 <= c.stage < |stages|
    ensures r.boundary == StageBoundary <==> now > c.nextStage
    ensures r.boundary == BarBoundary <==> !(now > c.nextStage) && now > c.nextBar
    ensures r.boundary == BeatBoundary <==> !(now > c.nextStage) && !(now > c.nextBar) && now > c.nextBeat
    ensures r.boundary == NoBoundary ==> r.clock == c
  {
    if now > c.nextStage then Advanced(StageBoundary, StageStep(c, stages, now))
    else if now > c.nextBar then Advanced(BarBoundary, if asWritten then BarStepAsWritten(c) else BarStep(c))
    else if now > c.nextBeat then Advanced(BeatBoundary, BeatStep(c))
    else Advanced(NoBoundary, c)
  }

  function Advance(c: Clock, stages: seq<StageConfig>, now: real): Advanced
    requires StagesValid(stages) && -1 <= c.stage < |stages|
  {
    AdvanceWith(c, stages, now, false)
  }

  function AdvanceAsWritten(c: Clock, stages: seq<StageConfig>, now: real): Advanced
    requires StagesValid(stages) && -1 <= c.stage < |stages|
  {
    AdvanceWith(c, stages, now, true)
  }

  /** Start leaves a valid clock. */
  lemma StartClockValid(stages: seq<StageConfig>, now: real)
    requires StagesValid(stages)
    ensures ClockValid(StartClock(now), stages)
  {
  }

  /**
   * Every FixedUpdate keeps the clock invariant, so the beat counter stays in 0..3:
   * a beat can fire at most three times per bar, since after the third the two
   * deadlines coincide and the bar takes priority.
   */
  lemma AdvanceKeepsClockValid(c: Clock, stages: seq<StageConfig>, now: real)
    requires StagesValid(stages) && ClockValid(c, stages)
    ensures ClockValid(Advance(c, stages, now).clock, stages)
    ensures var r := Advance(c, stages, now);
      r.clock.stage >= 0 && r.clock.bar >= 0 ==> 0 <= r.clock.beat < BeatsPerBar
  {
    var r := Advance(c, stages, now);
    if r.boundary == StageBoundary {
      var s := r.clock;
      assert s.beatLen * stages[s.stage].bpm as real == 60.0;
    }
  }

  /** The part of ClockValid that does not depend on the beat phase. */
  predicate TempoValid(c: Clock, stages: seq<StageConfig>) {
    -1 <= c.stage < |stages| && c.bar >= -1 &&
    (c.stage >= 0 ==>
       c.beatLen > 0.0 && c.barLen == BeatsPerBar as real * c.beatLen &&
       (c.bar == -1 ==> c.nextBar == c.nextBeat))
  }

  /**
   * The bar step as written keeps everything of the clock invariant except the beat
   * phase: the counters stay in range of the stages, the bar stays four beats long,
   * and a stage's first bar fires before its first beat.
   */
  lemma AsWrittenKeepsTempo(c: Clock, stages: seq<StageConfig>, now: real)
    requires StagesValid(stages) && TempoValid(c, stages)
    ensures TempoValid(AdvanceAsWritten(c, stages, now).clock, stages)
  {
    var r := AdvanceAsWritten(c, stages, now);
    if r.boundary == StageBoundary {
      assert r.clock.beatLen * stages[r.clock.stage].bpm as real == 60.0;
    }
  }

  /** When the bar fires on time (right after the bar's last beat, or right after the stage began), both bar steps agree. */
  lemma BarStepsAgreeOnTime(c: Clock, stages: seq<StageConfig>)
    requires ClockValid(c, stages) && c.stage >= 0 && (c.bar == -1 || c.beat == BeatsPerBar - 1)
    ensures BarStepAsWritten(c) == BarStep(c)
  {
  }

  /** `times` successive FixedUpdates. */
  function Run(c: Clock, stages: seq<StageConfig>, times: seq<real>, asWritten: bool): Clock
    requires StagesValid(stages) && -1 <= c.stage < |stages|
    decreases |times|
  {
    if times == [] then c
    else
      var r := AdvanceWith(c, stages, times[0], asWritten);
      assert -1 <= r.clock.stage < |stages|;
      Run(r.clock, stages, times[1..], asWritten)
  }

  /** A valid clock in the middle of bar 0 of a 60 BPM stage whose beat deadline has fallen behind. */
  function StalledClock(): Clock {
    Clock(0, 1, 0, 1, 1.0, 4.0, 100.0, 4.0, 2.0)
  }

  /**
   * As written: if the audio clock passes the bar deadline while beats are still
   * pending (a FixedUpdate gap of more than a beat), the new bar's beat deadline is
   * left behind, the beat counter climbs to 4 within that bar, and the invariant is lost.
   */
  lemma StallPushesBeatPastBar()
    ensures var stages := [StageConfig(60, 100.0, [])];
      ClockValid(StalledClock(), stages) &&
      !ClockValid(AdvanceAsWritten(StalledClock(), stages, 5.0).clock, stages) &&
      Run(StalledClock(), stages, [5.0, 5.0, 5.0, 5.5, 6.5], true).beat == 4 &&
      Run(StalledClock(), stages, [5.0, 5.0, 5.0, 5.5, 6.5], true).bar == 1
  {
    var stages := [StageConfig(60, 100.0, [])];
    var c1 := StalledClock().(bar := 1, beat := 0, nextBeat := 3.0, nextBar := 8.0);
    assert AdvanceAsWritten(StalledClock(), stages, 5.0).clock == c1;
    var c2 := c1.(beat := 1, nextBeat := 4.0);
    assert AdvanceAsWritten(c1, stages, 5.0).clock == c2;
    var c3 := c2.(beat := 2, nextBeat := 5.0);
    assert AdvanceAsWritten(c2, stages, 5.0).clock == c3;
    var c4 := c3.(beat := 3, nextBeat := 6.0);
    assert AdvanceAsWritten(c3, stages, 5.5).clock == c4;
    var c5 := c4.(beat := 4, nextBeat := 7.0);
    assert AdvanceAsWritten(c4, stages, 6.5).clock == c5;
    assert Run(c5, stages, [], true) == c5;
    assert [5.0, 5.0, 5.0, 5.5, 6.5][1..] == [5.0, 5.0, 5.5, 6.5];
    assert [5.0, 5.0, 5.5, 6.5][1..] == [5.0, 5.5, 6.5];
    assert [5.0, 5.5, 6.5][1..] == [5.5, 6.5];
    assert [5.5, 6.5][1..] == [6.5];
  }

  /** The same stall with the intended bar step: the new bar starts at beat 0 with its beats a beat apart. */
  lemma StallRecoversWhenIntended()
    ensures var stages := [StageConfig(60, 100.0, [])];
      var r := Advance(StalledClock(), stages, 5.0).clock;
      ClockValid(r, stages) && r.bar == 1 && r.beat == 0 && r.nextBeat == 5.0 && r.nextBar == 8.0
  {
  }

  // ---------------------------------------------------------------- the spawn timeline

  /** InitTimelines for one stage: each spawn is written under (bar, beat), later ones overwriting earlier ones. */
  function Overlay(m: TimelineMap, spawns: seq<TimelineSpawn>): TimelineMap
    decreases |spawns|
  {
    if spawns == [] then m
    else
      var last := spawns[|spawns| - 1];
      Overlay(m, spawns[..|spawns| - 1])[(last.bar, last.beat) := (last.lane, last.enemy)]
  }

  /**
   * The timeline holds a key exactly when some spawn (or the map before) has it, and
   * then its entry comes from the LAST spawn with that key.
   */
  lemma {:induction false} OverlayLastWins(m: TimelineMap, spawns: seq<TimelineSpawn>, key: (int, int))
    ensures key in Overlay(m, spawns) <==> key in m || exists k :: 0 <= k < |spawns| && (spawns[k].bar, spawns[k].beat) == key
    ensures forall k :: 0 <= k < |spawns| && (spawns[k].bar, spawns[k].beat) == key &&
                        (forall j :: k < j < |spawns| ==> (spawns[j].bar, spawns[j].beat) != key) ==>
              Overlay(m, spawns)[key] == (spawns[k].lane, spawns[k].enemy)
    ensures (forall k :: 0 <= k < |spawns| ==> (spawns[k].bar, spawns[k].beat) != key) && key in m ==>
              Overlay(m, spawns)[key] == m[key]
    decreases |spawns|
  {
    if spawns != [] {
      var init := spawns[..|spawns| - 1];
      OverlayLastWins(m, init, key);
      var last := spawns[|spawns| - 1];
      if (last.bar, last.beat) != key {
        forall k | 0 <= k < |spawns| && (spawns[k].bar, spawns[k].beat) == key
          ensures k < |init| && init[k] == spawns[k]
        {
        }
      }
    }
  }

  datatype EnemySpawn = EnemySpawn(lane: int, enemy: EnemyId)

  /** TrySpawning: nothing unless the key is present with an enemy. */
  function TrySpawning(timeline: TimelineMap, bar: int, beat: int): (r: Option<EnemySpawn>)
    ensures r.Some? <==> (bar, beat) in timeline && timeline[(bar, beat)].1.Some?
    ensures r.Some? ==> r.value == EnemySpawn(timeline[(bar, beat)].0, timeline[(bar, beat)].1.value)
  {
    if (bar, beat) !in timeline then None
    else
      var (lane, enemy) := timeline[(bar, beat)];
      if enemy.None? then None else Some(EnemySpawn(lane, enemy.value))
  }

  /** The spawn a FixedUpdate triggers: a bar or beat boundary during a stage looks up the new (bar, beat). */
  function SpawnOf(r: Advanced, timelines: seq<TimelineMap>): Option<EnemySpawn>
    requires r.clock.stage < |timelines|
  {
    if (r.boundary == BarBoundary || r.boundary == BeatBoundary) && r.clock.stage >= 0 then
      TrySpawning(timelines[r.clock.stage], r.clock.bar, r.clock.beat)
    else None
  }

  /** Only a bar or beat boundary of a running stage spawns, and only what the timeline holds at the new position. */
  lemma SpawnOnlyOnBoundary(c: Clock, stages: seq<StageConfig>, timelines: seq<TimelineMap>, now: real)
    requires StagesValid(stages) && ClockValid(c, stages) && |timelines| == |stages|
    ensures var r := Advance(c, stages, now);
      var s := SpawnOf(r, timelines);
      (s.Some? ==> c.stage >= 0 && (r.boundary == BarBoundary || r.boundary == BeatBoundary) &&
                   (r.clock.bar, r.clock.beat) in timelines[c.stage]) &&
      (r.boundary == BarBoundary && c.stage >= 0 ==> r.clock.bar == c.bar + 1 && r.clock.beat == 0) &&
      (r.boundary == BeatBoundary && c.stage >= 0 ==> r.clock.bar == c.bar && r.clock.beat == c.beat + 1)
  {
  }
}
