/**
 * The newer ShotEmitter (Assets/Scripts/EmitterActions/ShotEmitter.cs) as objects:
 * its RepeatManager, the emitter itself, the opcodes' Execute(ref index) and the two
 * static drivers that tick a group of emitters. Every method is tied to the value
 * semantics of module EmitterCore.
 */
module Emitters {
  import opened Common
  import opened Angles
  import opened EmitterCore

  /** ShotEmitter.RepeatManager: a stack of repeat entries, top last. */
  class RepeatManager {
    var repeats: seq<RepeatItem>

    constructor ()
      ensures repeats == []
    {
      repeats := [];
    }

    /** Push (index, times). */
    method StartSequence(index: nat, times: nat)
      modifies this
      ensures repeats == old(repeats) + [RepeatItem(index, times)]
    {
      repeats := repeats + [RepeatItem(index, times)];
    }

    /**
     * Pop the top entry; if there was none or it is exhausted step past the end
     * marker, otherwise push it back decremented and jump to its start.
     */
    method EndSequence(index: nat) returns (jumped: bool, newIndex: nat)
      modifies this
      ensures EndResult(jumped, repeats, newIndex) == EndRepeat(old(repeats), index)
    {
      if repeats == [] {
        newIndex := index + 1;
        return false, newIndex;
      }
      var repeat := repeats[|repeats| - 1];
      repeats := repeats[..|repeats| - 1];
      if repeat.count == 0 {
        newIndex := index + 1;
        return false, newIndex;
      }
      repeat := repeat.(count := repeat.count - 1);
      repeats := repeats + [repeat];
      jumped, newIndex := true, repeat.index;
    }
  }

  class ShotEmitter {
    /** The attached actions, in component order (GetComponents in Init). */
    const program: seq<Action>
    const repeatManager: RepeatManager

    var parameters: ShotParams
    var damage: real
    var shotPrefabName: string
    var mode: ShotMode
    var offset: int
    var mirrored: bool
    var index: nat
    var waitFrames: int
    var waitBeats: int
    var lastAngle: int
    var overrideFire: bool

    function State(): EmitterState
      reads this, repeatManager
    {
      EmitterState(parameters, damage, shotPrefabName, mode, offset, mirrored, index,
                   repeatManager.repeats, waitFrames, waitBeats, lastAngle, overrideFire)
    }

    ghost predicate Valid()
      reads this, repeatManager
    {
      ValidState(program, State())
    }

    /** A freshly initialised emitter: Init's program, every other field at its default. */
    constructor (program: seq<Action>, parameters: ShotParams)
      ensures this.program == program && fresh(repeatManager)
      ensures State() == InitialState(parameters) && Valid()
    {
      this.program := program;
      repeatManager := new RepeatManager();
      this.parameters := parameters;
      damage, shotPrefabName, mode, offset, mirrored := 0.0, "", Static, 0, false;
      index, waitFrames, waitBeats, lastAngle, overrideFire := 0, 0, 0, 0, false;
    }

    /** The CurrentOffset setter. */
    method SetCurrentOffset(value: int)
      modifies this
      ensures State() == SetOffset(old(State()), value)
    {
      if -180 <= value <= 180 {
        offset := value;
        return;
      }
      offset := Wrap(value);
    }

    /** The CurrentMode setter. */
    method SetCurrentMode(value: ShotMode)
      modifies this
      ensures State() == SetMode(old(State()), value)
    {
      if value == mode {
        return;
      }
      if mode != Static && value == Static {
        SetCurrentOffset(lastAngle);
      } else {
        SetCurrentOffset(0);
      }
      mode := value;
    }

    /** ShotEmitter.RepeatStart(ref index, times). */
    method RepeatStart(index: nat, times: nat) returns (newIndex: nat)
      modifies repeatManager
      ensures newIndex == index + 1
      ensures repeatManager.repeats == RepeatStartPush(old(repeatManager.repeats), index, times, |program|)
      ensures old(Valid()) && index < |program| ==> Valid()
    {
      newIndex := index + 1;
      if newIndex == |program| {
        return;
      }
      repeatManager.StartSequence(newIndex, times);
    }

    /** ShotEmitter.RepeatEnd(ref index). */
    method RepeatEnd(index: nat) returns (jumped: bool, newIndex: nat)
      modifies repeatManager
      ensures EndResult(jumped, repeatManager.repeats, newIndex) == EndRepeat(old(repeatManager.repeats), index)
    {
      jumped, newIndex := repeatManager.EndSequence(index);
    }

    /** ShotEmitter.Fire; the call into GameManager.SpawnShot is the input `spawnShot`. */
    method Fire(spawnShot: (ShotMode, ShotParams, int) -> SpawnReply) returns (requested: bool, stalled: bool)
      modifies this
      ensures FireResult(requested, stalled, State()) == FireSpec(old(State()), spawnShot)
    {
      lastAngle := offset;
      if overrideFire {
        return false, false;
      }
      var reply := spawnShot(mode, parameters, lastAngle);
      lastAngle := reply.angle;
      requested, stalled := true, !reply.spawned;
    }

    /** ShotEmitter.Restart. */
    method Restart()
      modifies this
      ensures State() == RestartSpec(old(State()))
    {
      lastAngle := 0;
      index := 0;
      SetCurrentOffset(0);
    }

    /** ShotEmitter.OnBeat. */
    method OnBeat()
      modifies this
      ensures State() == BeatSpec(old(State()))
    {
      waitBeats := waitBeats - 1;
    }

    /** ShotEmitter.Tick(overrideFire): true while the program is not finished. */
    method Tick(overrideFireNow: bool) returns (running: bool)
      requires Valid()
      modifies this, repeatManager
      ensures Valid()
      ensures TickResult(running, State()) == TickSpec(program, old(State()), overrideFireNow)
    {
      overrideFire := overrideFireNow;
      if waitBeats > 0 {
        return true;
      }
      waitFrames := waitFrames - 1;
      if waitFrames > 0 {
        return true;
      }
      running := RunProgram();
    }

    /** The do-while loop of Tick, entered once no wait is pending. */
    method RunProgram() returns (running: bool)
      requires Valid()
      modifies this, repeatManager
      ensures Valid()
      ensures TickResult(running, State()) == RunLoop(program, old(State()))
    {
      ghost var start := State();
      var next := true;
      while next
        invariant Valid()
        invariant next ==> RunLoop(program, State()) == RunLoop(program, start)
        invariant !next ==> TickResult(true, State()) == RunLoop(program, start)
        decreases SumCounts(repeatManager.repeats), Gap(|program|, index), next
      {
        ghost var before := State();
        if index >= |program| {
          var jumped, newIndex := RepeatEnd(index);
          EndRepeatKeepsStarts(before.repeats, before.index, |program|);
          index := newIndex;
          if !jumped {
            assert RunLoop(program, before) == TickResult(false, State());
            return false;
          }
        }
        ghost var mid := State();
        assert ValidState(program, mid) && mid.index < |program|;
        assert RunLoop(program, before) == RunLoopAfterEnd(program, mid);
        var newIndex;
        next, newIndex := Execute(program[index], this, index);
        index := newIndex;
        assert TickResult(next, State()) == TickResult(Step(program[mid.index], mid).next, Step(program[mid.index], mid).state);
      }
      return true;
    }
  }

  /** The state an opcode leaves when Execute(ref index) runs it with `index` as the counter. */
  function Executed(a: Action, st: EmitterState, index: nat): StepResult {
    Step(a, st.(index := index))
  }

  /**
   * EmitterAction.Execute(ref index) for the opcodes of this generation, acting on
   * their owning emitter only. The counter is passed in and handed back; the
   * emitter's own index field is not touched (the caller stores the result there).
   */
  method Execute(a: Action, emitter: ShotEmitter, index: nat) returns (next: bool, newIndex: nat)
    modifies emitter
    ensures var r := Executed(a, old(emitter.State()), index);
      next == r.next && newIndex == r.state.index && emitter.State() == r.state.(index := old(emitter.index))
  {
    newIndex := index + 1;
    match a
    case Wait(n) =>
      emitter.waitFrames := n;
      next := false;
    case WaitBeats(n) =>
      emitter.waitBeats := n;
      next := false;
    case Mirror =>
      emitter.mirrored := !emitter.mirrored;
      next := true;
    case ResetAngle =>
      emitter.SetCurrentOffset(0);
      next := true;
    case SetParams(p) =>
      emitter.parameters := p;
      next := true;
    case SetDamage(d) =>
      emitter.damage := d;
      next := true;
    case SetPrefab(name) =>
      emitter.shotPrefabName := name;
      next := true;
  }

  /**
   * EmitterSetMode.Execute(): one mode change through the CurrentMode setter; the
   * counter is not touched and the result is always true.
   */
  method ExecuteSetMode(emitter: ShotEmitter, newMode: ShotMode) returns (next: bool)
    modifies emitter
    ensures next && emitter.State() == SetMode(old(emitter.State()), newMode)
  {
    emitter.SetCurrentMode(newMode);
    next := true;
  }

  // ---------------------------------------------------------------- groups of emitters

  /** Distinct emitters with distinct repeat managers: ticking one cannot touch another. */
  ghost predicate Disjoint(es: seq<ShotEmitter>) {
    forall i, j :: 0 <= i < j < |es| ==> es[i] != es[j] && es[i].repeatManager != es[j].repeatManager
  }

  ghost function ReprOf(es: seq<ShotEmitter>): set<object> {
    (set k | 0 <= k < |es| :: es[k] as object) + (set k | 0 <= k < |es| :: es[k].repeatManager as object)
  }

  ghost predicate AllValid(es: seq<ShotEmitter>)
    reads ReprOf(es)
  {
    forall k :: 0 <= k < |es| ==> es[k].Valid()
  }

  /** The static ShotEmitter.Tick(emitters, overrideFire): tick every emitter, report whether any is still firing. */
  method TickAll(emitters: Option<seq<ShotEmitter>>, overrideFire: bool) returns (stillFiring: bool)
    requires emitters.Some? ==> Disjoint(emitters.value) && AllValid(emitters.value)
    modifies if emitters.Some? then ReprOf(emitters.value) else {}
    ensures emitters.None? ==> !stillFiring
    ensures emitters.Some? ==> var es := emitters.value;
      AllValid(es) &&
      (forall k :: 0 <= k < |es| ==>
         es[k].State() == TickSpec(es[k].program, old(es[k].State()), overrideFire).state) &&
      (stillFiring <==> exists k :: 0 <= k < |es| && TickSpec(es[k].program, old(es[k].State()), overrideFire).running)
  {
    if emitters.None? {
      return false;
    }
    var es := emitters.value;
    stillFiring := false;
    var i := 0;
    while i < |es|
      invariant 0 <= i <= |es|
      invariant AllValid(es)
      invariant forall k :: 0 <= k < i ==> es[k].State() == TickSpec(es[k].program, old(es[k].State()), overrideFire).state
      invariant forall k :: i <= k < |es| ==> es[k].State() == old(es[k].State())
      invariant stillFiring <==> exists k :: 0 <= k < i && TickSpec(es[k].program, old(es[k].State()), overrideFire).running
    {
      label preTick:
      var running := es[i].Tick(overrideFire);
      forall k | 0 <= k < |es| && k != i
        ensures es[k].State() == old@preTick(es[k].State()) && es[k].Valid()
      {
        assert es[k] != es[i] && es[k].repeatManager != es[i].repeatManager;
      }
      stillFiring := stillFiring || running;
      i := i + 1;
    }
  }

  /** Restart every emitter of the group (the loops in the burst driver and in EnemyController.Tick). */
  method RestartAll(es: seq<ShotEmitter>)
    requires Disjoint(es) && AllValid(es)
    modifies ReprOf(es)
    ensures AllValid(es)
    ensures forall k :: 0 <= k < |es| ==> es[k].State() == RestartSpec(old(es[k].State()))
  {
    var i := 0;
    while i < |es|
      invariant 0 <= i <= |es|
      invariant AllValid(es)
      invariant forall k :: 0 <= k < i ==> es[k].State() == RestartSpec(old(es[k].State()))
      invariant forall k :: i <= k < |es| ==> es[k].State() == old(es[k].State())
    {
      es[i].Restart();
      i := i + 1;
    }
  }

  /** What one call of the burst driver decides, given whether any ticked emitter still runs. */
  datatype BurstOutcome = BurstOutcome(ticked: bool, restarted: bool, firing: bool, frames: int)

  /** The decisions of the static ShotEmitter.Tick(emitters, ref isFiring, ref fireFrames). */
  function BurstDecision(isFiring: bool, anyRunning: bool, fireFrames: int): (r: BurstOutcome)
    ensures r.frames == fireFrames - 1
    ensures r.ticked == isFiring
    ensures r.restarted <==> !(isFiring && anyRunning) && fireFrames - 1 >= 0
    ensures r.firing <==> (isFiring && anyRunning) || r.restarted
  {
    var frames := fireFrames - 1;
    if isFiring && anyRunning then BurstOutcome(true, false, true, frames)
    else if frames < 0 then BurstOutcome(isFiring, false, false, frames)
    else BurstOutcome(isFiring, true, true, frames)
  }

  /** The state an emitter of the group is left in by one call of the burst driver. */
  function BurstState(program: seq<Action>, st: EmitterState, o: BurstOutcome): EmitterState
    requires ValidState(program, st)
  {
    var ticked := if o.ticked then TickSpec(program, st, false).state else st;
    if o.restarted then RestartSpec(ticked) else ticked
  }

  /** A burst is restarted without being ticked in the same call, and one that still runs is never restarted. */
  lemma BurstRestartsOnlyFinished(isFiring: bool, anyRunning: bool, fireFrames: int)
    ensures var o := BurstDecision(isFiring, anyRunning, fireFrames);
      (o.restarted ==> !(o.ticked && anyRunning)) &&
      (isFiring && anyRunning ==> o.firing && !o.restarted) &&
      (!o.firing ==> o.frames < 0)
  {
  }

  /**
   * With the frame budget kept at `buffer` >= 1 before every call, the driver is firing
   * after each call: a held trigger never lets a burst lapse.
   */
  lemma HeldTriggerKeepsFiring(isFiring: bool, anyRunning: bool, buffer: int)
    requires buffer >= 1
    ensures BurstDecision(isFiring, anyRunning, buffer).firing
  {
  }

  /**
   * The firing flag and budget after feeding each call's outcome into the next call,
   * with `reports[k]` what the emitters report on call k.
   */
  function BurstRun(isFiring: bool, fireFrames: int, reports: seq<bool>): (r: (bool, int))
    decreases |reports|
  {
    if reports == [] then (isFiring, fireFrames)
    else
      var o := BurstDecision(isFiring, reports[0], fireFrames);
      BurstRun(o.firing, o.frames, reports[1..])
  }

  /**
   * Once the budget is below 1 and the last burst has finished, the driver stays idle
   * on every later call, whatever the emitters report, and the budget keeps dropping.
   */
  lemma {:induction false} ReleasedTriggerStaysIdle(fireFrames: int, reports: seq<bool>)
    requires fireFrames < 1
    ensures BurstRun(false, fireFrames, reports) == (false, fireFrames - |reports|)
    ensures forall n :: 0 <= n <= |reports| ==> !BurstRun(false, fireFrames, reports[..n]).0
    decreases |reports|
  {
    if reports != [] {
      var o := BurstDecision(false, reports[0], fireFrames);
      assert !o.firing && o.frames == fireFrames - 1;
      ReleasedTriggerStaysIdle(fireFrames - 1, reports[1..]);
      forall n | 0 <= n <= |reports|
        ensures !BurstRun(false, fireFrames, reports[..n]).0
      {
        if n > 0 {
          assert reports[..n][1..] == reports[1..][..n - 1];
        }
      }
    }
  }

  /**
   * The static ShotEmitter.Tick(emitters, ref isFiring, ref fireFrames): with a group
   * present, count the budget down once, tick the group while firing, and restart it
   * when nothing still fires and the budget has not run out.
   */
  method BurstTick(emitters: Option<seq<ShotEmitter>>, isFiring: bool, fireFrames: int)
    returns (firing: bool, frames: int)
    requires emitters.Some? ==> Disjoint(emitters.value) && AllValid(emitters.value)
    modifies if emitters.Some? then ReprOf(emitters.value) else {}
    ensures emitters.None? ==> firing == isFiring && frames == fireFrames
    ensures emitters.Some? ==> var es := emitters.value;
      var anyRunning := exists k :: 0 <= k < |es| && TickSpec(es[k].program, old(es[k].State()), false).running;
      var o := BurstDecision(isFiring, anyRunning, fireFrames);
      AllValid(es) && firing == o.firing && frames == o.frames &&
      forall k :: 0 <= k < |es| ==> es[k].State() == BurstState(es[k].program, old(es[k].State()), o)
  {
    if emitters.None? {
      return isFiring, fireFrames;
    }
    var es := emitters.value;
    ghost var anyRunning := exists k :: 0 <= k < |es| && TickSpec(es[k].program, old(es[k].State()), false).running;
    frames := fireFrames - 1;
    firing := isFiring;
    if firing {
      firing := TickAll(emitters, false);
      if firing {
        return;
      }
    }
    if frames < 0 {
      return;
    }
    firing := true;
    RestartAll(es);
  }
}
