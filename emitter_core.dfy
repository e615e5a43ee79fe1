/**
 * The state and the step semantics of the newer emitter interpreter
 * (Assets/Scripts/EmitterActions), as values. The class ShotEmitter in module
 * Emitters mutates its fields exactly as these functions describe.
 */
module EmitterCore {
  import opened Common
  import opened Angles

  /** ShotEmitter.ShotMode; Static is the default (first) member. */
  datatype ShotMode = Static | Aimed | Random

  /** An opcode of the generation whose contract is `bool Execute(ref int index)`. */
  datatype Action =
    | Wait(framesToWait: int)
    | WaitBeats(beatsToWait: int)
    | Mirror
    | ResetAngle
    | SetParams(parameters: ShotParams)
    | SetDamage(damage: real)
    | SetPrefab(shotPrefabName: string)
  {
    /** The opcodes whose Execute returns false: they end this frame's execution. */
    predicate EndsFrame() {
      Wait? || WaitBeats?
    }
  }

  /** RepeatManager.RepeatItem: where to jump back to, and how many jumps remain. */
  datatype RepeatItem = RepeatItem(index: nat, count: nat)

  /** Every field of a ShotEmitter that its operations read or write. */
  datatype EmitterState = EmitterState(
    parameters: ShotParams,
    damage: real,
    shotPrefabName: string,
    mode: ShotMode,
    offset: int,
    mirrored: bool,
    index: nat,
    repeats: seq<RepeatItem>, // the repeat stack, top last
    waitFrames: int,
    waitBeats: int,
    lastAngle: int,
    overrideFire: bool)

  datatype StepResult = StepResult(next: bool, state: EmitterState)
  datatype TickResult = TickResult(running: bool, state: EmitterState)
  datatype EndResult = EndResult(jumped: bool, stack: seq<RepeatItem>, index: nat)

  /** The state Init leaves: every field at its C# default, the parameters from the inspector. */
  function InitialState(parameters: ShotParams): EmitterState {
    EmitterState(parameters, 0.0, "", Static, 0, false, 0, [], 0, 0, 0, false)
  }

  // ---------------------------------------------------------------- setters

  /** What the CurrentOffset setter stores for `value`. */
  function StoredOffset(value: int): (r: int)
    ensures -180 <= r <= 180
    ensures r == Wrap(value)
    ensures -180 <= value <= 180 ==> r == value
  {
    if -180 <= value <= 180 then value else Wrap(value)
  }

  function SetOffset(st: EmitterState, value: int): EmitterState {
    st.(offset := StoredOffset(value))
  }

  /** The CurrentMode setter. */
  function SetMode(st: EmitterState, value: ShotMode): EmitterState {
    if value == st.mode then st
    else if st.mode != Static && value == Static then SetOffset(st, st.lastAngle).(mode := value)
    else SetOffset(st, 0).(mode := value)
  }

  /** The three cases of the CurrentMode setter, and that setting a mode twice is setting it once. */
  lemma SetModeRules(st: EmitterState, value: ShotMode)
    ensures SetMode(st, st.mode) == st
    ensures st.mode != Static ==> SetMode(st, Static) == st.(mode := Static, offset := Wrap(st.lastAngle))
    ensures value != st.mode && (st.mode == Static || value != Static) ==>
              SetMode(st, value) == st.(mode := value, offset := 0)
    ensures SetMode(SetMode(st, value), value) == SetMode(st, value)
    ensures SetMode(st, value).mode == value
    ensures -180 <= st.offset <= 180 ==> -180 <= SetMode(st, value).offset <= 180
  {
  }

  // ---------------------------------------------------------------- the repeat stack

  function Top(stack: seq<RepeatItem>): RepeatItem
    requires stack != []
  {
    stack[|stack| - 1]
  }

  function Pop(stack: seq<RepeatItem>): seq<RepeatItem>
    requires stack != []
  {
    stack[..|stack| - 1]
  }

  /** The jumps still owed by the whole stack. */
  function SumCounts(stack: seq<RepeatItem>): nat {
    if stack == [] then 0 else SumCounts(Pop(stack)) + Top(stack).count
  }

  /** Every start index on the stack lies below n. */
  ghost predicate StackBelow(stack: seq<RepeatItem>, n: nat) {
    forall k :: 0 <= k < |stack| ==> stack[k].index < n
  }

  /** RepeatManager.EndSequence, with the ref index as input and result. */
  function EndRepeat(stack: seq<RepeatItem>, index: nat): (r: EndResult)
    ensures !r.jumped ==> r.index == index + 1
    ensures r.jumped ==> stack != [] && r.index == Top(stack).index && SumCounts(r.stack) < SumCounts(stack)
  {
    if stack == [] || Top(stack).count == 0 then EndResult(false, if stack == [] then [] else Pop(stack), index + 1)
    else
      var top := Top(stack);
      assert Pop(Pop(stack) + [top.(count := top.count - 1)]) == Pop(stack);
      EndResult(true, Pop(stack) + [top.(count := top.count - 1)], top.index)
  }

  /** EndSequence never adds a start index: every index left on the stack was on it before. */
  lemma EndRepeatKeepsStarts(stack: seq<RepeatItem>, index: nat, n: nat)
    requires StackBelow(stack, n)
    ensures StackBelow(EndRepeat(stack, index).stack, n)
    ensures EndRepeat(stack, index).jumped ==> EndRepeat(stack, index).index < n
  {
  }

  /** EndSequence on a top entry with jumps left: decrement it, keep it on top, jump to its start. */
  lemma EndRepeatOnLiveEntry(rest: seq<RepeatItem>, start: nat, count: nat, index: nat)
    requires count > 0
    ensures EndRepeat(rest + [RepeatItem(start, count)], index) == EndResult(true, rest + [RepeatItem(start, count - 1)], start)
  {
    assert Pop(rest + [RepeatItem(start, count)]) == rest;
  }

  /** EndSequence on an empty stack, or on an exhausted top entry: pop it and step past. */
  lemma EndRepeatFallsThrough(rest: seq<RepeatItem>, start: nat, index: nat)
    ensures EndRepeat([], index) == EndResult(false, [], index + 1)
    ensures EndRepeat(rest + [RepeatItem(start, 0)], index) == EndResult(false, rest, index + 1)
  {
    assert Pop(rest + [RepeatItem(start, 0)]) == rest;
  }

  /** How many consecutive EndSequence calls jump back before the first one falls through. */
  function JumpsBeforeFallThrough(stack: seq<RepeatItem>): nat
    decreases SumCounts(stack)
  {
    var r := EndRepeat(stack, 0);
    if r.jumped then 1 + JumpsBeforeFallThrough(r.stack) else 0
  }

  /** The stack once that first fall-through has happened. */
  function StackAfterFallThrough(stack: seq<RepeatItem>): seq<RepeatItem>
    decreases SumCounts(stack)
  {
    var r := EndRepeat(stack, 0);
    if r.jumped then StackAfterFallThrough(r.stack) else r.stack
  }

  /**
   * An entry pushed with count t makes exactly t jumps back to its start, and the
   * fall-through after them removes exactly that entry.
   */
  lemma {:induction false} PushedCountJumpsExactly(rest: seq<RepeatItem>, start: nat, t: nat)
    ensures JumpsBeforeFallThrough(rest + [RepeatItem(start, t)]) == t
    ensures StackAfterFallThrough(rest + [RepeatItem(start, t)]) == rest
    decreases t
  {
    if t == 0 {
      EndRepeatFallsThrough(rest, start, 0);
    } else {
      EndRepeatOnLiveEntry(rest, start, t, 0);
      PushedCountJumpsExactly(rest, start, t - 1);
    }
  }

  /**
   * ShotEmitter.RepeatStart: step past the opcode, and push (new index, times) only if
   * the new index is still inside the program.
   */
  function RepeatStartPush(stack: seq<RepeatItem>, index: nat, times: nat, length: nat): seq<RepeatItem> {
    if index + 1 == length then stack else stack + [RepeatItem(index + 1, times)]
  }

  /** Called from an opcode inside the program, RepeatStart only pushes starts that are inside it. */
  lemma RepeatStartKeepsStartsInside(stack: seq<RepeatItem>, index: nat, times: nat, length: nat)
    requires StackBelow(stack, length) && index < length
    ensures StackBelow(RepeatStartPush(stack, index, times, length), length)
  {
  }

  // ---------------------------------------------------------------- opcodes

  /** The effect and the result of one opcode's Execute(ref index) on its emitter. */
  function Step(a: Action, st: EmitterState): (r: StepResult)
    ensures r.state.index == st.index + 1
    ensures r.next <==> !a.EndsFrame()
    ensures r.state.repeats == st.repeats && r.state.mode == st.mode
    ensures r.state.lastAngle == st.lastAngle && r.state.overrideFire == st.overrideFire
    ensures -180 <= st.offset <= 180 ==> -180 <= r.state.offset <= 180
  {
    var s := st.(index := st.index + 1);
    match a
    case Wait(n) => StepResult(false, s.(waitFrames := n))
    case WaitBeats(n) => StepResult(false, s.(waitBeats := n))
    case Mirror => StepResult(true, s.(mirrored := !s.mirrored))
    case ResetAngle => StepResult(true, SetOffset(s, 0))
    case SetParams(p) => StepResult(true, s.(parameters := p))
    case SetDamage(d) => StepResult(true, s.(damage := d))
    case SetPrefab(name) => StepResult(true, s.(shotPrefabName := name))
  }

  /** EmitterWait: the frame counter is set and the frame ends; nothing else changes. */
  lemma WaitOpcode(n: int, st: EmitterState)
    ensures Step(Wait(n), st) == StepResult(false, st.(index := st.index + 1, waitFrames := n))
  {
  }

  /** EmitterWaitBeats: the beat counter is set and the frame ends; nothing else changes. */
  lemma WaitBeatsOpcode(n: int, st: EmitterState)
    ensures Step(WaitBeats(n), st) == StepResult(false, st.(index := st.index + 1, waitBeats := n))
  {
  }

  /** EmitterMirror toggles the mirror flag only (the offset is untouched), and twice restores it. */
  lemma MirrorOpcode(st: EmitterState)
    ensures Step(Mirror, st) == StepResult(true, st.(index := st.index + 1, mirrored := !st.mirrored))
    ensures Step(Mirror, Step(Mirror, st).state) == StepResult(true, st.(index := st.index + 2))
  {
    assert Step(Mirror, st).state.mirrored == !st.mirrored;
  }

  /** EmitterResetAngle zeroes the offset only, and executing it again changes nothing but the index. */
  lemma ResetAngleOpcode(st: EmitterState)
    ensures Step(ResetAngle, st) == StepResult(true, st.(index := st.index + 1, offset := 0))
    ensures Step(ResetAngle, Step(ResetAngle, st).state).state == Step(ResetAngle, st).state.(index := st.index + 2)
  {
  }

  /** EmitterSetParams, EmitterDamage and EmitterSetPrefab each replace one field only. */
  lemma SetterOpcodes(p: ShotParams, d: real, name: string, st: EmitterState)
    ensures Step(SetParams(p), st) == StepResult(true, st.(index := st.index + 1, parameters := p))
    ensures Step(SetDamage(d), st) == StepResult(true, st.(index := st.index + 1, damage := d))
    ensures Step(SetPrefab(name), st) == StepResult(true, st.(index := st.index + 1, shotPrefabName := name))
  {
  }

  // ---------------------------------------------------------------- Fire

  /** What GameManager.SpawnShot answers: whether a pooled shot was free, and the angle it leaves in `ref angle`. */
  datatype SpawnReply = SpawnReply(spawned: bool, angle: int)

  datatype FireResult = FireResult(requested: bool, stalled: bool, state: EmitterState)

  /**
   * ShotEmitter.Fire. The spawn request is an input: `spawnShot` stands for
   * GameManager.SpawnShot given the mode, the parameters and the recorded angle.
   */
  function FireSpec(st: EmitterState, spawnShot: (ShotMode, ShotParams, int) -> SpawnReply): (r: FireResult)
    ensures r.requested <==> !st.overrideFire
    ensures r.state == st.(lastAngle := r.state.lastAngle)
    ensures !r.requested ==> r.state.lastAngle == st.offset && !r.stalled
    ensures r.requested ==> r.state.lastAngle == spawnShot(st.mode, st.parameters, st.offset).angle
    ensures r.stalled <==> r.requested && !spawnShot(st.mode, st.parameters, st.offset).spawned
  {
    var s := st.(lastAngle := st.offset);
    if s.overrideFire then FireResult(false, false, s)
    else
      var reply := spawnShot(s.mode, s.parameters, s.lastAngle);
      FireResult(true, !reply.spawned, s.(lastAngle := reply.angle))
  }

  /**
   * Firing in a moving mode and then switching to Static freezes the emitter at the
   * angle the last shot actually took (the offset if firing was overridden).
   */
  lemma FireThenStaticKeepsLastAngle(st: EmitterState, spawnShot: (ShotMode, ShotParams, int) -> SpawnReply)
    requires st.mode != Static
    ensures var fired := FireSpec(st, spawnShot);
      SetMode(fired.state, Static).offset ==
        Wrap(if st.overrideFire then st.offset else spawnShot(st.mode, st.parameters, st.offset).angle)
  {
  }

  // ---------------------------------------------------------------- Tick

  /** The object invariant of a ShotEmitter running `program`. */
  ghost predicate ValidState(program: seq<Action>, st: EmitterState) {
    -180 <= st.offset <= 180 && StackBelow(st.repeats, |program|)
  }

  function Gap(length: nat, index: nat): nat {
    if index <= length then length - index else 0
  }

  /**
   * The do-while loop of ShotEmitter.Tick: at or past the end consult RepeatEnd (and stop
   * with false if it refuses), then execute the opcode at the index; go round again while
   * the opcode returns true.
   */
  function RunLoop(program: seq<Action>, st: EmitterState): (r: TickResult)
    requires ValidState(program, st)
    ensures ValidState(program, r.state)
    ensures r.running ==> 0 < r.state.index <= |program| && program[r.state.index - 1].EndsFrame()
    ensures !r.running ==> r.state.index > |program|
    ensures r.state.mode == st.mode && r.state.lastAngle == st.lastAngle && r.state.overrideFire == st.overrideFire
    decreases SumCounts(st.repeats), Gap(|program|, st.index)
  {
    if st.index >= |program| then
      var e := EndRepeat(st.repeats, st.index);
      EndRepeatKeepsStarts(st.repeats, st.index, |program|);
      var s := st.(repeats := e.stack, index := e.index);
      if !e.jumped then TickResult(false, s)
      else
        var r := Step(program[s.index], s);
        if r.next then RunLoop(program, r.state) else TickResult(true, r.state)
    else
      var r := Step(program[st.index], st);
      if r.next then RunLoop(program, r.state) else TickResult(true, r.state)
  }

  /** The rest of the do-while loop once the index is inside the program: execute, and go on if told to. */
  function RunLoopAfterEnd(program: seq<Action>, st: EmitterState): TickResult
    requires ValidState(program, st) && st.index < |program|
  {
    var r := Step(program[st.index], st);
    if r.next then RunLoop(program, r.state) else TickResult(true, r.state)
  }

  /** The instance ShotEmitter.Tick(overrideFire). */
  function TickSpec(program: seq<Action>, st: EmitterState, overrideFire: bool): (r: TickResult)
    requires ValidState(program, st)
    ensures ValidState(program, r.state)
  {
    var s := st.(overrideFire := overrideFire);
    if s.waitBeats > 0 then TickResult(true, s)
    else
      var s' := s.(waitFrames := s.waitFrames - 1);
      if s'.waitFrames > 0 then TickResult(true, s')
      else RunLoop(program, s')
  }

  /** ShotEmitter.OnBeat. */
  function BeatSpec(st: EmitterState): EmitterState {
    st.(waitBeats := st.waitBeats - 1)
  }

  /** ShotEmitter.Restart: offset, index and last angle go to 0, nothing else changes. */
  function RestartSpec(st: EmitterState): (r: EmitterState)
    ensures r == st.(offset := 0, index := 0, lastAngle := 0)
  {
    SetOffset(st.(lastAngle := 0, index := 0), 0)
  }

  /** `ticks` successive calls of Tick(overrideFire) with no beat in between. */
  function Ticks(program: seq<Action>, st: EmitterState, overrideFire: bool, ticks: nat): (r: EmitterState)
    requires ValidState(program, st)
    ensures ValidState(program, r)
    decreases ticks
  {
    if ticks == 0 then st else Ticks(program, TickSpec(program, st, overrideFire).state, overrideFire, ticks - 1)
  }

  /**
   * While a beat wait is pending, Tick reports "still running" and touches nothing,
   * the frame counter included; only OnBeat brings the counter down.
   */
  lemma {:induction false} BeatWaitFreezes(program: seq<Action>, st: EmitterState, ticks: nat)
    requires ValidState(program, st) && st.waitBeats > 0
    ensures TickSpec(program, st, st.overrideFire) == TickResult(true, st)
    ensures Ticks(program, st, st.overrideFire, ticks) == st
    ensures BeatSpec(st) == st.(waitBeats := st.waitBeats - 1)
    decreases ticks
  {
    if ticks > 0 {
      BeatWaitFreezes(program, st, ticks - 1);
    }
  }

  /**
   * With no beat wait pending and the frame counter at n, each of the next n - 1 calls of
   * Tick only decrements the counter and reports "still running": no opcode runs.
   */
  lemma {:induction false} FrameWaitCountsDown(program: seq<Action>, st: EmitterState, ticks: nat)
    requires ValidState(program, st) && st.waitBeats <= 0 && ticks < st.waitFrames
    ensures Ticks(program, st, st.overrideFire, ticks) == st.(waitFrames := st.waitFrames - ticks)
    ensures ticks + 1 < st.waitFrames ==>
              TickSpec(program, Ticks(program, st, st.overrideFire, ticks), st.overrideFire).running
    decreases ticks
  {
    if ticks > 0 {
      var s1 := TickSpec(program, st, st.overrideFire).state;
      assert s1 == st.(waitFrames := st.waitFrames - 1);
      FrameWaitCountsDown(program, s1, ticks - 1);
    }
  }

  /**
   * Tick reports "finished" only when it was at or past the end and RepeatEnd refused;
   * it reports "running" only after an opcode ended the frame (a wait), and the index
   * then points just past that opcode.
   */
  lemma TickResultMeaning(program: seq<Action>, st: EmitterState, overrideFire: bool)
    requires ValidState(program, st)
    ensures var r := TickSpec(program, st, overrideFire);
      (!r.running ==> r.state.index > |program| && st.waitBeats <= 0 && st.waitFrames <= 1) &&
      (r.running ==>
         (st.waitBeats > 0 && r.state == st.(overrideFire := overrideFire)) ||
         (st.waitBeats <= 0 && st.waitFrames > 1 && r.state == st.(overrideFire := overrideFire, waitFrames := st.waitFrames - 1)) ||
         (0 < r.state.index <= |program| && program[r.state.index - 1].EndsFrame()))
  {
  }

  /** A Tick that falls through the end of a program with no repeats pending leaves the index one past the end. */
  lemma {:induction false} TickWithoutWaitsFinishes(program: seq<Action>, st: EmitterState)
    requires ValidState(program, st) && st.repeats == [] && st.index <= |program|
    requires forall k :: st.index <= k < |program| ==> !program[k].EndsFrame()
    ensures RunLoop(program, st).running == false
    ensures RunLoop(program, st).state.index == |program| + 1
    ensures RunLoop(program, st).state.repeats == []
    decreases |program| - st.index
  {
    if st.index < |program| {
      var r := Step(program[st.index], st);
      TickWithoutWaitsFinishes(program, r.state);
    }
  }
}
