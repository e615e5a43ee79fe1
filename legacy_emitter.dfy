/**
 * The older emitter (Assets/Scripts/ShotEmitter.cs) and the opcodes written for it,
 * whose Execute() takes no index: the interpreter advances the index itself. Its
 * repeat list lives beside the program, and an explicit repeat end edits the program.
 */
module LegacyEmitters {
  import opened Angles

  /** ShotBase.ShotType; Aimed is the default (first) member. */
  datatype ShotType = Aimed | Static | Random

  /** The opcodes with the signature `bool Execute()`. */
  datatype LegacyAction =
    | ShotTypeOp(newShotType: ShotType)  // EmitterShotType
    | OffsetOp(degrees: int)             // EmitterOffset
    | RepeatStartOp(times: int)          // EmitterRepeatStart
  {
    /** The bounds the inspector declares: Range(-180, 180) on Degrees, Min(1) on Times. */
    predicate Declared() {
      match this
      case OffsetOp(d) => -180 <= d <= 180
      case RepeatStartOp(t) => t >= 1
      case _ => true
    }
  }

  /** An entry of the repeat list: the index to jump back to and the jumps left. */
  datatype LegacyRepeat = LegacyRepeat(index: int, count: int)

  datatype LegacyState = LegacyState(
    shotType: ShotType,
    offset: int,
    sequence: seq<LegacyAction>,
    index: int,
    repeats: seq<LegacyRepeat>, // the linked list, last entry last
    waitTime: real,
    lastAngle: int)

  datatype FireShot = FireShot(angle: int, state: LegacyState)
  datatype EndShot = EndShot(jumped: bool, state: LegacyState)
  datatype ExecShot = ExecShot(next: bool, state: LegacyState)

  /** How a call of Tick ended: a return, an index out of range, or the step bound of the model. */
  datatype TickOutcome = Returned | Faulted | OutOfFuel
  datatype LegacyTick = LegacyTick(outcome: TickOutcome, state: LegacyState)

  /** The state Start leaves: the attached actions, everything else at its default. */
  function LegacyInitial(sequence: seq<LegacyAction>): LegacyState {
    LegacyState(Aimed, 0, sequence, 0, [], 0.0, 0)
  }

  /** SetShotType: the same asymmetric rule as the newer CurrentMode setter, with no wrap on the restore. */
  function SetShotTypeSpec(st: LegacyState, shot: ShotType): (r: LegacyState)
    ensures r.shotType == shot
    ensures shot == st.shotType ==> r == st
    ensures shot != st.shotType && st.shotType != Static && shot == Static ==> r == st.(shotType := shot, offset := st.lastAngle)
    ensures shot != st.shotType && (st.shotType == Static || shot != Static) ==> r == st.(shotType := shot, offset := 0)
  {
    if shot == st.shotType then st
    else if st.shotType != Static && shot == Static then st.(offset := st.lastAngle, shotType := shot)
    else st.(offset := 0, shotType := shot)
  }

  /**
   * Fire's angle computation. `toPlayer` stands for AngleToPlayer() and `pick` for the
   * value of Random.Range(-offset, offset + 1).
   */
  function FireSpec(st: LegacyState, toPlayer: int, pick: int): (r: FireShot)
    ensures r.state == st.(lastAngle := r.angle)
    ensures st.shotType == Static ==> r.angle == st.offset
    ensures st.shotType == Aimed ==> r.angle == Wrap(toPlayer + st.offset)
    ensures st.shotType == Random ==> r.angle == Wrap(toPlayer + pick)
  {
    if st.shotType == Static then FireShot(st.offset, st.(lastAngle := st.offset))
    else
      var angle := toPlayer + (if st.shotType == Aimed then st.offset else pick);
      FireShot(Wrap(angle), st.(lastAngle := Wrap(angle)))
  }

  /** A moving fire lands in [-180, 180]; a Static one is exactly the offset, which stays in range while the offset does. */
  lemma FireAngleInRange(st: LegacyState, toPlayer: int, pick: int)
    requires st.shotType != Static || -180 <= st.offset <= 180
    ensures -180 <= FireSpec(st, toPlayer, pick).angle <= 180
  {
  }

  /**
   * An aimed shot, then a switch to Static, then a Static shot: the emitter keeps
   * firing in the direction of the last aimed shot.
   */
  lemma AimedThenStaticRepeatsAngle(st: LegacyState, toPlayer: int, pick: int, laterToPlayer: int, laterPick: int)
    requires st.shotType == Aimed
    ensures var first := FireSpec(st, toPlayer, pick);
      var second := FireSpec(SetShotTypeSpec(first.state, Static), laterToPlayer, laterPick);
      second.angle == first.angle && second.state.lastAngle == first.angle
  {
  }

  /** OffsetAngle: the offset moves by `degrees` and is wrapped, so it lands in [-180, 180]. */
  function OffsetAngleSpec(st: LegacyState, degrees: int): (r: LegacyState)
    ensures r == st.(offset := r.offset) && -180 <= r.offset <= 180
    ensures -180 <= st.offset + degrees <= 180 ==> r.offset == st.offset + degrees
  {
    st.(offset := Wrap(st.offset + degrees))
  }

  /** With the declared degrees and an in-range offset, Wrap is applied within [-360, 360], and no offset changes nothing. */
  lemma OffsetOpRange(st: LegacyState, degrees: int)
    requires -180 <= st.offset <= 180 && OffsetOp(degrees).Declared()
    ensures -360 <= st.offset + degrees <= 360
    ensures OffsetAngleSpec(st, 0) == st
  {
  }

  /** Wait: the deadline becomes now plus the waited beats. */
  function WaitSpec(st: LegacyState, beats: real, now: real, beatLength: real): (r: LegacyState)
    ensures r == st.(waitTime := now + beats * beatLength)
  {
    st.(waitTime := now + beats * beatLength)
  }

  /** RepeatStart: append (current index + 1, times). */
  function RepeatStartSpec(st: LegacyState, times: int): (r: LegacyState)
    ensures r == st.(repeats := st.repeats + [LegacyRepeat(st.index + 1, times)])
  {
    st.(repeats := st.repeats + [LegacyRepeat(st.index + 1, times)])
  }

  /** A removal of the current program element is possible (RemoveAt would throw otherwise). */
  predicate CanRemoveCurrent(st: LegacyState) {
    0 <= st.index < |st.sequence|
  }

  /** Whether this RepeatEnd removes the last repeat entry (its count drops to 0). */
  predicate ExhaustsLast(st: LegacyState) {
    st.repeats != [] && st.repeats[|st.repeats| - 1].count - 1 == 0
  }

  function RemoveAt<T>(s: seq<T>, i: int): seq<T>
    requires 0 <= i < |s|
  {
    s[..i] + s[i + 1..]
  }

  /** RepeatEnd(isImplicit). */
  function RepeatEndSpec(st: LegacyState, isImplicit: bool): (r: EndShot)
    requires !isImplicit && ExhaustsLast(st) ==> CanRemoveCurrent(st)
    ensures st.repeats == [] <==> !r.jumped
    ensures !r.jumped ==> r.state == st
    ensures r.state == st.(repeats := r.state.repeats, sequence := r.state.sequence, index := r.state.index)
    ensures r.jumped ==> r.state.index == st.repeats[|st.repeats| - 1].index
    ensures r.jumped && ExhaustsLast(st) ==> r.state.repeats == st.repeats[..|st.repeats| - 1]
    ensures r.jumped && !ExhaustsLast(st) ==>
              |r.state.repeats| == |st.repeats| &&
              r.state.repeats[..|st.repeats| - 1] == st.repeats[..|st.repeats| - 1] &&
              r.state.repeats[|st.repeats| - 1].count == st.repeats[|st.repeats| - 1].count - 1
    ensures r.jumped && ExhaustsLast(st) && !isImplicit ==> r.state.sequence == RemoveAt(st.sequence, st.index)
    ensures isImplicit || !ExhaustsLast(st) ==> r.state.sequence == st.sequence
  {
    if st.repeats == [] then EndShot(false, st)
    else
      var last := st.repeats[|st.repeats| - 1];
      var count := last.count - 1;
      var s := if count == 0 then
          var s1 := st.(repeats := st.repeats[..|st.repeats| - 1]);
          if !isImplicit then s1.(sequence := RemoveAt(s1.sequence, st.index)) else s1
        else st.(repeats := st.repeats[..|st.repeats| - 1] + [LegacyRepeat(last.index, count)]);
      EndShot(true, s.(index := last.index))
  }

  /** The state after `n` consecutive implicit RepeatEnd calls. */
  function ImplicitEnds(st: LegacyState, n: nat): LegacyState
    decreases n
  {
    if n == 0 then st else ImplicitEnds(RepeatEndSpec(st, true).state, n - 1)
  }

  /** What each of `n` consecutive implicit RepeatEnd calls did: whether it jumped, and the index it left. */
  function EndOutcomes(st: LegacyState, n: nat): seq<(bool, int)>
    decreases n
  {
    if n == 0 then []
    else
      var r := RepeatEndSpec(st, true);
      [(r.jumped, r.state.index)] + EndOutcomes(r.state, n - 1)
  }

  /** One RepeatEnd on a list whose last entry is (start, c): a jump to start, the entry decremented or removed. */
  lemma OneEnd(st: LegacyState, rest: seq<LegacyRepeat>, start: int, c: int, isImplicit: bool)
    requires st.repeats == rest + [LegacyRepeat(start, c)]
    requires !isImplicit && c - 1 == 0 ==> CanRemoveCurrent(st)
    ensures var r := RepeatEndSpec(st, isImplicit);
      r.jumped && r.state.index == start &&
      r.state.repeats == (if c - 1 == 0 then rest else rest + [LegacyRepeat(start, c - 1)]) &&
      r.state.waitTime == st.waitTime
  {
    assert st.repeats[..|st.repeats| - 1] == rest;
  }

  /**
   * Whether RepeatEnd is implicit decides only whether the program element is removed:
   * the jump, the new index and the new repeat list are the same.
   */
  lemma EndKindOnlyDecidesRemoval(st: LegacyState)
    requires ExhaustsLast(st) ==> CanRemoveCurrent(st)
    ensures var i, e := RepeatEndSpec(st, true), RepeatEndSpec(st, false);
      i.jumped == e.jumped && i.state.index == e.state.index && i.state.repeats == e.state.repeats &&
      i.state.sequence == st.sequence
  {
  }

  /**
   * An entry appended with times t >= 1 on top of any list makes exactly the next t
   * RepeatEnd calls jump back to its start, and is then gone, leaving the list below it.
   */
  lemma {:induction false} AppendedTimesJumpExactly(st: LegacyState, rest: seq<LegacyRepeat>, start: int, t: int)
    requires st.repeats == rest + [LegacyRepeat(start, t)] && t >= 1
    ensures EndOutcomes(st, t) == seq(t, _ => (true, start))
    ensures ImplicitEnds(st, t).repeats == rest
    decreases t
  {
    OneEnd(st, rest, start, t, true);
    var r := RepeatEndSpec(st, true).state;
    if t > 1 {
      AppendedTimesJumpExactly(r, rest, start, t - 1);
      assert EndOutcomes(st, t) == [(true, start)] + EndOutcomes(r, t - 1);
    }
  }

  /**
   * An entry appended with times t <= 0 is never exhausted: `--count == 0` never holds,
   * so every later RepeatEnd jumps back again and the entry stays on top, counting down.
   */
  lemma {:induction false} NonPositiveTimesNeverExhaust(st: LegacyState, rest: seq<LegacyRepeat>, start: int, t: int, calls: nat)
    requires st.repeats == rest + [LegacyRepeat(start, t)] && t <= 0
    ensures EndOutcomes(st, calls) == seq(calls, _ => (true, start))
    ensures ImplicitEnds(st, calls).repeats == rest + [LegacyRepeat(start, t - calls)]
    decreases calls
  {
    if calls > 0 {
      OneEnd(st, rest, start, t, true);
      var r := RepeatEndSpec(st, true).state;
      NonPositiveTimesNeverExhaust(r, rest, start, t - 1, calls - 1);
      assert EndOutcomes(st, calls) == [(true, start)] + EndOutcomes(r, calls - 1);
    }
  }

  /** One legacy opcode's Execute(): it never touches the index and always returns true. */
  function ExecuteSpec(a: LegacyAction, st: LegacyState): (r: ExecShot)
    ensures r.next && r.state.index == st.index
    ensures a.ShotTypeOp? ==> r.state == SetShotTypeSpec(st, a.newShotType)
    ensures a.OffsetOp? ==> r.state == OffsetAngleSpec(st, a.degrees)
    ensures a.RepeatStartOp? ==> r.state == RepeatStartSpec(st, a.times)
  {
    match a
    case ShotTypeOp(t) => ExecShot(true, SetShotTypeSpec(st, t))
    case OffsetOp(d) => ExecShot(true, OffsetAngleSpec(st, d))
    case RepeatStartOp(t) => ExecShot(true, RepeatStartSpec(st, t))
  }

  /** The offset stays in [-180, 180] across each legacy opcode: it becomes 0, a wrapped value or a recorded angle. */
  lemma ExecuteKeepsOffsetInRange(a: LegacyAction, st: LegacyState)
    requires -180 <= st.offset <= 180 && -180 <= st.lastAngle <= 180
    ensures -180 <= ExecuteSpec(a, st).state.offset <= 180
  {
  }

  /**
   * Tick's do-while loop, bounded by `fuel` further executions (the source loop has
   * no bound: with a non-positive repeat count it need not end).
   */
  function LegacyRun(st: LegacyState, now: real, fuel: nat): (r: LegacyTick)
    ensures r.state.sequence == st.sequence
    decreases fuel
  {
    if |st.sequence| == 0 then LegacyTick(Returned, st)
    else if st.index == |st.sequence| && st.repeats == [] then
      LegacyTick(Returned, st.(index := 0, offset := 0))
    else
      var s := if st.index == |st.sequence| then RepeatEndSpec(st, true).state else st;
      if now < s.waitTime then LegacyTick(Returned, s)
      else if !(0 <= s.index < |s.sequence|) then LegacyTick(Faulted, s)
      else
        var e := ExecuteSpec(s.sequence[s.index], s);
        var s' := e.state.(index := e.state.index + 1);
        if !e.next then LegacyTick(Returned, s')
        else if fuel == 0 then LegacyTick(OutOfFuel, s')
        else LegacyRun(s', now, fuel - 1)
  }

  /** With an empty program Tick does nothing. */
  lemma EmptyProgramIdle(st: LegacyState, now: real, fuel: nat)
    requires st.sequence == []
    ensures LegacyRun(st, now, fuel) == LegacyTick(Returned, st)
  {
  }

  /** At the end of the program with no repeat pending, Tick rewinds the index and zeroes the offset. */
  lemma EndRewinds(st: LegacyState, now: real, fuel: nat)
    requires |st.sequence| > 0 && st.index == |st.sequence| && st.repeats == []
    ensures LegacyRun(st, now, fuel) == LegacyTick(Returned, st.(index := 0, offset := 0))
  {
  }

  /** Before the wait deadline, Tick inside the program executes nothing. */
  lemma WaitingIdle(st: LegacyState, now: real, fuel: nat)
    requires 0 <= st.index < |st.sequence| && now < st.waitTime
    ensures LegacyRun(st, now, fuel) == LegacyTick(Returned, st)
  {
  }

  /** Inside the program and past the deadline, Tick executes the current opcode and then advances the index by exactly one. */
  lemma ExecutesThenAdvances(st: LegacyState, now: real, fuel: nat)
    requires 0 <= st.index < |st.sequence| && now >= st.waitTime && fuel > 0
    ensures var e := ExecuteSpec(st.sequence[st.index], st);
      e.state.index == st.index &&
      LegacyRun(st, now, fuel) == LegacyRun(e.state.(index := st.index + 1), now, fuel - 1)
  {
  }

  /**
   * A RepeatStart as the last opcode records a start one past the end; the implicit
   * RepeatEnd then jumps there and the next execution indexes outside the program.
   */
  lemma TrailingRepeatStartFaults(st: LegacyState, program: seq<LegacyAction>, times: int, now: real, fuel: nat)
    requires st.sequence == program + [RepeatStartOp(times)] && st.index == |program|
    requires now >= st.waitTime && fuel >= 1
    ensures LegacyRun(st, now, fuel).outcome == Faulted
  {
    var e := ExecuteSpec(RepeatStartOp(times), st);
    var s1 := e.state.(index := |program| + 1);
    assert s1.repeats == st.repeats + [LegacyRepeat(|program| + 1, times)];
    assert LegacyRun(st, now, fuel) == LegacyRun(s1, now, fuel - 1);
    OneEnd(s1, st.repeats, |program| + 1, times, true);
  }

  /** The older ShotEmitter. */
  class LegacyEmitter {
    var shotType: ShotType
    var offset: int
    var sequence: seq<LegacyAction>
    var index: int
    var repeats: seq<LegacyRepeat>
    var waitTime: real
    var lastAngle: int

    function State(): LegacyState
      reads this
    {
      LegacyState(shotType, offset, sequence, index, repeats, waitTime, lastAngle)
    }

    /** The emitter after Start: the attached actions in component order. */
    constructor (sequence: seq<LegacyAction>)
      ensures State() == LegacyInitial(sequence)
    {
      shotType, offset, this.sequence, index := Aimed, 0, sequence, 0;
      repeats, waitTime, lastAngle := [], 0.0, 0;
    }

    method SetShotType(shot: ShotType)
      modifies this
      ensures State() == SetShotTypeSpec(old(State()), shot)
    {
      if shot == shotType {
        return;
      }
      if shotType != Static && shot == Static {
        offset := lastAngle;
      } else {
        offset := 0;
      }
      shotType := shot;
    }

    /** Fire; the spawned shot itself is not modelled, only its angle. */
    method Fire(toPlayer: int, pick: int) returns (angle: int)
      modifies this
      ensures FireShot(angle, State()) == FireSpec(old(State()), toPlayer, pick)
    {
      if shotType == Static {
        lastAngle := offset;
        angle := offset;
        return;
      }
      angle := toPlayer;
      if shotType == Aimed {
        angle := angle + offset;
      } else if shotType == Random {
        angle := angle + pick;
      }
      angle := Wrap(angle);
      lastAngle := angle;
    }

    method OffsetAngle(degrees: int)
      modifies this
      ensures State() == OffsetAngleSpec(old(State()), degrees)
    {
      offset := Wrap(offset + degrees);
    }

    /** Wait; `now` stands for AudioSettings.dspTime and `beatLength` for GameManager.BeatLength. */
    method Wait(beats: real, now: real, beatLength: real)
      modifies this
      ensures State() == WaitSpec(old(State()), beats, now, beatLength)
    {
      waitTime := now + beats * beatLength;
    }

    method RepeatStart(times: int)
      modifies this
      ensures State() == RepeatStartSpec(old(State()), times)
    {
      repeats := repeats + [LegacyRepeat(index + 1, times)];
    }

    method RepeatEnd(isImplicit: bool) returns (jumped: bool)
      requires !isImplicit && ExhaustsLast(State()) ==> CanRemoveCurrent(State())
      modifies this
      ensures EndShot(jumped, State()) == RepeatEndSpec(old(State()), isImplicit)
    {
      if |repeats| == 0 {
        return false;
      }
      var last := repeats[|repeats| - 1];
      var count := last.count - 1;
      if count == 0 {
        repeats := repeats[..|repeats| - 1];
        if !isImplicit {
          sequence := RemoveAt(sequence, index);
        }
      } else {
        repeats := repeats[..|repeats| - 1] + [LegacyRepeat(last.index, count)];
      }
      index := last.index;
      return true;
    }

    /** Execute() of one legacy opcode on this emitter. */
    method Execute(a: LegacyAction) returns (next: bool)
      modifies this
      ensures ExecShot(next, State()) == ExecuteSpec(a, old(State()))
    {
      match a {
        case ShotTypeOp(t) => SetShotType(t);
        case OffsetOp(d) => OffsetAngle(d);
        case RepeatStartOp(t) => RepeatStart(t);
      }
      next := true;
    }

    /** Tick at audio time `now`, executing at most fuel + 1 opcodes. */
    method Tick(now: real, fuel: nat) returns (outcome: TickOutcome)
      modifies this
      ensures LegacyTick(outcome, State()) == LegacyRun(old(State()), now, fuel)
    {
      var left := fuel;
      while true
        invariant LegacyRun(State(), now, left) == LegacyRun(old(State()), now, fuel)
        decreases left
      {
        if |sequence| == 0 {
          return Returned;
        }
        if index == |sequence| {
          var jumped := RepeatEnd(true);
          if !jumped {
            index := 0;
            offset := 0;
            return Returned;
          }
        }
        if now < waitTime {
          return Returned;
        }
        if !(0 <= index < |sequence|) {
          return Faulted;
        }
        var next := Execute(sequence[index]);
        index := index + 1;
        if !next {
          return Returned;
        }
        if left == 0 {
          return OutOfFuel;
        }
        left := left - 1;
      }
    }
  }
}
