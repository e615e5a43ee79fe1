# A verified model of a beat-synchronised shooter's game logic

This project models the discrete game logic of a Unity bullet-hell shooter written in C#. It covers:

- the two generations of the attack-pattern **emitter interpreter**, with their opcodes;
- the **beat clock and spawn timeline** of the game manager;
- the **enemy-shot pool**;
- **enemy route stepping**;
- the player's **fire-burst buffer**;
- **shot hit resolution**;
- the **powerup pickup** state machine;
- the **spawn-table builder** of a stage.

Code that changes state in place is modelled as Dafny classes whose fields mirror the C# fields. Each class method is proved against a pure specification function over a value snapshot of the object (`State()`, `MoverOf()`, `ClockOf()`). The lemmas then prove the promised properties about those functions.

Modules:

- `Common` (common.dfy) holds the screen constants, `Vec2`, `TargetType`, `ShotParams` and `Option`.
- `Angles` (angles.dfy) holds the shared non-standard angle wrap.
- `EmitterCore` (emitter_core.dfy) covers the newer interpreter as values:
  - the opcodes of the `Execute(ref int index)` generation;
  - the repeat stack;
  - the mode and offset setters;
  - `Fire`;
  - the `Tick` loop (`RunLoop`, `TickSpec`).
- `Emitters` (emitter.dfy) holds the classes `RepeatManager` and `ShotEmitter`, the opcodes' `Execute` on an emitter, and the two static drivers over a group of emitters (`TickAll`, `BurstTick`).
- `LegacyEmitters` (legacy_emitter.dfy) covers the older interpreter, its `Execute()` opcodes, and its linked repeat list, which can delete program elements.
- `Timeline` (timeline.dfy) covers the stage/bar/beat clock with its deadlines, and the `(bar, beat)` spawn timeline.
- `Game` (game_manager.dfy) holds the class `GameManager`: pool set-up, the clock handlers, `SpawnEnemyShot` and the snapshot-count pool tick.
- `EnemyControl` (enemy.dfy) covers route stepping, the exit leg, health, pause correction and emitter gating.
- `PlayerControl` (player.dfy) covers `HandleFiring` and the declared `BombCount` (0..5) and `PowerCount` (0..4) ranges.
- `ShotControl` (shot.dfy) covers shot spawning, the shield and hurt passes, and off-screen retirement.
- `Powerups` (powerup.dfy) covers the extend/shield choice, the fall and triple timers, and pickup priority.
- `StageSetup` (stage_settings.dfy) covers the sort by height, the `SpawnInfo` records and the first-occurrence prefab list.

Audio time, the beat length, the angle to the player, random draws, physics overlap queries, shot spawning and shot movement are all inputs. Floats become exact `real`s, except the older emitter's shot angle and the player's frame budget. Those hold only integer values and are modelled as `int`s; see "## Left out".

## Behaviour worth knowing

- **Angle wrap.** `Wrap` returns values in the closed range [-180, 180]: `Wrap(360) == -180` and `Wrap(-180) == -180`. Its result also differs from the input by a half turn at ±360. See `Angles.WrapFullTurnIsHalfTurnOff`.
- **Newer repeat entries.** An entry pushed with count t makes exactly t jumps back, so the block runs t + 1 times. See `EmitterCore.PushedCountJumpsExactly`.
- **Older repeat list.** It also jumps t times for t ≥ 1. A count ≤ 0 never runs out. See `LegacyEmitters.NonPositiveTimesNeverExhaust`.
- **End-index check.** `EndSequence` does not check the index the end is reached from.
- **Offset and mirroring.** The older `OffsetAngle` ignores mirroring, and the newer generation has no offset opcode.
- **Restart.** `Restart` zeroes only the offset, the index and the last angle. It does not clear the repeat stack and does not tick.
- **Stage start.** `StartNextStage` sets the bar to -1 and leaves the beat counter unchanged.
- **Deadline tests.** All three deadlines are tested with a strict `>`.
- **Start deadline.** The first stage deadline is one second after start.

## Model

| member | source | states |
|---|---|---|
| Angles.Wrap | Assets/Scripts/EmitterActions/ShotEmitter.cs:113-126 | the result lies in [-180, 180], and inputs already in that range come back unchanged (the older Assets/Scripts/ShotEmitter.cs:26-39 is the same function) |
| Angles.WrapIdempotent | Assets/Scripts/EmitterActions/ShotEmitter.cs:113-126 | wrapping twice equals wrapping once |
| Angles.WrapExamples | Assets/Scripts/EmitterActions/ShotEmitter.cs:113-126 | Wrap(181) = -179, Wrap(-181) = 179, Wrap(270) = -90, Wrap(-270) = 90, Wrap(360) = -180, Wrap(-360) = 180 |
| Angles.WrapSameDirection | Assets/Scripts/ShotEmitter.cs:26-39 | for inputs strictly between -360 and 360 the wrapped angle is the same direction (differs by a multiple of 360) |
| Angles.WrapFullTurnIsHalfTurnOff | Assets/Scripts/EmitterActions/ShotEmitter.cs:113-126 | at ±360 the wrapped value is off from the input by a half turn, so the wrap is not a mod-360 reduction |
| EmitterCore.StoredOffset | Assets/Scripts/EmitterActions/ShotEmitter.cs:44-57 | the CurrentOffset setter stores a value in [-180, 180], stores in-range values verbatim, and otherwise stores Wrap(value) |
| EmitterCore.SetModeRules | Assets/Scripts/EmitterActions/ShotEmitter.cs:20-41 | setting the current mode again changes nothing; non-Static to Static sets the offset to the wrapped last angle; every other change sets it to 0; the mode is set, the offset stays in range, and a repeated call is idempotent |
| EmitterCore.EndRepeat | Assets/Scripts/EmitterActions/ShotEmitter.cs:86-101 | a refused end steps past (index + 1); a jump returns the top entry's start and strictly lowers the sum of the stack's counts |
| EmitterCore.EndRepeatOnLiveEntry | Assets/Scripts/EmitterActions/ShotEmitter.cs:95-100 | a top entry with count > 0 is decremented, kept on top, and its start is the new index |
| EmitterCore.EndRepeatFallsThrough | Assets/Scripts/EmitterActions/ShotEmitter.cs:88-93 | an empty stack, or a top entry with count 0, pops it, returns false and steps to index + 1 |
| EmitterCore.PushedCountJumpsExactly | Assets/Scripts/EmitterActions/ShotEmitter.cs:81-101 | an entry pushed with count t causes exactly t jumps back, after which it is popped and the stack below is restored |
| EmitterCore.EndRepeatKeepsStarts | Assets/Scripts/EmitterActions/ShotEmitter.cs:86-101 | if every stack entry starts below n, that stays true after an end, and a jump target is below n |
| EmitterCore.RepeatStartKeepsStartsInside | Assets/Scripts/EmitterActions/ShotEmitter.cs:194-202 | RepeatStart pushes only starts inside the sequence, so every entry's start is below its length |
| EmitterCore.Step | Assets/Scripts/EmitterActions/EmitterAction.cs:12-13 | every opcode advances the counter by exactly one, returns true exactly when it is not a wait, and leaves the repeat stack, mode, last angle and override untouched |
| EmitterCore.WaitOpcode | Assets/Scripts/EmitterActions/EmitterWait.cs:12-17 | index + 1, WaitFrames := FramesToWait, returns false, no other field changes |
| EmitterCore.WaitBeatsOpcode | Assets/Scripts/EmitterActions/EmitterWaitBeats.cs:10-15 | index + 1, WaitBeats := BeatsToWait, returns false, no other field changes |
| EmitterCore.MirrorOpcode | Assets/Scripts/EmitterActions/EmitterMirror.cs:8-13 | index + 1, IsMirrored negated, returns true, nothing else changes (offset included); twice restores the flag |
| EmitterCore.ResetAngleOpcode | Assets/Scripts/EmitterActions/EmitterResetAngle.cs:7-12 | index + 1, offset 0, returns true, mode and mirror untouched; idempotent apart from the index |
| EmitterCore.SetterOpcodes | Assets/Scripts/EmitterActions/EmitterSetParams.cs:10-15 | SetParams, Damage and SetPrefab each advance the index by one, set their one field, return true and change nothing else |
| EmitterCore.FireSpec | Assets/Scripts/EmitterActions/ShotEmitter.cs:179-191 | the last angle is first set to the offset; with override no shot is requested; otherwise the spawner may rewrite the last angle, and a refused spawn only stalls; no other field changes |
| EmitterCore.FireThenStaticKeepsLastAngle | Assets/Scripts/EmitterActions/ShotEmitter.cs:179-191 | after a fire in a moving mode, switching to Static freezes the offset at the angle just fired |
| EmitterCore.RunLoop | Assets/Scripts/EmitterActions/ShotEmitter.cs:235-247 | the do-while loop ends either after a frame-ending opcode inside the sequence (running) or past the end with the repeat end refused (not running), never indexing outside the sequence, with mode, last angle and override unchanged |
| EmitterCore.RestartSpec | Assets/Scripts/EmitterActions/ShotEmitter.cs:221-224 | Restart zeroes exactly offset, index and last angle; the repeat stack, waits, mode and mirror flag are untouched |
| EmitterCore.BeatWaitFreezes | Assets/Scripts/EmitterActions/ShotEmitter.cs:230-233 | while WaitBeats > 0 every tick returns true and changes nothing (not even WaitFrames), and OnBeat only decrements WaitBeats |
| EmitterCore.FrameWaitCountsDown | Assets/Scripts/EmitterActions/ShotEmitter.cs:230-233 | with no beat wait, each tick only decrements WaitFrames and returns true while the result stays above 0 |
| EmitterCore.TickResultMeaning | Assets/Scripts/EmitterActions/ShotEmitter.cs:227-248 | Tick returns false only past the end with the repeat end refused and no wait pending; a true result is a beat wait, a frame wait, or a stop after a frame-ending opcode |
| EmitterCore.TickWithoutWaitsFinishes | Assets/Scripts/EmitterActions/ShotEmitter.cs:235-247 | with an empty repeat stack and no frame-ending opcode left, the loop runs past the end in one tick, reports finished and leaves the stack empty |
| Emitters.RepeatManager.StartSequence | Assets/Scripts/EmitterActions/ShotEmitter.cs:81-84 | pushes (index, times) on top |
| Emitters.RepeatManager.EndSequence | Assets/Scripts/EmitterActions/ShotEmitter.cs:86-101 | the jump flag, the new stack and the new index are those of EndRepeat |
| Emitters.ShotEmitter.constructor | Assets/Scripts/EmitterActions/ShotEmitter.cs:210-219 | the attached program, every field at its default, an empty repeat stack |
| Emitters.ShotEmitter.SetCurrentOffset | Assets/Scripts/EmitterActions/ShotEmitter.cs:44-57 | the new state is SetOffset of the old |
| Emitters.ShotEmitter.SetCurrentMode | Assets/Scripts/EmitterActions/ShotEmitter.cs:20-41 | the new state is SetMode of the old |
| Emitters.ShotEmitter.RepeatStart | Assets/Scripts/EmitterActions/ShotEmitter.cs:194-202 | index + 1 is returned, and the entry is pushed only when that is still inside the sequence |
| Emitters.ShotEmitter.RepeatEnd | Assets/Scripts/EmitterActions/ShotEmitter.cs:205-208 | delegates to EndSequence |
| Emitters.ShotEmitter.Fire | Assets/Scripts/EmitterActions/ShotEmitter.cs:179-191 | requested, stalled and the new state are those of FireSpec |
| Emitters.ShotEmitter.Restart | Assets/Scripts/EmitterActions/ShotEmitter.cs:221-224 | the new state is RestartSpec of the old |
| Emitters.ShotEmitter.OnBeat | Assets/Scripts/EmitterActions/ShotEmitter.cs:250-253 | only WaitBeats is decremented |
| Emitters.ShotEmitter.Tick | Assets/Scripts/EmitterActions/ShotEmitter.cs:227-248 | the loop terminates and its result and new state are TickSpec of the old state (wait gating, then RunLoop) |
| Emitters.ShotEmitter.RunProgram | Assets/Scripts/EmitterActions/ShotEmitter.cs:235-247 | the do-while loop terminates, and its result and new state are RunLoop of the old state |
| Emitters.Execute | Assets/Scripts/EmitterActions/EmitterAction.cs:13 | an opcode acts only on its owning emitter, determines the next counter, and its result is Step's |
| Emitters.ExecuteSetMode | Assets/Scripts/EmitterActions/EmitterSetMode.cs:10-14 | one CurrentMode change to NewMode, always true, counter untouched |
| Emitters.TickAll | Assets/Scripts/EmitterActions/ShotEmitter.cs:163-177 | a null group reports false; otherwise every emitter is ticked (no short circuit) and the result is whether any reports running |
| Emitters.RestartAll | Assets/Scripts/EmitterActions/ShotEmitter.cs:156-159 | every emitter of the group is restarted |
| Emitters.BurstDecision | Assets/Scripts/EmitterActions/ShotEmitter.cs:128-160 | fireFrames drops by one; a firing group is ticked; all are restarted exactly when not still firing and the budget is ≥ 0; firing afterwards iff still running or restarted |
| Emitters.BurstRestartsOnlyFinished | Assets/Scripts/EmitterActions/ShotEmitter.cs:136-159 | a restart never interrupts a running burst, a running burst keeps firing, and going idle implies a negative budget |
| Emitters.HeldTriggerKeepsFiring | Assets/Scripts/EmitterActions/ShotEmitter.cs:135-155 | with a refreshed budget of at least one frame the driver is firing after the call |
| Emitters.ReleasedTriggerStaysIdle | Assets/Scripts/EmitterActions/ShotEmitter.cs:135-153 | driving the decision repeatedly on its own outputs from idle with a budget below 1: the driver stays idle after every call, whatever the emitters report, and the budget drops by one per call |
| Emitters.BurstTick | Assets/Scripts/EmitterActions/ShotEmitter.cs:128-160 | null group: nothing changes; otherwise the firing flag, the budget and every emitter's state follow BurstDecision |
| LegacyEmitters.SetShotTypeSpec | Assets/Scripts/ShotEmitter.cs:48-65 | the current type again is a no-op; non-Static to Static restores the last angle; anything else resets the offset to 0 |
| LegacyEmitters.FireSpec | Assets/Scripts/ShotEmitter.cs:67-89 | Static fires at exactly the offset; Aimed at Wrap(toPlayer + offset); Random at Wrap(toPlayer + draw); the last angle is the fired angle |
| LegacyEmitters.FireAngleInRange | Assets/Scripts/ShotEmitter.cs:72-88 | the fired angle lies in [-180, 180] (for Static, whenever the offset does) |
| LegacyEmitters.AimedThenStaticRepeatsAngle | Assets/Scripts/ShotEmitter.cs:48-89 | an Aimed fire followed by a switch to Static makes the next fire repeat the same angle |
| LegacyEmitters.OffsetAngleSpec | Assets/Scripts/ShotEmitter.cs:92-95 | the offset becomes Wrap(offset + degrees), in [-180, 180]; nothing else changes |
| LegacyEmitters.OffsetOpRange | Assets/Scripts/EmitterActions/EmitterOffset.cs:7-13 | with Degrees in its declared range the wrap input lies in [-360, 360], and Degrees = 0 keeps an in-range offset |
| LegacyEmitters.WaitSpec | Assets/Scripts/ShotEmitter.cs:97-100 | the deadline becomes now + beats × beat length |
| LegacyEmitters.RepeatStartSpec | Assets/Scripts/ShotEmitter.cs:103-106 | appends (index + 1, times) |
| LegacyEmitters.RepeatEndSpec | Assets/Scripts/ShotEmitter.cs:109-132 | empty list: false, no change; otherwise decrement and always jump to the start, removing the entry at 0 and, on an explicit end, the current program element |
| LegacyEmitters.OneEnd | Assets/Scripts/ShotEmitter.cs:109-132 | an end on a list whose last entry is (start, c) jumps to start and decrements the entry, or removes it when the count reaches 0, leaving the entries below and the wait deadline alone |
| LegacyEmitters.EndKindOnlyDecidesRemoval | Assets/Scripts/ShotEmitter.cs:109-132 | implicit and explicit ends agree on the jump, the new index and the new repeat list; only the explicit one edits the program |
| LegacyEmitters.AppendedTimesJumpExactly | Assets/Scripts/ShotEmitter.cs:103-132 | an entry appended with t ≥ 1 on top of any list makes each of the next t ends jump back to its start, after which the list is the one below it |
| LegacyEmitters.NonPositiveTimesNeverExhaust | Assets/Scripts/ShotEmitter.cs:116-128 | an entry with t ≤ 0 on top of any list jumps back on every one of any number n of ends and stays on top with count t - n |
| LegacyEmitters.ExecuteSpec | Assets/Scripts/EmitterActions/EmitterShotType.cs:10-14 | ShotType, Offset and RepeatStart each make exactly one call of their emitter operation, return true and leave the index alone |
| LegacyEmitters.ExecuteKeepsOffsetInRange | Assets/Scripts/EmitterActions/EmitterShotType.cs:12 | after any older opcode the offset is still in [-180, 180] |
| LegacyEmitters.EmptyProgramIdle | Assets/Scripts/ShotEmitter.cs:159-162 | Tick on an empty sequence does nothing |
| LegacyEmitters.EndRewinds | Assets/Scripts/ShotEmitter.cs:164-170 | at the end with no repeat left, Tick resets index and offset to 0 and returns |
| LegacyEmitters.WaitingIdle | Assets/Scripts/ShotEmitter.cs:172-175 | before the wait deadline nothing is executed |
| LegacyEmitters.ExecutesThenAdvances | Assets/Scripts/ShotEmitter.cs:177-178 | an executed action leaves the index to Tick, which adds exactly one and continues |
| LegacyEmitters.TrailingRepeatStartFaults | Assets/Scripts/ShotEmitter.cs:164-178 | for any program ending in a RepeatStart, any repeat list and any count, a Tick that executes that RepeatStart ends with the index outside the sequence |
| LegacyEmitters.LegacyEmitter.SetShotType | Assets/Scripts/ShotEmitter.cs:48-65 | the new state is SetShotTypeSpec of the old |
| LegacyEmitters.LegacyEmitter.Fire | Assets/Scripts/ShotEmitter.cs:67-89 | the angle and new state are FireSpec's |
| LegacyEmitters.LegacyEmitter.OffsetAngle | Assets/Scripts/ShotEmitter.cs:92-95 | the new state is OffsetAngleSpec of the old |
| LegacyEmitters.LegacyEmitter.Wait | Assets/Scripts/ShotEmitter.cs:97-100 | the new state is WaitSpec of the old |
| LegacyEmitters.LegacyEmitter.RepeatStart | Assets/Scripts/ShotEmitter.cs:103-106 | the new state is RepeatStartSpec of the old |
| LegacyEmitters.LegacyEmitter.RepeatEnd | Assets/Scripts/ShotEmitter.cs:109-132 | the result and new state are RepeatEndSpec's |
| LegacyEmitters.LegacyEmitter.Execute | Assets/Scripts/EmitterActions/EmitterShotType.cs:10-14 | the result and new state are ExecuteSpec's |
| LegacyEmitters.LegacyEmitter.Tick | Assets/Scripts/ShotEmitter.cs:154-181 | the outcome and new state are those of LegacyRun |
| Timeline.StageStep | Assets/Scripts/GameManager.cs:61-80 | the stage wraps to 0 and the loop counter grows at the end of the list; bar -1; both deadlines at the stage start; the stage deadline after the track length; beat length 60/BPM and bar length four beats |
| Timeline.AdvanceWith | Assets/Scripts/GameManager.cs:141-153 | at most one of stage, bar or beat fires per tick, in that priority, each by a strict comparison with its deadline |
| Timeline.StartClockValid | Assets/Scripts/GameManager.cs:42-54 | the clock Start leaves satisfies the invariant |
| Timeline.AdvanceKeepsClockValid | Assets/Scripts/GameManager.cs:102-127 | (corrected bar step) every tick keeps nextBar - nextBeat = (3 - beat) beat lengths, so the beat counter stays in 0..3 |
| Timeline.AsWrittenKeepsTempo | Assets/Scripts/GameManager.cs:102-127 | with the bar step as written, every tick keeps the stage and bar in range, the bar four beats long and, just after a stage starts, both deadlines together; only the beat phase can be lost |
| Timeline.BarStepsAgreeOnTime | Assets/Scripts/GameManager.cs:102-114 | when a bar fires on time the written and the corrected bar steps coincide |
| Timeline.StallPushesBeatPastBar | Assets/Scripts/GameManager.cs:109-112 | as written, a bar that fires while beats lag keeps the lagging beat deadline, and the beat counter reaches 4 within the bar |
| Timeline.StallRecoversWhenIntended | Assets/Scripts/GameManager.cs:109-112 | with the corrected step the same stall yields beat 0 with the next beat one beat after the bar |
| Timeline.OverlayLastWins | Assets/Scripts/GameManager.cs:30-40 | the timeline holds a key exactly when some spawn has it, and keeps only the last spawn per (bar, beat) |
| Timeline.TrySpawning | Assets/Scripts/GameManager.cs:82-100 | nothing when the key is absent or the enemy is null; otherwise that lane and enemy |
| Timeline.SpawnOnlyOnBoundary | Assets/Scripts/GameManager.cs:102-127 | only a bar or beat boundary during a stage spawns; a bar increments bar and sets beat 0; a beat increments only the beat |
| Game.Ids | Assets/Scripts/GameManager.cs:45-50 | the pool creates exactly pool-size distinct shots in order |
| Game.KeptRetiredPartition | Assets/Scripts/GameManager.cs:156-173 | the kept and retired shots together are exactly the active shots |
| Game.KeptHoldsOnScreenShots | Assets/Scripts/GameManager.cs:156-173 | every on-screen shot is re-enqueued, and with none off screen the queue is unchanged |
| Game.KeptKeepsOrder | Assets/Scripts/GameManager.cs:156-173 | the kept shots of a queue split in two are those of its front followed by those of its back, so re-enqueuing never reorders |
| Game.SplitPool | Assets/Scripts/GameManager.cs:156-173 | the snapshot-count loop processes each active shot once, keeping its order, retiring exactly the off-screen ones |
| Game.ShotsConserved | Assets/Scripts/GameManager.cs:156-173 | inactive plus active shots are conserved by the tick |
| Game.GameManager.constructor | Assets/Scripts/GameManager.cs:42-54 | pool-size inactive shots, no active shot, timelines built, first stage deadline at now + 1 |
| Game.GameManager.InitTimelines | Assets/Scripts/GameManager.cs:30-40 | each stage's timeline is overlaid with its spawns, last one winning |
| Game.GameManager.StartNextStage | Assets/Scripts/GameManager.cs:61-80 | the clock becomes StageStep of the old clock; pool and timelines untouched |
| Game.GameManager.StartNextBar | Assets/Scripts/GameManager.cs:102-114 | (corrected bar step: the beat deadline becomes the old bar deadline plus a beat, where line 111 adds a beat to the old beat deadline) no change before the first stage; otherwise bar + 1, beat 0, both deadlines advanced, and the spawn of the new (bar, beat) |
| Game.GameManager.StartNextBeat | Assets/Scripts/GameManager.cs:116-127 | no change before the first stage; otherwise beat + 1, only the beat deadline advanced, and the spawn of the new (bar, beat) |
| Game.GameManager.SpawnEnemyShot | Assets/Scripts/GameManager.cs:129-136 | a no-op on an empty inactive queue, otherwise the front inactive shot moves to the back of active; the pool count is conserved |
| Game.GameManager.TickShots | Assets/Scripts/GameManager.cs:155-173 | active becomes the kept shots in order, the off-screen ones join the back of inactive, and the pool stays a partition |
| Game.GameManager.FixedUpdate | Assets/Scripts/GameManager.cs:138-174 | (corrected bar step) one clock advance and its spawn, then the pool tick, keeping the clock and pool invariants |
| EnemyControl.StartMoveSpec | Assets/Scripts/EnemyController.cs:56-75 | mirroring negates x; zero beats snaps position and destination with no timed move; otherwise the deadline is now + beats × beat length |
| EnemyControl.ExitSpec | Assets/Scripts/EnemyController.cs:155-160 | sets exiting and moves to (x, -halfH - 1) over 4 beats |
| EnemyControl.ExitIgnoresMirror | Assets/Scripts/EnemyController.cs:155-160 | the exit destination is the same whatever the mirror flag |
| EnemyControl.SpawnSpec | Assets/Scripts/EnemyController.cs:82-104 | resets exiting, copies IsMirrored and activates; a null or empty route exits at once; otherwise the first point starts and the rest stay queued in order |
| EnemyControl.MoverBeatSpec | Assets/Scripts/EnemyController.cs:162-182 | ignored while exiting; otherwise decrements, and only at ≤ 0 starts the next point or exits on an empty queue |
| EnemyControl.LegLastsItsBeats | Assets/Scripts/EnemyController.cs:162-182 | a leg of b beats only counts down for b - 1 beats and advances or exits on the b-th |
| EnemyControl.ExitingIgnoresBeats | Assets/Scripts/EnemyController.cs:164-167 | once exiting, any number of beats changes nothing |
| EnemyControl.UnpauseSpec | Assets/Scripts/EnemyController.cs:189-193 | the deadline moves by exactly the lost time |
| EnemyControl.TickMove | Assets/Scripts/EnemyController.cs:112-137 | Tick returns false, deactivating, exactly when exiting and the deadline has passed; emitters run only at or above the cutoff height |
| EnemyControl.DespawnOnlyAfterExit | Assets/Scripts/EnemyController.cs:126-134 | a spawn without route despawns once its 4-beat exit leg is over; an enemy not exiting is never despawned |
| EnemyControl.EnemyController.StartMove | Assets/Scripts/EnemyController.cs:56-75 | the new movement state is StartMoveSpec of the old |
| EnemyControl.EnemyController.ExitStage | Assets/Scripts/EnemyController.cs:155-160 | the new movement state is ExitSpec of the old |
| EnemyControl.EnemyController.Spawn | Assets/Scripts/EnemyController.cs:82-104 | the new movement state is SpawnSpec of the old |
| EnemyControl.EnemyController.TryDie | Assets/Scripts/EnemyController.cs:106-109 | Health drops by count, and the result is true exactly when the new Health is ≤ 0 |
| EnemyControl.EnemyController.OnBeat | Assets/Scripts/EnemyController.cs:162-182 | the new movement state is MoverBeatSpec of the old |
| EnemyControl.EnemyController.OnUnpause | Assets/Scripts/EnemyController.cs:189-193 | the new movement state is UnpauseSpec of the old |
| EnemyControl.EnemyController.Tick | Assets/Scripts/EnemyController.cs:112-153 | result and movement as TickMove; below the cutoff no emitter changes; otherwise all are ticked and, when none still fires, all restarted |
| PlayerControl.BudgetAfter | Assets/Scripts/PlayerController.cs:43-50 | while fire is pressed the budget is refreshed to ShotTimeBuffer, and it is decremented exactly once per call |
| PlayerControl.PlayerController.HandleFiring | Assets/Scripts/PlayerController.cs:41-75 | the group chosen by PowerCount is driven as BurstDecision says: ticked while firing, restarted (without a tick) only when not still firing with budget ≥ 0; power, bombs and shield untouched |
| ShotControl.Examined | Assets/Scripts/ShotController.cs:67-72 | at most the first 16 overlap results are examined |
| ShotControl.FindOwned | Assets/Scripts/ShotController.cs:73-83 | the scan finds an overlap exactly when one of the examined results belongs to this enemy, skipping the others |
| ShotControl.Resolve | Assets/Scripts/ShotController.cs:65-102 | shields are checked first; hurt boxes only when no owned shield overlaps; otherwise a miss |
| ShotControl.OnlyOwnedOverlapsMatter | Assets/Scripts/ShotController.cs:75-92 | overlaps owned by other enemies do not affect the outcome in either pass |
| ShotControl.LateOverlapsUnseen | Assets/Scripts/ShotController.cs:67-72 | when neither query has an owned collider among its first 16 results the shot misses, whatever the later results are |
| ShotControl.LayerAfterSpawn | Assets/Scripts/ShotController.cs:53-56 | the layer becomes HitLayer only when the target is not the player |
| ShotControl.ShotController.Spawn | Assets/Scripts/ShotController.cs:46-62 | target, speed, damage, angle and position are copied, the layer follows LayerAfterSpawn, and the shot is active |
| ShotControl.ShotController.TryDamageEnemy | Assets/Scripts/ShotController.cs:65-102 | a shield hit deactivates with the total unchanged; a hurt hit adds Damage exactly once and deactivates; a miss changes nothing and returns false |
| ShotControl.ShotController.TryDamagePlayer | Assets/Scripts/ShotController.cs:104-113 | a point overlap deactivates and returns true; otherwise false with no change |
| ShotControl.ShotController.Tick | Assets/Scripts/ShotController.cs:115-126 | after moving, the shot is retired exactly when \|x\| > halfW + 1 or \|y\| > halfH + 1 |
| Powerups.SpawnSpec | Assets/Scripts/PowerupController.cs:36-59 | the extend variant exactly when SpawnExtend and the player is shielded, which clears the flag; both timers reset to their durations |
| Powerups.ExtendSpawnsOnce | Assets/Scripts/PowerupController.cs:39-46 | after an extend spawn the next spawn is the shield variant |
| Powerups.TickSpec | Assets/Scripts/PowerupController.cs:62-142 | the fall timer is decremented first and at ≤ 0 despawns before any award; false is returned exactly on the despawning paths |
| Powerups.TickAwards | Assets/Scripts/PowerupController.cs:82-133 | a finished triple timer grants shield-or-extend, power and bomb in that order; otherwise at most one pickup, by priority shield/extend, power, bomb |
| Powerups.TripleTimerRule | Assets/Scripts/PowerupController.cs:80-108 | inside the radius the triple timer drains by the elapsed time; outside it is reset to TripleDuration |
| Powerups.HoverDrainsTripleTimer | Assets/Scripts/PowerupController.cs:80-103 | hovering without touching a pickup, both timers drain by n ticks and the powerup stays while both are positive |
| Powerups.PowerupController.Spawn | Assets/Scripts/PowerupController.cs:36-59 | the new state and flag are SpawnSpec's |
| Powerups.PowerupController.Tick | Assets/Scripts/PowerupController.cs:62-142 | result, awards and new state are TickSpec's |
| StageSetup.RoundToInt | Assets/ScriptableObjects/StageSettings/StageSettings.cs:34 | rounds to a nearest integer, halves to the even one |
| StageSetup.RoundMonotone | Assets/ScriptableObjects/StageSettings/StageSettings.cs:34 | rounding is monotone |
| StageSetup.PrefixBeforeSpace | Assets/ScriptableObjects/StageSettings/StageSettings.cs:36 | the prefab name is a prefix of the object name with no space, ending at the first space or the end |
| StageSetup.PrefixOfSpacelessName | Assets/ScriptableObjects/StageSettings/StageSettings.cs:36 | a name without spaces is its own prefab name |
| StageSetup.MakeSpawnInfo | Assets/ScriptableObjects/StageSettings/StageSettings.cs:32-38 | Beat is y rounded, Lane is x, the parameters are copied, the prefab name is the space-free prefix |
| StageSetup.SortByHeight | Assets/ScriptableObjects/StageSettings/StageSettings.cs:70 | the array is sorted by non-decreasing y and is a permutation of the input |
| StageSetup.SortedHeightsGiveOrderedBeats | Assets/ScriptableObjects/StageSettings/StageSettings.cs:70-75 | records built from spawnables sorted by height have non-decreasing beats |
| StageSetup.InfosPermutation | Assets/ScriptableObjects/StageSettings/StageSettings.cs:70-75 | permuting the spawnables permutes the records, so there is one record per spawnable |
| StageSetup.FirstOccurrences | Assets/ScriptableObjects/StageSettings/StageSettings.cs:76-79 | holds exactly the names that occur |
| StageSetup.FirstOccurrencesOrdered | Assets/ScriptableObjects/StageSettings/StageSettings.cs:76-79 | no duplicates, listed in first-occurrence order |
| StageSetup.BuildTable | Assets/ScriptableObjects/StageSettings/StageSettings.cs:72-81 | one record per sorted spawnable in order, and the first-occurrence list of their prefab names |
| StageSetup.PrefabsMatchSpawns | Assets/ScriptableObjects/StageSettings/StageSettings.cs:72-81 | every record's prefab name is listed, every listed name comes from a record, none twice |
| StageSetup.StageSettings.Init | Assets/ScriptableObjects/StageSettings/StageSettings.cs:56-82 | Prefabs always cleared; no pattern or no spawnables leaves Spawns unchanged; otherwise the records are those of the spawnables in an order sorted by height (one per spawnable, so beats ascend), with the first-occurrence prefab list |

## Left out

- Rendering, animation, UI and audio playback. None of these affects the modelled state.
- The audio clock (`AudioSettings.dspTime`), `Time.fixedDeltaTime` and `GameManager.BeatLength` are parameters (`now`, `deltaTime`, `beatLength`).
- `AngleToPlayer` is a parameter.
- `Random.Range` is a parameter.
- `GameManager.SpawnShot` is a parameter: a function returning whether the shot spawned and the angle it wrote back.
- Physics overlap queries are parameters: owner sequences, or booleans for point overlaps.
- Shot motion is a parameter: a displacement per tick, and the moved position per shot in the pool tick. The velocity computed from a rotation in `ShotController.Spawn` is therefore left out, as is the animation clip.
- The curve interpolation of an enemy's position is left out; `EnemyControl.TickMove` takes the interpolated position as an input.
- The powerup's fall position and rotation are left out, and so is the outer radius computation. Whether the player is inside the radius is an input.
- The player's `GetExtend`/`GetShield`/`GetPower`/`GetBomb` handlers are not part of this model. A powerup tick returns the calls it would make, in order.
- `Instantiate`, `Debug.Log`, `Debug.DrawRay` and the hit events (`OnHitShield`, `OnHitHurt`) are left out. A spawn is returned as a value.
- Float arithmetic is exact `real` arithmetic. Rounding of single- and double-precision values is not modelled.
- `PlayerControl.PlayerController.HandleFiring`: the float `_shotTimeFrames` is modelled as an `int`. Its only operations are integer assignment and decrement, which are exact while it stays below 2^24.
- `LegacyEmitters.FireSpec` / `LegacyEmitters.LegacyEmitter.Fire`: the shot's angle is the float field `ShotBase.Angle` (Assets/Scripts/ShotBase.cs:18), but the model keeps it as an `int`. Every value added into it is an integer: `CurrentOffset`, `AngleToPlayer()` and the `Random.Range(int, int)` draw. So the float holds integers exactly while they stay below 2^24, and no value changes. As written, Assets/Scripts/ShotEmitter.cs:72 (`_lastAngle = shot.Angle = CurrentOffset`) and line 88 (`Wrap(shot.Angle)`) need an explicit float-to-int cast to compile. The model reads them with that cast, which is exact here.
- `PlayerControl.PlayerController.constructor` and `PlayerControl.PlayerController.Valid` require at least one emitter group and `powerCount < |groups|`. In the C# code, `_emitters[PowerCount]` (Assets/Scripts/PlayerController.cs:54, 71) throws when the player has fewer power-level children than that. The model does not cover that exception.
- `LegacyEmitters.LegacyEmitter.Tick`: the model runs at most `fuel` actions per call and reports `OutOfFuel` beyond that. In the C# code, a repeat count ≤ 0 can loop without bound, since every older opcode returns true.
- `LegacyEmitters.LegacyEmitter.Tick`: indexing past the end is a C# exception. The model reports it as the `Faulted` outcome.
- `EnemyControl.EnemyController.constructor`: in the C# code the route queue is null until the first `Spawn`, and a beat before that throws. The model starts with an empty route.
- `EmitterCore.FireSpec`: the shot's spawn position is left out.
- `Emitters.ShotEmitter.constructor`: `ShotEmitter` (Assets/Scripts/EmitterActions/ShotEmitter.cs) declares no `Damage` or `ShotPrefabName`. They are modelled as plain fields set only by their opcodes.
- `Emitters.ExecuteSetMode`: `ShotEmitter` (Assets/Scripts/EmitterActions/ShotEmitter.cs) declares no `SetMode`, so `EmitterSetMode` is mapped to the `CurrentMode` setter. Its `Execute()` signature matches neither interpreter, so it is modelled as a standalone call.
- `StageSetup.SortByHeight`: `Array.Sort` is unstable. The model sorts by insertion, which is stable, and its contract only claims what `Array.Sort` guarantees: sorted by height, and a permutation.
- `StageSetup.StageSettings.Init`: the route step referenced by the spawn parameters is an object identity (`currentStep: nat`). The spawnables are given as a sequence, not gathered from the prefab's children.
- LegacyEmitters.FireSpec: the Random draw `pick` is any integer. Line 85 draws it with `Random.Range(-CurrentOffset, CurrentOffset + 1)`, so in the game it lies in [-offset, offset] for a non-negative offset. The contract does not use that bound, and `LegacyEmitters.FireAngleInRange` holds without it.
- StartSequence (`Emitters.RepeatManager.StartSequence`) and `EmitterCore.RepeatItem`: repeat counts are `nat`, whereas `RepeatItem.Count` and the `times` parameter are C# `int`. A negative count never equals 0 at line 89, so in C# that entry would jump back on every end, for ever. The model excludes such entries, and `EmitterCore.RunLoop` terminates because of that. No code in the newer generation pushes a count; the `EmitterRepeatStart` opcode, declared `[Min(1)]`, calls the older emitter's `RepeatStart(int)`.
- RepeatStart (`Emitters.ShotEmitter.RepeatStart`): `times` is a `nat` for the same reason, and the C# `int` parameter can be negative.
- `Timeline.StagesValid`, which `Timeline.StageStep`, `Timeline.AdvanceWith` and the `Game.GameManager` members require: there is at least one stage, and every BPM is positive. With no stages the C# indexes `Stages[0]` and throws (GameManager.cs:68). With a BPM of 0, `60.0 / stage.BPM` becomes an infinite beat length (line 77), and a negative BPM gives a negative one. Neither case is modelled.
- `Game.GameManager.StartNextBar`: the class runs the corrected bar step `Timeline.BarStep` (see Findings), not GameManager.cs:111 as written, which adds one beat to the old beat deadline. On a tick that is more than a beat late, the two differ. `Timeline.BarStepAsWritten`, `Timeline.StallPushesBeatPastBar` and `Timeline.AsWrittenKeepsTempo` cover the as-written step.
- `Game.GameManager.FixedUpdate`: it uses the corrected bar step, so the beat-phase part of its clock invariant holds for the proposed fix. For the code as written, `Timeline.AsWrittenKeepsTempo` states what remains.
- `LegacyEmitters.AppendedTimesJumpExactly` and `LegacyEmitters.NonPositiveTimesNeverExhaust` follow implicit ends. Explicit ends change the repeat list in the same way, by `LegacyEmitters.EndKindOnlyDecidesRemoval`. The program edits an explicit end makes are not followed across several calls.

## Findings

| source | as written | input that shows it | evidently intended | confidence | as-written member | corrected member |
|---|---|---|---|---|---|---|
| Assets/Scripts/GameManager.cs:109-112 | `StartNextBar` advances the beat deadline by one beat from wherever it was. | A 60 BPM stage in bar 0 at beat 1, with beat deadline 2.0 and bar deadline 4.0, ticked at times 5.0, 5.0, 5.0, 5.5, 6.5. The bar fires while beats are pending, then beats fire in the new bar until the beat counter reaches 4, outside the 0..3 timeline keys. | The first beat deadline of a new bar lies one beat after the bar boundary (`nextBeat = old nextBar + beatLen`). This keeps beat in 0..3. | not executed | Timeline.BarStepAsWritten (shown by Timeline.StallPushesBeatPastBar) | Timeline.BarStep (proved by Timeline.AdvanceKeepsClockValid; used by Game.GameManager.StartNextBar) |
