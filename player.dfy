/**
 * The fire-burst buffer of PlayerController (Assets/Scripts/PlayerController.cs): the
 * fire input is a boolean, and the emitter groups are the children of the player's
 * first child, one group per power level.
 */
module PlayerControl {
  import opened Common
  import opened EmitterCore
  import opened Emitters

  /** BombCount is declared in 0..5. */
  predicate BombCountDeclared(n: int) { 0 <= n <= 5 }

  /** PowerCount is declared in 0..4. */
  predicate PowerCountDeclared(n: int) { 0 <= n <= 4 }

  /** The frame budget after one call: refreshed while fire is held, then decremented once. */
  function BudgetAfter(firePressed: bool, frames: int, shotTimeBuffer: int): (r: int)
    ensures firePressed ==> r == shotTimeBuffer - 1
    ensures !firePressed ==> r == frames - 1
  {
    (if firePressed then shotTimeBuffer else frames) - 1
  }

  class PlayerController {
    /** The emitter group of each power level. */
    const groups: seq<seq<ShotEmitter>>
    /** PlayerSettings.ShotTimeBuffer, 20 by default. */
    const shotTimeBuffer: int

    var isShielded: bool
    var bombCount: int
    var powerCount: int
    var shotTimeFrames: int
    var isFiring: bool

    ghost predicate Valid()
      reads this, if 0 <= powerCount < |groups| then ReprOf(groups[powerCount]) else {}
    {
      PowerCountDeclared(powerCount) && BombCountDeclared(bombCount) &&
      0 <= powerCount < |groups| && Disjoint(groups[powerCount]) && AllValid(groups[powerCount])
    }

    constructor (groups: seq<seq<ShotEmitter>>, shotTimeBuffer: int)
      requires |groups| > 0 && Disjoint(groups[0]) && AllValid(groups[0])
      ensures this.groups == groups && this.shotTimeBuffer == shotTimeBuffer
      ensures powerCount == 0 && bombCount == 0 && !isShielded && !isFiring && shotTimeFrames == 0
      ensures Valid()
    {
      this.groups := groups;
      this.shotTimeBuffer := shotTimeBuffer;
      isShielded, bombCount, powerCount := false, 0, 0;
      shotTimeFrames, isFiring := 0, false;
    }

    /**
     * HandleFiring: refresh the budget while fire is held, then run the burst driver
     * over the group of the current power level.
     */
    method HandleFiring(firePressed: bool)
      requires Valid()
      modifies this, ReprOf(groups[powerCount])
      ensures Valid()
      ensures powerCount == old(powerCount) && bombCount == old(bombCount) && isShielded == old(isShielded)
      ensures var es := groups[powerCount];
        var anyRunning := exists k :: 0 <= k < |es| && TickSpec(es[k].program, old(es[k].State()), false).running;
        var o := BurstDecision(old(isFiring), anyRunning, if firePressed then shotTimeBuffer else old(shotTimeFrames));
        isFiring == o.firing && shotTimeFrames == o.frames &&
        shotTimeFrames == BudgetAfter(firePressed, old(shotTimeFrames), shotTimeBuffer) &&
        forall k :: 0 <= k < |es| ==> es[k].State() == BurstState(es[k].program, old(es[k].State()), o)
    {
      var budget := shotTimeFrames;
      if firePressed {
        budget := shotTimeBuffer;
      }
      isFiring, shotTimeFrames := BurstTick(Some(groups[powerCount]), isFiring, budget);
    }
  }
}
