/** The angle wrap shared, character for character, by both emitter generations. */
module Angles {

  /**
   * ShotEmitter.Wrap. Not a reduction modulo 360: an angle below -180 maps to
   * 180 - ((-angle) % 180), an angle above 180 to angle % 180 - 180. C# `%` is only
   * applied to positive operands here, so Dafny's Euclidean `%` agrees with it.
   */
  function Wrap(angle: int): (r: int)
    ensures -180 <= r <= 180
    ensures -180 <= angle <= 180 ==> r == angle
  {
    if angle < -180 then 180 - (-angle) % 180
    else if angle > 180 then angle % 180 - 180
    else angle
  }

  lemma WrapIdempotent(angle: int)
    ensures Wrap(Wrap(angle)) == Wrap(angle)
  {
  }

  /** The concrete values the wrap gives just past each end of the range and at a full turn. */
  lemma WrapExamples()
    ensures Wrap(181) == -179 && Wrap(-181) == 179
    ensures Wrap(270) == -90 && Wrap(-270) == 90
    ensures Wrap(360) == -180 && Wrap(-360) == 180
  {
  }

  /**
   * Strictly inside one full turn the wrap names the same direction as its input;
   * the sum of two in-range angles always lies in [-360, 360].
   */
  lemma WrapSameDirection(angle: int)
    requires -360 < angle < 360
    ensures (angle - Wrap(angle)) % 360 == 0
  {
    if angle > 180 {
      assert angle % 180 == angle - 180;
    } else if angle < -180 {
      assert (-angle) % 180 == -angle - 180;
    }
  }

  /**
   * At exactly a full turn it does not: Wrap(360) is -180, half a turn away from 360,
   * and likewise for -360.
   */
  lemma WrapFullTurnIsHalfTurnOff()
    ensures (360 - Wrap(360)) % 360 == 180
    ensures (-360 - Wrap(-360)) % 360 == 180
  {
  }
}
