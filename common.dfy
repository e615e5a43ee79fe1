/** Value types shared by the emitters, the shot pool and the controllers. */
module Common {

  datatype Option<T> = None | Some(value: T)

  /** GameManager.ScreenHalfWidth and ScreenHalfHeight. */
  const ScreenHalfWidth: real := 3.5
  const ScreenHalfHeight: real := 3.5

  /** A 2D position; Unity's float vectors become exact reals. */
  datatype Vec2 = Vec2(x: real, y: real)

  /** ShotController.TargetType: who a shot may hit. */
  datatype TargetType = Player | Enemy | Both

  /** The ShotParams asset: the animation clip is presentation only and is left out. */
  datatype ShotParams = ShotParams(target: TargetType, speed: real)

  /** Identifies an enemy instance (the owner of a collider, or a timeline prefab). */
  type EnemyId = nat

  function Abs(x: real): (r: real)
    ensures r >= 0.0 && (r == x || r == -x)
  {
    if x < 0.0 then -x else x
  }
}
