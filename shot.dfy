/**
 * ShotController (Assets/Scripts/ShotController.cs): spawning a shot, resolving its hits
 * against an enemy's shields and hurt boxes or against the player, and retiring it
 * off screen. Physics overlap queries are inputs: each overlap is given by the enemy
 * that owns the collider (None when no enemy owns it).
 */
module ShotControl {
  import opened Common

  /** Overlap results are written into a buffer of 16 entries, so at most 16 are examined. */
  const MaxOverlaps: nat := 16

  /** The overlaps one query reports: the first 16 found. */
  function Examined(overlaps: seq<Option<EnemyId>>): (r: seq<Option<EnemyId>>)
    ensures |r| <= MaxOverlaps && r <= overlaps
    ensures |overlaps| <= MaxOverlaps ==> r == overlaps
  {
    if |overlaps| <= MaxOverlaps then overlaps else overlaps[..MaxOverlaps]
  }

  /**
   * Scan the reported overlaps for one owned by `enemy`, skipping the others, and
   * stop at the first match.
   */
  method FindOwned(overlaps: seq<Option<EnemyId>>, enemy: EnemyId) returns (found: bool)
    ensures found <==> Some(enemy) in Examined(overlaps)
  {
    var results := Examined(overlaps);
    var count := |results|;
    var i := 0;
    while i < count
      invariant 0 <= i <= count
      invariant forall j :: 0 <= j < i ==> results[j] != Some(enemy)
    {
      if results[i] != Some(enemy) {
        i := i + 1;
        continue;
      }
      return true;
    }
    return false;
  }

  datatype HitOutcome = ShieldHit | HurtHit | Miss

  /** The shield pass runs first; the hurt pass only when no owned shield was hit. */
  function Resolve(shields: seq<Option<EnemyId>>, hurts: seq<Option<EnemyId>>, enemy: EnemyId): (r: HitOutcome)
    ensures r == ShieldHit <==> Some(enemy) in Examined(shields)
    ensures r == HurtHit <==> Some(enemy) !in Examined(shields) && Some(enemy) in Examined(hurts)
    ensures r == Miss <==> Some(enemy) !in Examined(shields) && Some(enemy) !in Examined(hurts)
  {
    if Some(enemy) in Examined(shields) then ShieldHit
    else if Some(enemy) in Examined(hurts) then HurtHit
    else Miss
  }

  /**
   * Only which slots belong to `enemy` matters: overlaps owned by other enemies, or by
   * none, can be replaced by anything else that is not `enemy` without changing the outcome.
   */
  lemma OnlyOwnedOverlapsMatter(shields: seq<Option<EnemyId>>, hurts: seq<Option<EnemyId>>,
                                shields': seq<Option<EnemyId>>, hurts': seq<Option<EnemyId>>, enemy: EnemyId)
    requires |shields| == |shields'| && |hurts| == |hurts'|
    requires forall j :: 0 <= j < |shields| ==> (shields[j] == Some(enemy) <==> shields'[j] == Some(enemy))
    requires forall j :: 0 <= j < |hurts| ==> (hurts[j] == Some(enemy) <==> hurts'[j] == Some(enemy))
    ensures Resolve(shields, hurts, enemy) == Resolve(shields', hurts', enemy)
  {
    SameOwnedSlots(shields, shields', enemy);
    SameOwnedSlots(hurts, hurts', enemy);
  }

  lemma SameOwnedSlots(s: seq<Option<EnemyId>>, s': seq<Option<EnemyId>>, enemy: EnemyId)
    requires |s| == |s'|
    requires forall j :: 0 <= j < |s| ==> (s[j] == Some(enemy) <==> s'[j] == Some(enemy))
    ensures Some(enemy) in Examined(s) <==> Some(enemy) in Examined(s')
  {
    var e, e' := Examined(s), Examined(s');
    assert |e| == |e'|;
    if Some(enemy) in e {
      var j :| 0 <= j < |e| && e[j] == Some(enemy);
      assert e'[j] == s'[j];
    }
    if Some(enemy) in e' {
      var j :| 0 <= j < |e'| && e'[j] == Some(enemy);
      assert e[j] == s[j];
    }
  }

  /**
   * Overlaps reported after the first 16 are never examined: when neither query has an
   * owned collider among its first 16 results, the shot misses, whatever follows.
   */
  lemma LateOverlapsUnseen(shields: seq<Option<EnemyId>>, hurts: seq<Option<EnemyId>>, enemy: EnemyId)
    requires forall j :: 0 <= j < |shields| && j < MaxOverlaps ==> shields[j] != Some(enemy)
    requires forall j :: 0 <= j < |hurts| && j < MaxOverlaps ==> hurts[j] != Some(enemy)
    ensures Resolve(shields, hurts, enemy) == Miss
  {
    var es, eh := Examined(shields), Examined(hurts);
    assert forall j :: 0 <= j < |es| ==> es[j] == shields[j] && es[j] != Some(enemy);
    assert forall j :: 0 <= j < |eh| ==> eh[j] == hurts[j] && eh[j] != Some(enemy);
  }

  /** The layer a spawned shot ends up on: HitLayer unless it targets the player. */
  function LayerAfterSpawn(target: TargetType, layer: int, hitLayer: int): (r: int)
    ensures target != Player ==> r == hitLayer
    ensures target == Player ==> r == layer
  {
    if target != Player then hitLayer else layer
  }

  /** Whether a position lies more than one unit outside the screen on either axis. */
  predicate OutOfBounds(p: Vec2)
  {
    Abs(p.x) > ScreenHalfWidth + 1.0 || Abs(p.y) > ScreenHalfHeight + 1.0
  }

  class ShotController {
    var target: TargetType
    var speed: real
    var damage: real
    var angle: int
    var layer: int
    var position: Vec2
    var active: bool

    /** Init leaves the shot inactive; Speed and Damage start at their defaults. */
    constructor (layer: int)
      ensures !active && this.layer == layer && speed == 5.0 && damage == 1.0 && angle == 0
    {
      target, speed, damage, angle := Player, 5.0, 1.0, 0;
      this.layer, position, active := layer, Vec2(0.0, 0.0), false;
    }

    /** Spawn: copy the parameters, move the layer to `hitLayer` unless the player is the target, and activate. */
    method Spawn(shotParams: ShotParams, damage: real, position: Vec2, angle: int, hitLayer: int)
      modifies this
      ensures target == shotParams.target && speed == shotParams.speed && this.damage == damage
      ensures this.angle == angle && this.position == position && active
      ensures layer == LayerAfterSpawn(shotParams.target, old(layer), hitLayer)
    {
      target := shotParams.target;
      speed := shotParams.speed;
      this.damage := damage;
      if target != Player {
        layer := hitLayer;
      }
      this.angle := angle;
      this.position := position;
      active := true;
    }

    /**
     * TryDamage against an enemy: a hit on one of its shields deactivates the shot; a
     * hit on one of its hurt boxes also adds this shot's damage to `total`, once.
     */
    method TryDamageEnemy(enemy: EnemyId, shieldOverlaps: seq<Option<EnemyId>>, hurtOverlaps: seq<Option<EnemyId>>, total: real)
      returns (hit: bool, newTotal: real)
      modifies this
      ensures var o := Resolve(shieldOverlaps, hurtOverlaps, enemy);
        hit == (o != Miss) &&
        newTotal == (if o == HurtHit then total + damage else total) &&
        active == (old(active) && !hit)
      ensures damage == old(damage) && position == old(position) && target == old(target)
      ensures speed == old(speed) && angle == old(angle) && layer == old(layer)
    {
      newTotal := total;
      hit := FindOwned(shieldOverlaps, enemy);
      if hit {
        active := false;
        return;
      }
      hit := FindOwned(hurtOverlaps, enemy);
      if hit {
        newTotal := newTotal + damage;
        active := false;
        return;
      }
    }

    /** TryDamage against the player: a hit exactly when the player's position lies inside the hitbox. */
    method TryDamagePlayer(overlapsPlayer: bool) returns (hit: bool)
      modifies this
      ensures hit == overlapsPlayer && active == (old(active) && !overlapsPlayer)
      ensures position == old(position) && damage == old(damage) && target == old(target)
      ensures speed == old(speed) && angle == old(angle) && layer == old(layer)
    {
      if overlapsPlayer {
        active := false;
        return true;
      }
      return false;
    }

    /** Tick: move by this frame's displacement and retire the shot once well off screen. */
    method Tick(displacement: Vec2) returns (alive: bool)
      modifies this
      ensures position == Vec2(old(position).x + displacement.x, old(position).y + displacement.y)
      ensures alive == !OutOfBounds(position)
      ensures active == (old(active) && alive)
      ensures damage == old(damage) && target == old(target)
      ensures speed == old(speed) && angle == old(angle) && layer == old(layer)
    {
      position := Vec2(position.x + displacement.x, position.y + displacement.y);
      if OutOfBounds(position) {
        active := false;
        return false;
      }
      return true;
    }
  }
}
