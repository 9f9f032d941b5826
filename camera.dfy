/**
 * The follow cameras of src/NewGame/Engine/Camera.ts and
 * src/NewGameSpike/Camera.ts, which have the same code: a camera starts at the
 * origin with no target; once told to follow an entity, every `next` moves it
 * onto that entity's current position.
 *
 * The camera only reads its target's `position`, so the model's target is an
 * object with a mutable position and nothing else.
 */
module Cameras {
  import opened Wrappers
  import opened Geometry

  /** The entity a camera follows, as far as the camera can see it. */
  class Followed {
    var position: Position

    constructor(position: Position)
      ensures this.position == position
    {
      this.position := position;
    }
  }

  class Camera {
    var position: Position
    var target: Option<Followed>

    /** A new camera: at the origin, following nothing. */
    constructor()
      ensures position == Origin && target == None
    {
      position := Origin;
      target := None;
    }

    /** `follow(entity)`: remember the target; the camera does not move yet. */
    method Follow(entity: Followed)
      modifies this
      ensures target == Some(entity) && position == old(position)
    {
      target := Some(entity);
    }

    /** `next()`: jump onto the target's current position, if there is a target, and return the camera's position. */
    method Next() returns (p: Position)
      modifies this
      ensures target == old(target)
      ensures target.Some? ==> position == target.value.position
      ensures target.None? ==> position == old(position)
      ensures p == position
    {
      if target.Some? {
        position := target.value.position;
        return position;
      }
      return position;
    }
  }

  /**
   * A camera reads its target's position when `next` runs, not when `follow`
   * runs: an entity that moves after being followed is still caught up with.
   */
  method FollowedEntityMoves() returns (before: Position, after: Position)
    ensures before == Origin
    ensures after == Position(50.0, 50.0)
  {
    var camera := new Camera();
    var entity := new Followed(Origin);
    camera.Follow(entity);
    before := camera.position;
    entity.position := Position(50.0, 50.0);
    after := camera.Next();
  }

  /** A camera that follows nothing stays at the origin however often `next` runs. */
  method UnfollowedCameraStays(ticks: nat) returns (p: Position)
    ensures p == Origin
  {
    var camera := new Camera();
    p := camera.position;
    var k := 0;
    while k < ticks
      invariant camera.target == None && camera.position == Origin && p == Origin
    {
      p := camera.Next();
      k := k + 1;
    }
  }
}
