/**
 * The obstacles of the new game (src/NewGame/Entity/Obstacle.ts) and the
 * stand-alone rock entity (src/NewGame/Entity/Rock.ts).
 *
 * Rocks and trees are obstacles that differ only in their height and in the
 * two pictures they choose from. Their `position` is a public field that the
 * obstacle field overwrites after creation; the model does this with a
 * datatype update. `Math.random()` draws are parameters in [0, 1).
 */
module Obstacles {
  import opened Geometry
  import opened Assets
  import opened EntityLoop

  const RockImages: seq<ImageKey> := [Rock1, Rock2]
  const TreeImages: seq<ImageKey> := [Tree1, TreeCluster]
  const RockHeight := 100
  const TreeHeight := 200

  /** A rock or a tree: its picture, its height and where it stands. */
  datatype Obstacle = Obstacle(frame: Image, height: int, position: Position) {

    function AreaCovered(): Rect {
      Footprint(position, frame)
    }

    /** `collidedWith` does nothing. */
    function CollidedWith(other: Obstacle): Obstacle {
      this
    }

    /** `next` does nothing. */
    function Next(): Obstacle {
      this
    }
  }

  /** `new Rock(frame)`: height 100, at the origin. */
  function Rock(frame: Image): (o: Obstacle)
    ensures o.height == RockHeight && o.frame == frame && o.position == Origin
  {
    Obstacle(frame, RockHeight, Origin)
  }

  /** `new Tree(frame)`: height 200, at the origin. */
  function Tree(frame: Image): (o: Obstacle)
    ensures o.height == TreeHeight && o.frame == frame && o.position == Origin
  {
    Obstacle(frame, TreeHeight, Origin)
  }

  /** JavaScript's `Math.round`: to the nearest integer, halves rounded up. */
  function Round(r: real): (n: int)
    ensures n as real - 0.5 <= r < n as real + 0.5
  {
    (r + 0.5).Floor
  }

  /** `Math.floor(r * count)`: the list index a draw picks. */
  function PickIndex(r: real, count: nat): (i: nat)
    requires 0.0 <= r < 1.0 && count > 0
    ensures i < count
    ensures i as real <= r * count as real < i as real + 1.0
  {
    var i := (r * count as real).Floor;
    assert r * count as real < count as real;
    i
  }

  /** `Rock.random`: one of the two rock pictures, the first for draws below one half. */
  function RandomRock(assets: AssetManager, r: real): (o: Obstacle)
    requires 0.0 <= r < 1.0
    ensures o.height == RockHeight && o.position == Origin
    ensures o.frame == assets.Images(o.frame.key) && o.frame.key in RockImages
    ensures o.frame.key == Rock1 <==> r < 0.5
  {
    Rock(assets.Images(RockImages[PickIndex(r, |RockImages|)]))
  }

  /** `Tree.random`: one of the two tree pictures, the first for draws below one half. */
  function RandomTree(assets: AssetManager, r: real): (o: Obstacle)
    requires 0.0 <= r < 1.0
    ensures o.height == TreeHeight && o.position == Origin
    ensures o.frame == assets.Images(o.frame.key) && o.frame.key in TreeImages
    ensures o.frame.key == Tree1 <==> r < 0.5
  {
    Tree(assets.Images(TreeImages[PickIndex(r, |TreeImages|)]))
  }

  /**
   * `Obstacle.random`: the first draw decides between a rock (when it rounds
   * to 1) and a tree, the second picks the picture.
   */
  function RandomObstacle(assets: AssetManager, kind: real, picture: real): (o: Obstacle)
    requires 0.0 <= kind < 1.0 && 0.0 <= picture < 1.0
    ensures o.position == Origin && o.frame == assets.Images(o.frame.key)
    ensures o.height == RockHeight <==> kind >= 0.5
    ensures o.height == TreeHeight <==> kind < 0.5
    ensures o.frame.key in RockImages <==> kind >= 0.5
    ensures o.frame.key in TreeImages <==> kind < 0.5
    ensures o.frame.key in {Rock1, Tree1} <==> picture < 0.5
  {
    if Round(kind) != 0 then RandomRock(assets, picture) else RandomTree(assets, picture)
  }

  /** Every one of the four obstacle pictures is produced by some pair of draws. */
  lemma EveryPictureReachable(assets: AssetManager, key: ImageKey)
    requires key in RockImages + TreeImages
    ensures exists kind: real, picture: real ::
              0.0 <= kind < 1.0 && 0.0 <= picture < 1.0 && RandomObstacle(assets, kind, picture).frame.key == key
  {
    var kind := if key in RockImages then 0.5 else 0.0;
    var picture := if key in {Rock1, Tree1} then 0.0 else 0.5;
    assert RandomObstacle(assets, kind, picture).frame.key == key;
  }

  /**
   * Obstacles ignore `next` and collisions, so in an entity manager holding
   * only obstacles a tick changes none of them and notifies both sides of
   * exactly the pairs whose footprints overlap.
   */
  lemma ObstacleTick(obstacles: seq<Obstacle>)
    ensures var (after, trace) := Tick(obstacles, (o: Obstacle) => o.Next(), (o: Obstacle, other: Obstacle) => o.CollidedWith(other), (o: Obstacle) => o.AreaCovered());
      && after == obstacles
      && forall i, j :: 0 <= i < j < |obstacles| ==>
           (CollidedWith(i, j) in trace <==> obstacles[i].AreaCovered().Overlaps(obstacles[j].AreaCovered())) &&
           (CollidedWith(j, i) in trace <==> obstacles[i].AreaCovered().Overlaps(obstacles[j].AreaCovered()))
  {
    InertTick(obstacles, (o: Obstacle) => o.Next(), (o: Obstacle, other: Obstacle) => o.CollidedWith(other), (o: Obstacle) => o.AreaCovered());
  }

  /**
   * The stand-alone rock entity of src/NewGame/Entity/Rock.ts: always the
   * first rock picture, height 100.
   */
  datatype RockEntity = RockEntity(position: Position, frame: Image, height: int) {

    function AreaCovered(): Rect {
      Footprint(position, frame)
    }

    function CollidedWith(other: RockEntity): RockEntity {
      this
    }

    function Next(): RockEntity {
      this
    }
  }

  /** `new Rock(assetManager)`. */
  function NewRockEntity(assets: AssetManager): (r: RockEntity)
    ensures r.position == Origin && r.height == RockHeight
    ensures r.frame.key == Rock1 && Path(r.frame.key) == "img/rock_1.png"
    ensures r.frame == assets.Images(Rock1)
  {
    RockEntity(Origin, assets.Images(Rock1), RockHeight)
  }

  /** Rock entities, too, are left unchanged by a tick, which notifies exactly the overlapping pairs. */
  lemma RockEntityTick(rocks: seq<RockEntity>)
    ensures var (after, trace) := Tick(rocks, (r: RockEntity) => r.Next(), (r: RockEntity, other: RockEntity) => r.CollidedWith(other), (r: RockEntity) => r.AreaCovered());
      && after == rocks
      && forall i, j :: 0 <= i < j < |rocks| ==>
           (CollidedWith(i, j) in trace <==> rocks[i].AreaCovered().Overlaps(rocks[j].AreaCovered())) &&
           (CollidedWith(j, i) in trace <==> rocks[i].AreaCovered().Overlaps(rocks[j].AreaCovered()))
  {
    InertTick(rocks, (r: RockEntity) => r.Next(), (r: RockEntity, other: RockEntity) => r.CollidedWith(other), (r: RockEntity) => r.AreaCovered());
  }
}
