/**
 * The entities of the spike: the still rock and tree
 * (src/NewGameSpike/Rock.ts, src/NewGameSpike/Tree.ts) and the rhino
 * (src/NewGameSpike/Rhino.ts), which plays a two-image celebration on a loop
 * and cannot yet collide.
 */
module SpikeEntities {
  import opened Wrappers
  import opened Geometry
  import opened Assets
  import SpikeAnimations
  import EntityLoop

  /**
   * The spike's rock: always the first rock picture. It has no height field.
   * It is built from the new game's asset manager, because the spike's own
   * list has no `img/rock_1.png`.
   */
  datatype Rock = Rock(position: Position, frame: Image) {

    function AreaCovered(): Rect {
      Footprint(position, frame)
    }

    /** `collidedWith` and `next` do nothing. */
    function CollidedWith(other: Rock): Rock {
      this
    }

    function Next(): Rock {
      this
    }
  }

  /** `new Rock(assetManager)`. */
  function NewRock(assets: AssetManager): (r: Rock)
    ensures r.position == Origin && r.frame == assets.Images(Rock1)
    ensures Path(r.frame.key) == "img/rock_1.png"
  {
    Rock(Origin, assets.Images(Rock1))
  }

  /** The spike's tree: always the first tree picture, height 200. */
  datatype Tree = Tree(position: Position, frame: Image, height: int) {

    function AreaCovered(): Rect {
      Footprint(position, frame)
    }

    function CollidedWith(other: Tree): Tree {
      this
    }

    function Next(): Tree {
      this
    }
  }

  /** `new Tree(assetManager)`. */
  function NewTree(assets: SpikeAssetManager): (t: Tree)
    ensures t.position == Origin && t.height == 200 && Some(t.frame) == assets.Images(Tree1)
    ensures Path(t.frame.key) == "img/tree_1.png"
  {
    Tree(Origin, assets.Images(Tree1).value, 200)
  }

  /**
   * Spike rocks and trees do nothing when ticked: the entity loop leaves a
   * list of them unchanged and notifies both sides of exactly the pairs
   * whose footprints overlap.
   */
  lemma RockTick(rocks: seq<Rock>)
    ensures var (after, trace) := EntityLoop.Tick(rocks, (r: Rock) => r.Next(), (r: Rock, other: Rock) => r.CollidedWith(other), (r: Rock) => r.AreaCovered());
      && after == rocks
      && forall i, j :: 0 <= i < j < |rocks| ==>
           (EntityLoop.CollidedWith(i, j) in trace <==> rocks[i].AreaCovered().Overlaps(rocks[j].AreaCovered())) &&
           (EntityLoop.CollidedWith(j, i) in trace <==> rocks[i].AreaCovered().Overlaps(rocks[j].AreaCovered()))
  {
    EntityLoop.InertTick(rocks, (r: Rock) => r.Next(), (r: Rock, other: Rock) => r.CollidedWith(other), (r: Rock) => r.AreaCovered());
  }

  /** Spike trees, likewise, are unchanged by a tick, which notifies exactly the overlapping pairs. */
  lemma TreeTick(trees: seq<Tree>)
    ensures var (after, trace) := EntityLoop.Tick(trees, (t: Tree) => t.Next(), (t: Tree, other: Tree) => t.CollidedWith(other), (t: Tree) => t.AreaCovered());
      && after == trees
      && forall i, j :: 0 <= i < j < |trees| ==>
           (EntityLoop.CollidedWith(i, j) in trace <==> trees[i].AreaCovered().Overlaps(trees[j].AreaCovered())) &&
           (EntityLoop.CollidedWith(j, i) in trace <==> trees[i].AreaCovered().Overlaps(trees[j].AreaCovered()))
  {
    EntityLoop.InertTick(trees, (t: Tree) => t.Next(), (t: Tree, other: Tree) => t.CollidedWith(other), (t: Tree) => t.AreaCovered());
  }

  const CelebrateImages: seq<ImageKey> := [RhinoCelebrate1, RhinoCelebrate2]

  class Rhino {
    var position: Position
    const animation: SpikeAnimations.Animation
    const assets: SpikeAssetManager

    /** The animation plays the two celebration pictures and its index stays among them. */
    ghost predicate Valid()
      reads this, animation
    {
      animation.images == [assets.Images(RhinoCelebrate1).value, assets.Images(RhinoCelebrate2).value]
      && animation.frameIndex < |animation.images|
    }

    /** `new Rhino(...)`: at the origin, on the first celebration picture. */
    constructor(assets: SpikeAssetManager)
      ensures Valid() && fresh(animation) && this.assets == assets
      ensures position == Origin && animation.frameIndex == 0
    {
      this.assets := assets;
      position := Origin;
      animation := new SpikeAnimations.Animation([assets.Images(RhinoCelebrate1).value, assets.Images(RhinoCelebrate2).value]);
    }

    /** `collidedWith(other)` is not implemented and always throws. */
    method CollidedWith(other: Position) returns (outcome: Outcome)
      ensures outcome == Thrown("Method not implemented on Rhino.")
    {
      outcome := Thrown("Method not implemented on Rhino.");
    }

    /** `next()`: advance the animation to `time`; the rhino does not move. */
    method Next(time: real)
      requires Valid() && time >= 0.0
      modifies animation
      ensures Valid()
      ensures animation.frameIndex == SpikeAnimations.IndexAt(time, 2)
    {
      animation.Update(time);
    }

    /** `frame`: the animation's current picture. */
    function Frame(): (f: Image)
      requires Valid()
      reads this, animation
      ensures f.key in CelebrateImages && Some(f) == assets.Images(f.key)
      ensures Some(f) == animation.Frame()
    {
      animation.images[animation.frameIndex]
    }

    /** `areaCovered`: centred on the position, the size of the current picture. */
    function AreaCovered(): (r: Rect)
      requires Valid()
      reads this, animation
      ensures r.center == position && r.size == assets.sizeOf(Frame().key)
    {
      Footprint(position, Frame())
    }
  }

  /** A rhino alternates between its two celebration pictures every 200 ms, without moving. */
  method RhinoCelebrates(assets: SpikeAssetManager) returns (first: ImageKey, second: ImageKey, third: ImageKey, at: Position)
    ensures first == RhinoCelebrate1 && second == RhinoCelebrate2 && third == RhinoCelebrate1
    ensures at == Origin
  {
    var rhino := new Rhino(assets);
    rhino.Next(0.0);
    first := rhino.Frame().key;
    rhino.Next(250.0);
    SpikeAnimations.IndexDuringWindow(250.0, 2, 1);
    second := rhino.Frame().key;
    rhino.Next(400.0);
    third := rhino.Frame().key;
    at := rhino.position;
  }
}
