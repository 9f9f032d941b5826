/**
 * The closed set of images the game draws, seen only through their keys and
 * sizes (src/NewGame/Utils/AssetManager.ts, `IMAGES`), and the spike's shorter
 * list (src/NewGameSpike/AssetManager.ts, `IMAGES`). Loading the pictures is
 * not part of the model: an asset manager is a size for every key it loads.
 */
module Assets {
  import opened Wrappers
  import opened Geometry

  /** One constructor per entry of the new game's `IMAGES` list. */
  datatype ImageKey =
    | Tree1 | TreeCluster | SkierDown | RhinoCelebrate1 | RhinoCelebrate2
    | SkierJump1 | SkierJump2 | SkierJump3 | SkierJump4 | SkierJump5
    | SkierRightDown | SkierLeftDown | SkierLeft | SkierRight | SkierCrash
    | Rock1 | Rock2 | RhinoDefault
    | RhinoEat1 | RhinoEat2 | RhinoEat3 | RhinoEat4
    | RhinoRunLeft | RhinoRunLeft2 | RhinoRunRight | RhinoRunRight2

  /** The file name each key stands for. */
  function Path(key: ImageKey): string {
    match key
    case Tree1 => "img/tree_1.png"
    case TreeCluster => "img/tree_cluster.png"
    case SkierDown => "img/skier_down.png"
    case RhinoCelebrate1 => "img/rhino_celebrate_1.png"
    case RhinoCelebrate2 => "img/rhino_celebrate_2.png"
    case SkierJump1 => "img/skier_jump_1.png"
    case SkierJump2 => "img/skier_jump_2.png"
    case SkierJump3 => "img/skier_jump_3.png"
    case SkierJump4 => "img/skier_jump_4.png"
    case SkierJump5 => "img/skier_jump_5.png"
    case SkierRightDown => "img/skier_right_down.png"
    case SkierLeftDown => "img/skier_left_down.png"
    case SkierLeft => "img/skier_left.png"
    case SkierRight => "img/skier_right.png"
    case SkierCrash => "img/skier_crash.png"
    case Rock1 => "img/rock_1.png"
    case Rock2 => "img/rock_2.png"
    case RhinoDefault => "img/rhino_default.png"
    case RhinoEat1 => "img/rhino_eat_1.png"
    case RhinoEat2 => "img/rhino_eat_2.png"
    case RhinoEat3 => "img/rhino_eat_3.png"
    case RhinoEat4 => "img/rhino_eat_4.png"
    case RhinoRunLeft => "img/rhino_run_left.png"
    case RhinoRunLeft2 => "img/rhino_run_left_2.png"
    case RhinoRunRight => "img/rhino_run_right.png"
    case RhinoRunRight2 => "img/rhino_run_right_2.png"
  }

  /** A loaded picture: which one it is and how large it is drawn. */
  datatype Image = Image(key: ImageKey, size: Size)

  /** A populated key-to-image mapping: every key has an image of some size. */
  datatype AssetManager = AssetManager(sizeOf: ImageKey -> Size) {

    /** `assetManager.images[key]`. */
    function Images(key: ImageKey): (img: Image)
      ensures img.key == key
    {
      Image(key, sizeOf(key))
    }

    /** Picture sizes are never negative. */
    ghost predicate WellFormed() {
      forall k: ImageKey :: sizeOf(k).NonNegative()
    }
  }

  /** The nine keys of the spike's `IMAGES` list. */
  const SpikeImages: set<ImageKey> :=
    {Tree1, SkierDown, RhinoCelebrate1, RhinoCelebrate2, SkierJump1, SkierJump2, SkierJump3, SkierJump4, SkierJump5}

  /** The spike's asset manager: an image for each key of its list, and none for any other key. */
  datatype SpikeAssetManager = SpikeAssetManager(sizeOf: ImageKey -> Size) {

    /** `assetManager.images[key]`: `undefined` for a key the spike does not load. */
    function Images(key: ImageKey): (img: Option<Image>)
      ensures img.Some? <==> key in SpikeImages
      ensures img.Some? ==> img.value.key == key && img.value.size == sizeOf(key)
    {
      if key in SpikeImages then Some(Image(key, sizeOf(key))) else None
    }
  }

  /**
   * The area an entity covers: the rectangle centred on its position with the
   * size of its current frame (every `areaCovered` getter of the game).
   */
  function Footprint(position: Position, frame: Image): (r: Rect)
    ensures r.Left() + r.Right() == 2.0 * position.x && r.Top() + r.Bottom() == 2.0 * position.y
    ensures r.Right() - r.Left() == frame.size.width && r.Bottom() - r.Top() == frame.size.height
  {
    Rect(position, frame.size)
  }

  /** An entity's footprint contains its position. */
  lemma FootprintContainsPosition(position: Position, frame: Image)
    requires frame.size.NonNegative()
    ensures Footprint(position, frame).Contains(position)
  {
  }

  /** An entity whose position lies in an area has a footprint that overlaps that area. */
  lemma FootprintMeetsArea(position: Position, frame: Image, area: Rect)
    requires frame.size.NonNegative() && area.Contains(position)
    ensures Footprint(position, frame).Overlaps(area)
  {
    FootprintContainsPosition(position, frame);
    CommonPointOverlaps(Footprint(position, frame), area, position);
  }
}
