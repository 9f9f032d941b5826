/**
 * The obstacle field of src/Entity/ObstacleManager.ts: it fills the slope
 * below the player when the game starts, culls obstacles that scrolled above
 * the viewport, and places new ones just outside the viewport as the camera
 * moves, further apart at first and closer as the difficulty grows.
 *
 * The camera is read through a `CameraView` passed to each call (the manager
 * only ever reads it), the player through its position, and `Math.random()`
 * through a `RandomSource`. Distances are compared through their squares.
 */
module ObstacleField {
  import opened Wrappers
  import opened Geometry
  import opened Assets
  import opened Obstacles

  const MaxCameraMovedTimes: nat := 2
  const DifficultyStep := 0.0001
  const MinDistanceBetweenObstacles := 10.0
  const InitialDistanceBetweenObstacles := 300.0
  const InitialTries: nat := 20
  const InitialAttempts: nat := 1000
  const ViewportAttempts: nat := 999

  /** What the obstacle field reads of the camera. */
  datatype CameraView = CameraView(position: Position, area: Rect, hasMoved: bool)

  /** A stream of `Math.random()` results; `drawn` of them are used up. */
  class RandomSource {
    const values: nat -> real
    var drawn: nat

    ghost predicate Valid() {
      forall k :: 0.0 <= values(k) < 1.0
    }

    constructor(values: nat -> real)
      ensures this.values == values && drawn == 0
    {
      this.values := values;
      drawn := 0;
    }

    /** `Math.random()`. */
    method Next() returns (r: real)
      requires Valid()
      modifies this
      ensures r == values(old(drawn)) && 0.0 <= r < 1.0
      ensures drawn == old(drawn) + 1
    {
      r := values(drawn);
      drawn := drawn + 1;
    }
  }

  // ---------------------------------------------------------------------
  // Pace: how often new obstacles come and how far apart they must be.
  // ---------------------------------------------------------------------

  datatype Pace = Pace(cameraMovedTimes: nat, difficulty: real, distanceBetweenObstacles: real)

  const InitialPace := Pace(0, 0.0, InitialDistanceBetweenObstacles)

  ghost predicate PaceValid(p: Pace) {
    && p.cameraMovedTimes <= MaxCameraMovedTimes
    && 0.0 <= p.difficulty <= 1.0
    && MinDistanceBetweenObstacles <= p.distanceBetweenObstacles <= InitialDistanceBetweenObstacles
  }

  /** `shouldGenerateNewObstacle` on values: the new pace and whether to place an obstacle. */
  function Throttle(p: Pace, hasMoved: bool): (Pace, bool) {
    var moved := p.cameraMovedTimes + if hasMoved then 1 else 0;
    if moved > MaxCameraMovedTimes then
      var difficulty := Min(1.0, p.difficulty + DifficultyStep);
      (Pace(0, difficulty, Max(MinDistanceBetweenObstacles, p.distanceBetweenObstacles * (1.0 - difficulty))), true)
    else
      (p.(cameraMovedTimes := moved), false)
  }

  /**
   * The pace stays within its bounds; an obstacle is due exactly on a tick
   * the camera moved after two earlier moves; then the counter restarts, the
   * difficulty rises by one step up to 1 and the spacing shrinks; otherwise
   * only the counter changes. Difficulty never falls, spacing never grows.
   */
  lemma ThrottleKeepsPace(p: Pace, hasMoved: bool)
    requires PaceValid(p)
    ensures var (q, generate) := Throttle(p, hasMoved);
      && PaceValid(q)
      && (generate <==> hasMoved && p.cameraMovedTimes == MaxCameraMovedTimes)
      && (generate ==> q.cameraMovedTimes == 0 && q.difficulty == Min(1.0, p.difficulty + DifficultyStep))
      && (!generate ==> q == p.(cameraMovedTimes := p.cameraMovedTimes + if hasMoved then 1 else 0))
      && p.difficulty <= q.difficulty
      && q.distanceBetweenObstacles <= p.distanceBetweenObstacles
  {
    var (q, generate) := Throttle(p, hasMoved);
    if generate {
      var s, d := p.distanceBetweenObstacles, q.difficulty;
      var shrunk := s * (1.0 - d);
      assert s * d >= 0.0;
      assert shrunk == s - s * d;
      assert shrunk <= s;
    }
  }

  /** The number of ticks on which the camera moved. */
  function MovedTicks(moves: seq<bool>): (n: nat)
    ensures n <= |moves|
  {
    if moves == [] then 0 else (if moves[0] then 1 else 0) + MovedTicks(moves[1..])
  }

  /** A run of `shouldGenerateNewObstacle` calls: the final pace and the number of obstacles due. */
  function Run(p: Pace, moves: seq<bool>): (Pace, nat)
    decreases |moves|
  {
    if moves == [] then (p, 0)
    else
      var (q, generate) := Throttle(p, moves[0]);
      var (last, due) := Run(q, moves[1..]);
      (last, due + if generate then 1 else 0)
  }

  /**
   * Over any run, every camera move is counted exactly once: three for each
   * obstacle placed and the rest still in the counter. The difficulty after
   * `t` placements is `min(1, d + t * 0.0001)`, and the pace stays in bounds.
   */
  lemma {:induction false} RunCounts(p: Pace, moves: seq<bool>)
    requires PaceValid(p)
    ensures var (last, due) := Run(p, moves);
      && PaceValid(last)
      && 3 * due + last.cameraMovedTimes == p.cameraMovedTimes + MovedTicks(moves)
      && last.difficulty == Min(1.0, p.difficulty + due as real * DifficultyStep)
      && last.distanceBetweenObstacles <= p.distanceBetweenObstacles
    decreases |moves|
  {
    if moves != [] {
      var (q, generate) := Throttle(p, moves[0]);
      ThrottleKeepsPace(p, moves[0]);
      RunCounts(q, moves[1..]);
    }
  }

  /** From the start, no obstacle is due before the third camera move. */
  lemma FirstPlacementOnThirdMove(moves: seq<bool>)
    requires MovedTicks(moves) < 3
    ensures Run(InitialPace, moves).1 == 0
  {
    RunCounts(InitialPace, moves);
  }

  // ---------------------------------------------------------------------
  // Placement areas and candidates.
  // ---------------------------------------------------------------------

  /**
   * `generateExtendedPlacementArea`: from the camera's centre down to half a
   * viewport below the viewport, and half a viewport-height wider.
   */
  function ExtendedPlacementArea(camera: CameraView): (r: Rect)
    ensures r.Top() == camera.position.y && r.Bottom() == camera.position.y + camera.area.size.height
    ensures r.Left() == camera.position.x - (camera.area.size.width + camera.area.size.height / 2.0) / 2.0
    ensures r.Right() == camera.position.x + (camera.area.size.width + camera.area.size.height / 2.0) / 2.0
  {
    var height := camera.area.size.height;
    var width := camera.area.size.width;
    var verticalExtension := height / 2.0;
    var center := camera.position.Add(Position(0.0, verticalExtension));
    Rect(center, Size(width + verticalExtension, height))
  }

  /** `fillInitial`'s area: the viewport's width, from the player down by half a viewport. */
  function InitialPlacementArea(viewport: Size, player: Position): (r: Rect)
    ensures r.Top() == player.y && r.Bottom() == player.y + viewport.height / 2.0
    ensures r.Left() == player.x - viewport.width / 2.0 && r.Right() == player.x + viewport.width / 2.0
  {
    var newHeight := viewport.height / 2.0;
    var newCentre := player.Add(Position(0.0, newHeight / 2.0));
    Rect(newCentre, Size(viewport.width, newHeight))
  }

  /** The point that the draws `rx`, `ry` pick in `area`. */
  function Spot(area: Rect, rx: real, ry: real): Position {
    Position(rx * area.size.width, ry * area.size.height).Add(Position(area.Left(), area.Top()))
  }

  /**
   * `v` is `low + r * size` for some draw `r` in [0, 1): the half-open span
   * from `low` towards `low + size` (just `low` for a zero size).
   */
  predicate InSpan(low: real, size: real, v: real) {
    if size > 0.0 then low <= v < low + size
    else if size == 0.0 then v == low
    else low + size < v <= low
  }

  /** `p` is a point that some pair of draws picks in `area` (see PlacedInIffDrawn). */
  predicate PlacedIn(area: Rect, p: Position) {
    InSpan(area.Left(), area.size.width, p.x) && InSpan(area.Top(), area.size.height, p.y)
  }

  /** Every obstacle of `s` is placed in `area`. */
  ghost predicate AllPlacedIn(area: Rect, s: seq<Obstacle>) {
    forall o :: o in s ==> PlacedIn(area, o.position)
  }

  /** A draw in [0, 1) scaled by a size and shifted by `low` lands in the span. */
  lemma ScaledDraw(low: real, size: real, r: real)
    requires 0.0 <= r < 1.0
    ensures InSpan(low, size, low + r * size)
  {
    var rs, rest := r * size, (1.0 - r) * size;
    ProductSign(r, size);
    ProductSign(1.0 - r, size);
    assert rs + rest == size;
    if size > 0.0 {
      assert low <= low + rs < low + size;
    } else if size < 0.0 {
      assert low + size < low + rs <= low;
    }
  }

  /** Every point of the span is reached by some draw in [0, 1). */
  lemma SpanDraw(low: real, size: real, v: real) returns (r: real)
    requires InSpan(low, size, v)
    ensures 0.0 <= r < 1.0 && v == low + r * size
  {
    if size == 0.0 {
      r := 0.0;
    } else {
      r := (v - low) / size;
      var rs, rest := r * size, (1.0 - r) * size;
      assert rs == v - low && rs + rest == size;
      ProductSign(r, size);
      ProductSign(1.0 - r, size);
    }
  }

  /** Placed points are exactly the points some pair of draws in [0, 1) picks. */
  lemma PlacedInIffDrawn(area: Rect, p: Position)
    ensures PlacedIn(area, p) <==>
      exists rx: real, ry: real :: 0.0 <= rx < 1.0 && 0.0 <= ry < 1.0 && p == Spot(area, rx, ry)
  {
    if PlacedIn(area, p) {
      var rx := SpanDraw(area.Left(), area.size.width, p.x);
      var ry := SpanDraw(area.Top(), area.size.height, p.y);
      assert p == Spot(area, rx, ry);
    }
    forall rx: real, ry: real | 0.0 <= rx < 1.0 && 0.0 <= ry < 1.0 && p == Spot(area, rx, ry)
      ensures PlacedIn(area, p)
    {
      SpotPlaced(area, rx, ry);
    }
  }

  /** The point a pair of draws picks is placed in the area. */
  lemma SpotPlaced(area: Rect, rx: real, ry: real)
    requires 0.0 <= rx < 1.0 && 0.0 <= ry < 1.0
    ensures PlacedIn(area, Spot(area, rx, ry))
  {
    ScaledDraw(area.Left(), area.size.width, rx);
    ScaledDraw(area.Top(), area.size.height, ry);
  }

  /**
   * A placed point lies in the area, half-open on the right and the bottom
   * when the area has positive size; in the closed area when its size is
   * merely not negative.
   */
  lemma PlacedInBounds(area: Rect, p: Position)
    requires PlacedIn(area, p)
    ensures area.size.NonNegative() ==> area.Contains(p)
    ensures area.size.width > 0.0 ==> area.Left() <= p.x < area.Right()
    ensures area.size.height > 0.0 ==> area.Top() <= p.y < area.Bottom()
  {
  }

  /**
   * The obstacle made from the four draws of attempt `k` of a search starting
   * at draw `at`: two for `Obstacle.random`, then one per coordinate.
   */
  function Candidate(assets: AssetManager, random: nat -> real, area: Rect, at: nat, k: nat): (o: Obstacle)
    requires forall d :: 0.0 <= random(d) < 1.0
    ensures PlacedIn(area, o.position)
    ensures o.height == RockHeight || o.height == TreeHeight
    ensures o.frame == assets.Images(o.frame.key) && o.frame.key in RockImages + TreeImages
  {
    var first := at + 4 * k;
    var o := RandomObstacle(assets, random(first), random(first + 1));
    var rx, ry := random(first + 2), random(first + 3);
    SpotPlaced(area, rx, ry);
    o.(position := Spot(area, rx, ry))
  }

  /** Some obstacle of `obstacles` is closer than `spacing` to `p`. */
  predicate TooClose(obstacles: seq<Obstacle>, p: Position, spacing: real) {
    exists o :: o in obstacles && o.position.DistanceSquared(p) < spacing * spacing
  }

  /** A candidate is kept unless it overlaps the exclusion area or comes too close to an obstacle. */
  predicate Acceptable(c: Obstacle, obstacles: seq<Obstacle>, spacing: real, exclusion: Option<Rect>) {
    && !(exclusion.Some? && c.AreaCovered().Overlaps(exclusion.value))
    && !TooClose(obstacles, c.position, spacing)
  }

  /**
   * `createRandomObstacle` from attempt `i` on: the first acceptable candidate
   * among attempts `i` .. `attempts - 1`, and how many attempts were made in
   * all: every one of them when nothing is returned.
   */
  function Search(assets: AssetManager, random: nat -> real, area: Rect, obstacles: seq<Obstacle>,
                  spacing: real, exclusion: Option<Rect>, at: nat, i: nat, attempts: nat): (r: (Option<Obstacle>, nat))
    requires forall d :: 0.0 <= random(d) < 1.0
    requires i <= attempts
    ensures i <= r.1 <= attempts
    ensures r.0.None? ==> r.1 == attempts
    ensures r.0.Some? ==> i < r.1 && r.0.value == Candidate(assets, random, area, at, r.1 - 1)
    ensures r.0.Some? ==> Acceptable(r.0.value, obstacles, spacing, exclusion)
    decreases attempts - i
  {
    if i == attempts then (None, i)
    else
      var c := Candidate(assets, random, area, at, i);
      if Acceptable(c, obstacles, spacing, exclusion) then (Some(c), i + 1)
      else Search(assets, random, area, obstacles, spacing, exclusion, at, i + 1, attempts)
  }

  /** One attempt of the search: keep the candidate, or go on with the next attempt. */
  lemma SearchStep(assets: AssetManager, random: nat -> real, area: Rect, obstacles: seq<Obstacle>,
                   spacing: real, exclusion: Option<Rect>, at: nat, i: nat, attempts: nat)
    requires forall d :: 0.0 <= random(d) < 1.0
    requires i < attempts
    ensures var c := Candidate(assets, random, area, at, i);
      Search(assets, random, area, obstacles, spacing, exclusion, at, i, attempts) ==
        if Acceptable(c, obstacles, spacing, exclusion) then (Some(c), i + 1)
        else Search(assets, random, area, obstacles, spacing, exclusion, at, i + 1, attempts)
  {
  }

  /**
   * Every attempt before the one that succeeded, or every attempt at all when
   * none did, made a candidate that overlapped the exclusion area or came too
   * close to an existing obstacle.
   */
  lemma {:induction false} SearchSkipsRejected(assets: AssetManager, random: nat -> real, area: Rect, obstacles: seq<Obstacle>,
                  spacing: real, exclusion: Option<Rect>, at: nat, i: nat, attempts: nat)
    requires forall d :: 0.0 <= random(d) < 1.0
    requires i <= attempts
    ensures var r := Search(assets, random, area, obstacles, spacing, exclusion, at, i, attempts);
      forall k :: i <= k < r.1 && (r.0.None? || k < r.1 - 1) ==>
        !Acceptable(Candidate(assets, random, area, at, k), obstacles, spacing, exclusion)
    decreases attempts - i
  {
    if i < attempts && !Acceptable(Candidate(assets, random, area, at, i), obstacles, spacing, exclusion) {
      SearchSkipsRejected(assets, random, area, obstacles, spacing, exclusion, at, i + 1, attempts);
    }
  }

  /** A search finds only an acceptable candidate, placed in the search area. */
  lemma SearchFound(assets: AssetManager, random: nat -> real, area: Rect, obstacles: seq<Obstacle>,
                    spacing: real, exclusion: Option<Rect>, at: nat, attempts: nat)
    requires forall d :: 0.0 <= random(d) < 1.0
    ensures var r := Search(assets, random, area, obstacles, spacing, exclusion, at, 0, attempts);
      r.0.Some? ==> Acceptable(r.0.value, obstacles, spacing, exclusion) && PlacedIn(area, r.0.value.position)
  {
  }

  /** With nothing to avoid, the first attempt always succeeds. */
  lemma SearchUnobstructed(assets: AssetManager, random: nat -> real, area: Rect, spacing: real, at: nat, attempts: nat)
    requires forall d :: 0.0 <= random(d) < 1.0
    requires attempts > 0
    ensures Search(assets, random, area, [], spacing, None, at, 0, attempts) ==
      (Some(Candidate(assets, random, area, at, 0)), 1)
  {
  }

  /** What a finished search adds to the list: the obstacle found, if any. */
  function Found(r: Option<Obstacle>): (s: seq<Obstacle>)
    ensures r.Some? ==> s == [r.value]
    ensures r.None? ==> s == []
  {
    if r.Some? then [r.value] else []
  }

  // ---------------------------------------------------------------------
  // Spacing and culling.
  // ---------------------------------------------------------------------

  /** Every two obstacles of the list are at least `spacing` apart. */
  ghost predicate WellSpaced(s: seq<Obstacle>, spacing: real) {
    forall i, j :: 0 <= i < j < |s| ==> s[i].position.DistanceSquared(s[j].position) >= spacing * spacing
  }

  /** An accepted candidate keeps the list well spaced. */
  lemma WellSpacedAppend(s: seq<Obstacle>, c: Obstacle, spacing: real)
    requires WellSpaced(s, spacing) && !TooClose(s, c.position, spacing)
    ensures WellSpaced(s + [c], spacing)
  {
    forall i, j | 0 <= i < j < |s + [c]|
      ensures (s + [c])[i].position.DistanceSquared((s + [c])[j].position) >= spacing * spacing
    {
      if j == |s| {
        assert (s + [c])[i] in s;
      }
    }
  }

  /** A list spaced for one spacing is spaced for any smaller one. */
  lemma WellSpacedLooser(s: seq<Obstacle>, wide: real, narrow: real)
    requires WellSpaced(s, wide) && 0.0 <= narrow <= wide
    ensures WellSpaced(s, narrow)
  {
    SquareOrder(wide, narrow);
  }

  /** Two obstacles of a well spaced list are at least `spacing` apart as `distanceTo` measures it. */
  lemma WellSpacedMeansApart(s: seq<Obstacle>, spacing: real, i: nat, j: nat, d: real)
    requires WellSpaced(s, spacing) && spacing >= 0.0
    requires i < j < |s| && IsDistance(s[i].position, s[j].position, d)
    ensures d >= spacing
  {
    DistanceBelowIff(s[i].position, s[j].position, d, spacing);
  }

  /** `obstacles.filter(o => o.position.y > top)`. */
  function Visible(s: seq<Obstacle>, top: real): (r: seq<Obstacle>)
    ensures |r| <= |s|
    ensures forall o :: o in r <==> o in s && o.position.y > top
  {
    if s == [] then []
    else (if s[0].position.y > top then [s[0]] else []) + Visible(s[1..], top)
  }

  /** Filtering a concatenation filters each part in turn: the kept obstacles keep their order. */
  lemma {:induction false} VisibleConcat(a: seq<Obstacle>, b: seq<Obstacle>, top: real)
    ensures Visible(a + b, top) == Visible(a, top) + Visible(b, top)
  {
    if a != [] {
      assert (a + b)[1..] == a[1..] + b;
      VisibleConcat(a[1..], b, top);
    } else {
      assert a + b == b;
    }
  }

  /** Culling twice culls nothing more. */
  lemma {:induction false} VisibleIdempotent(s: seq<Obstacle>, top: real)
    ensures Visible(Visible(s, top), top) == Visible(s, top)
  {
    if s != [] {
      VisibleIdempotent(s[1..], top);
      VisibleConcat(if s[0].position.y > top then [s[0]] else [], Visible(s[1..], top), top);
    }
  }

  /** A list headed by `x` is well spaced when `x` is far from the rest and the rest is well spaced. */
  lemma WellSpacedCons(x: Obstacle, t: seq<Obstacle>, spacing: real)
    requires forall o :: o in t ==> x.position.DistanceSquared(o.position) >= spacing * spacing
    requires WellSpaced(t, spacing)
    ensures WellSpaced([x] + t, spacing)
  {
    var s := [x] + t;
    forall i, j | 0 <= i < j < |s|
      ensures s[i].position.DistanceSquared(s[j].position) >= spacing * spacing
    {
      assert s[j] == t[j - 1];
      if i > 0 {
        assert s[i] == t[i - 1];
      } else {
        assert s[j] in t;
      }
    }
  }

  /** The head of a well spaced list is far from the rest, and the rest is well spaced. */
  lemma WellSpacedUncons(s: seq<Obstacle>, spacing: real)
    requires WellSpaced(s, spacing) && s != []
    ensures forall o :: o in s[1..] ==> s[0].position.DistanceSquared(o.position) >= spacing * spacing
    ensures WellSpaced(s[1..], spacing)
  {
    var t := s[1..];
    forall i, j | 0 <= i < j < |t|
      ensures t[i].position.DistanceSquared(t[j].position) >= spacing * spacing
    {
      assert t[i] == s[i + 1] && t[j] == s[j + 1];
    }
    forall o | o in t
      ensures s[0].position.DistanceSquared(o.position) >= spacing * spacing
    {
      var j :| 0 <= j < |t| && t[j] == o;
      assert s[j + 1] == o;
    }
  }

  /** Culling keeps a well spaced list well spaced. */
  lemma {:induction false} VisibleKeepsSpacing(s: seq<Obstacle>, top: real, spacing: real)
    requires WellSpaced(s, spacing)
    ensures WellSpaced(Visible(s, top), spacing)
  {
    if s != [] {
      WellSpacedUncons(s, spacing);
      VisibleKeepsSpacing(s[1..], top, spacing);
      if s[0].position.y > top {
        WellSpacedCons(s[0], Visible(s[1..], top), spacing);
      } else {
        assert Visible(s, top) == Visible(s[1..], top);
      }
    }
  }

  // ---------------------------------------------------------------------
  // The manager.
  // ---------------------------------------------------------------------

  class ObstacleManager {
    var obstacles: seq<Obstacle>
    var cameraMovedTimes: nat
    var difficulty: real
    var distanceBetweenObstacles: real
    const assets: AssetManager
    const rng: RandomSource

    function CurrentPace(): Pace
      reads this
    {
      Pace(cameraMovedTimes, difficulty, distanceBetweenObstacles)
    }

    ghost predicate Valid()
      reads this
    {
      && rng.Valid()
      && PaceValid(CurrentPace())
      && WellSpaced(obstacles, distanceBetweenObstacles)
    }

    /** The search `createRandomObstacle` makes from the current state and draw. */
    function SearchNow(area: Rect, attempts: nat, exclusion: Option<Rect>): (Option<Obstacle>, nat)
      requires rng.Valid()
      reads this, rng
    {
      Search(assets, rng.values, area, obstacles, distanceBetweenObstacles, exclusion, rng.drawn, 0, attempts)
    }

    /**
     * `new ObstacleManager(assetManager, player, camera)`: a fresh pace and a
     * slope filled by `fillInitial`, which always places at least one obstacle.
     */
    constructor(assets: AssetManager, rng: RandomSource, viewport: Size, player: Position)
      requires rng.Valid()
      modifies rng
      ensures this.assets == assets && this.rng == rng
      ensures Valid() && CurrentPace() == InitialPace
      ensures 1 <= |obstacles| <= InitialTries
      ensures AllPlacedIn(InitialPlacementArea(viewport, player), obstacles)
    {
      this.assets := assets;
      this.rng := rng;
      obstacles := [];
      cameraMovedTimes := 0;
      difficulty := 0.0;
      distanceBetweenObstacles := InitialDistanceBetweenObstacles;
      new;
      FillInitial(viewport, player);
    }

    /** `shouldGenerateNewObstacle`. */
    method ShouldGenerateNewObstacle(hasMoved: bool) returns (generate: bool)
      requires Valid()
      modifies this
      ensures (CurrentPace(), generate) == Throttle(old(CurrentPace()), hasMoved)
      ensures obstacles == old(obstacles) && Valid()
    {
      ghost var next := Throttle(CurrentPace(), hasMoved);
      ThrottleKeepsPace(CurrentPace(), hasMoved);
      WellSpacedLooser(obstacles, distanceBetweenObstacles, next.0.distanceBetweenObstacles);
      if hasMoved {
        cameraMovedTimes := cameraMovedTimes + 1;
      }
      if cameraMovedTimes > MaxCameraMovedTimes {
        difficulty := Min(1.0, difficulty + DifficultyStep);
        distanceBetweenObstacles := Max(MinDistanceBetweenObstacles, distanceBetweenObstacles * (1.0 - difficulty));
        cameraMovedTimes := 0;
        assert CurrentPace() == next.0;
        return true;
      }
      return false;
    }

    /** `createRandomObstacle`: up to `attempts` candidates, the first acceptable one is returned. */
    method CreateRandomObstacle(area: Rect, attempts: nat, exclusion: Option<Rect>) returns (found: Option<Obstacle>)
      requires rng.Valid()
      modifies rng
      ensures var (expected, tries) := old(SearchNow(area, attempts, exclusion));
        found == expected && rng.drawn == old(rng.drawn) + 4 * tries
    {
      ghost var at := rng.drawn;
      var i := 0;
      while i < attempts
        invariant i <= attempts && rng.drawn == at + 4 * i
        invariant Search(assets, rng.values, area, obstacles, distanceBetweenObstacles, exclusion, at, 0, attempts) ==
                  Search(assets, rng.values, area, obstacles, distanceBetweenObstacles, exclusion, at, i, attempts)
      {
        var candidate := DrawCandidate(area, at, i);
        SearchStep(assets, rng.values, area, obstacles, distanceBetweenObstacles, exclusion, at, i, attempts);

        if exclusion.Some? && candidate.AreaCovered().Overlaps(exclusion.value) {
          i := i + 1;
          continue;
        }
        if TooClose(obstacles, candidate.position, distanceBetweenObstacles) {
          i := i + 1;
          continue;
        }
        return Some(candidate);
      }
      return None;
    }

    /** `Obstacle.random(assetManager)`, then a position drawn in `area`: the candidate of attempt `i`. */
    method DrawCandidate(area: Rect, ghost at: nat, ghost i: nat) returns (candidate: Obstacle)
      requires rng.Valid() && rng.drawn == at + 4 * i
      modifies rng
      ensures candidate == Candidate(assets, rng.values, area, at, i)
      ensures rng.drawn == old(rng.drawn) + 4
    {
      ghost var first := rng.drawn;
      var kind := rng.Next();
      var picture := rng.Next();
      candidate := RandomObstacle(assets, kind, picture);
      var rx := rng.Next();
      var ry := rng.Next();
      candidate := candidate.(position := Spot(area, rx, ry));
      assert kind == rng.values(first) && picture == rng.values(first + 1);
      assert rx == rng.values(first + 2) && ry == rng.values(first + 3);
    }

    /** `this.obstacles.push(obstacle)` for a candidate far enough from all others. */
    method Push(obstacle: Obstacle)
      requires Valid() && !TooClose(obstacles, obstacle.position, distanceBetweenObstacles)
      modifies this
      ensures obstacles == old(obstacles) + [obstacle]
      ensures Valid() && CurrentPace() == old(CurrentPace())
    {
      WellSpacedAppend(obstacles, obstacle, distanceBetweenObstacles);
      obstacles := obstacles + [obstacle];
    }

    /**
     * `createRandomObstacle` followed by `push` when it found something: the
     * shared body of `fillInitial`'s loop and of `fillOutsideViewport`.
     */
    method PlaceOne(area: Rect, attempts: nat, exclusion: Option<Rect>) returns (ghost found: Option<Obstacle>)
      requires Valid()
      modifies this, rng
      ensures var (expected, tries) := old(SearchNow(area, attempts, exclusion));
        found == expected && obstacles == old(obstacles) + Found(found) && rng.drawn == old(rng.drawn) + 4 * tries
      ensures Valid() && CurrentPace() == old(CurrentPace())
      ensures found.Some? ==> PlacedIn(area, found.value.position)
      ensures found.Some? && exclusion.Some? ==> !found.value.AreaCovered().Overlaps(exclusion.value)
      ensures old(obstacles) == [] && exclusion.None? && attempts > 0 ==> found.Some?
    {
      ghost var at := rng.drawn;
      var newObstacle := CreateRandomObstacle(area, attempts, exclusion);
      SearchFound(assets, rng.values, area, obstacles, distanceBetweenObstacles, exclusion, at, attempts);
      if obstacles == [] && exclusion.None? && attempts > 0 {
        SearchUnobstructed(assets, rng.values, area, distanceBetweenObstacles, at, attempts);
      }
      if newObstacle.Some? {
        Push(newObstacle.value);
      }
      found := newObstacle;
    }

    /** `fillInitial`: twenty searches of a thousand attempts each in the area below the player. */
    method FillInitial(viewport: Size, player: Position)
      requires Valid()
      modifies this, rng
      ensures Valid() && CurrentPace() == old(CurrentPace())
      ensures old(obstacles) <= obstacles && |obstacles| <= |old(obstacles)| + InitialTries
      ensures AllPlacedIn(InitialPlacementArea(viewport, player), obstacles[|old(obstacles)|..])
      ensures old(obstacles) == [] ==> |obstacles| >= 1
    {
      var placementArea := InitialPlacementArea(viewport, player);
      ghost var before := obstacles;
      for i := 0 to InitialTries
        invariant Valid() && CurrentPace() == old(CurrentPace())
        invariant before <= obstacles && |obstacles| <= |before| + i
        invariant AllPlacedIn(placementArea, obstacles[|before|..])
        invariant before == [] && i > 0 ==> |obstacles| >= 1
      {
        ghost var added := obstacles[|before|..];
        ghost var found := PlaceOne(placementArea, InitialAttempts, None);
        assert obstacles[|before|..] == added + Found(found);
      }
    }

    /** `fillOutsideViewport`: one search of 999 attempts below the camera, away from the viewport. */
    method FillOutsideViewport(camera: CameraView)
      requires Valid()
      modifies this, rng
      ensures var (found, tries) := old(SearchNow(ExtendedPlacementArea(camera), ViewportAttempts, Some(camera.area)));
        obstacles == old(obstacles) + Found(found) && rng.drawn == old(rng.drawn) + 4 * tries
      ensures Valid() && CurrentPace() == old(CurrentPace())
      ensures AllPlacedIn(ExtendedPlacementArea(camera), obstacles[|old(obstacles)|..])
      ensures forall o :: o in obstacles[|old(obstacles)|..] ==> !o.AreaCovered().Overlaps(camera.area)
    {
      var placementArea := ExtendedPlacementArea(camera);
      ghost var found := PlaceOne(placementArea, ViewportAttempts, Some(camera.area));
      assert obstacles[|old(obstacles)|..] == Found(found);
    }

    /** `cullObstacles`: drop the obstacles at or above the top of the viewport. */
    method CullObstacles(camera: CameraView)
      requires Valid()
      modifies this
      ensures obstacles == Visible(old(obstacles), camera.area.Top())
      ensures Valid() && CurrentPace() == old(CurrentPace())
    {
      VisibleKeepsSpacing(obstacles, camera.area.Top(), distanceBetweenObstacles);
      obstacles := Visible(obstacles, camera.area.Top());
    }

    /** `update`: cull, then place one obstacle when one is due. */
    method Update(camera: CameraView)
      requires Valid()
      modifies this, rng
      ensures Valid()
      ensures var (pace, due) := Throttle(old(CurrentPace()), camera.hasMoved);
        && CurrentPace() == pace
        && Visible(old(obstacles), camera.area.Top()) <= obstacles
        && |obstacles| <= |Visible(old(obstacles), camera.area.Top())| + if due then 1 else 0
      ensures forall k :: |Visible(old(obstacles), camera.area.Top())| <= k < |obstacles| ==>
        && !obstacles[k].AreaCovered().Overlaps(camera.area)
        && PlacedIn(ExtendedPlacementArea(camera), obstacles[k].position)
      ensures var (pace, due) := Throttle(old(CurrentPace()), camera.hasMoved);
        var culled := Visible(old(obstacles), camera.area.Top());
        var (found, tries) := Search(assets, rng.values, ExtendedPlacementArea(camera), culled,
                                     pace.distanceBetweenObstacles, Some(camera.area), old(rng.drawn), 0, ViewportAttempts);
        && obstacles == culled + (if due then Found(found) else [])
        && rng.drawn == old(rng.drawn) + (if due then 4 * tries else 0)
    {
      ghost var culled := Visible(obstacles, camera.area.Top());
      ghost var at := rng.drawn;
      CullObstacles(camera);
      var due := ShouldGenerateNewObstacle(camera.hasMoved);
      ghost var search := Search(assets, rng.values, ExtendedPlacementArea(camera), culled,
                                 distanceBetweenObstacles, Some(camera.area), at, 0, ViewportAttempts);
      if due {
        FillOutsideViewport(camera);
        assert obstacles == culled + Found(search.0);
      } else {
        assert obstacles == culled + [];
      }
    }
  }

  // ---------------------------------------------------------------------
  // Consequences for the game's viewport.
  // ---------------------------------------------------------------------

  /** Placed initial obstacles lie south of the player, within half a viewport, across the viewport's width. */
  lemma InitialPlacementBounds(viewport: Size, player: Position, p: Position)
    requires viewport.width > 0.0 && viewport.height > 0.0
    requires PlacedIn(InitialPlacementArea(viewport, player), p)
    ensures player.y <= p.y < player.y + viewport.height / 2.0
    ensures player.x - viewport.width / 2.0 <= p.x < player.x + viewport.width / 2.0
  {
    PlacedInBounds(InitialPlacementArea(viewport, player), p);
  }

  /**
   * For a camera at the origin showing 100 x 100, new obstacles are placed in
   * the 150 x 100 rectangle centred at (0, 50), and an obstacle placed there
   * overlaps that rectangle, while it never overlaps the viewport.
   */
  lemma ViewportPlacementExample(o: Obstacle, hasMoved: bool)
    requires o.frame.size.NonNegative()
    requires PlacedIn(ExtendedPlacementArea(CameraView(Origin, Rect(Origin, Size(100.0, 100.0)), hasMoved)), o.position)
    ensures ExtendedPlacementArea(CameraView(Origin, Rect(Origin, Size(100.0, 100.0)), hasMoved)) ==
      Rect(Position(0.0, 50.0), Size(150.0, 100.0))
    ensures o.AreaCovered().Overlaps(Rect(Position(0.0, 50.0), Size(150.0, 100.0)))
  {
    var area := ExtendedPlacementArea(CameraView(Origin, Rect(Origin, Size(100.0, 100.0)), hasMoved));
    assert area == Rect(Position(0.0, 50.0), Size(150.0, 100.0));
    assert area.Contains(o.position);
    FootprintMeetsArea(o.position, o.frame, area);
  }

  /**
   * The initial spacing of 300 keeps every two initial obstacles more than 50
   * apart, whatever `distanceTo` returns for them.
   */
  lemma InitialSpacingExample(s: seq<Obstacle>, i: nat, j: nat, d: real)
    requires WellSpaced(s, InitialDistanceBetweenObstacles)
    requires i < j < |s| && IsDistance(s[i].position, s[j].position, d)
    ensures d > 50.0
  {
    WellSpacedMeansApart(s, InitialDistanceBetweenObstacles, i, j, d);
  }

  /** Two points placed in an area of positive size are closer than its diagonal. */
  lemma CloseInArea(area: Rect, p: Position, q: Position)
    requires area.size.width > 0.0 && area.size.height > 0.0
    requires PlacedIn(area, p) && PlacedIn(area, q)
    ensures p.DistanceSquared(q) < area.size.width * area.size.width + area.size.height * area.size.height
  {
    var dx, dy := p.x - q.x, p.y - q.y;
    var ax, ay := if dx >= 0.0 then dx else -dx, if dy >= 0.0 then dy else -dy;
    BoundsSpanSizeAroundCenter(area);
    assert ax < area.size.width && ay < area.size.height;
    SquareOrder(ax, area.size.width);
    SquareOrder(ay, area.size.height);
    assert ax * ax == dx * dx && ay * ay == dy * dy;
  }

  /** In a list placed in an area of positive size, the first two obstacles are closer than its diagonal. */
  lemma FirstTwoClose(s: seq<Obstacle>, area: Rect)
    requires area.size.width > 0.0 && area.size.height > 0.0
    requires AllPlacedIn(area, s)
    ensures |s| >= 2 ==>
      s[0].position.DistanceSquared(s[1].position) < area.size.width * area.size.width + area.size.height * area.size.height
  {
    if |s| >= 2 {
      CloseInArea(area, s[0].position, s[1].position);
    }
  }

  /**
   * When the initial area's diagonal is shorter than the initial spacing,
   * `fillInitial` can keep only one obstacle: every later candidate is too
   * close to the first.
   */
  lemma InitialFillInSmallViewport(s: seq<Obstacle>, viewport: Size, player: Position)
    requires viewport.width > 0.0 && viewport.height > 0.0
    requires viewport.width * viewport.width + (viewport.height / 2.0) * (viewport.height / 2.0) <=
      InitialDistanceBetweenObstacles * InitialDistanceBetweenObstacles
    requires WellSpaced(s, InitialDistanceBetweenObstacles)
    requires AllPlacedIn(InitialPlacementArea(viewport, player), s)
    ensures |s| <= 1
  {
    FirstTwoClose(s, InitialPlacementArea(viewport, player));
  }

  /**
   * With the 100 x 100 camera of src/Entity/ObstacleManager.test.ts, the
   * manager starts with exactly one obstacle.
   */
  lemma ExampleViewportStartsWithOneObstacle(m: ObstacleManager, player: Position)
    requires m.Valid() && m.CurrentPace() == InitialPace
    requires 1 <= |m.obstacles|
    requires AllPlacedIn(InitialPlacementArea(Size(100.0, 100.0), player), m.obstacles)
    ensures |m.obstacles| == 1
  {
    InitialFillInSmallViewport(m.obstacles, Size(100.0, 100.0), player);
  }
}
