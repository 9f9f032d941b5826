# Ski game: a Dafny model of the game logic

This project models the deterministic game logic of a browser skiing game and
proves properties about it. It covers two generations of the game: the "new
game" under `src/NewGame` and the earlier spike under `src/NewGameSpike`.
It also covers the obstacle field of `src/Entity/ObstacleManager.ts`.

- **Geometry** (`geometry.dfy`). The three `Position` classes are one
  `Position` datatype: add, minus, per-axis multiply, equality and distance.
  Distance is kept as its square. `Rect` derives its bounds from centre and
  size, and `Overlaps` is the closed-interval test of `Rect.ts`.
- **Assets** (`assets.dfy`). The new game's `IMAGES` list becomes a closed
  set of 26 image keys. Its asset manager maps each key to an image of some
  size. The spike's asset manager loads only the nine keys of its own
  `IMAGES` list, and a lookup of any other key gives no image (`undefined`).
  Every entity's footprint is the rectangle centred on its position with its
  frame's size.
- **Obstacles** (`obstacles.dfy`). Rocks (height 100) and trees (height 200)
  with their random factories. The `Math.random()` results are parameters in
  [0, 1). The stand-alone `Rock` entity is modelled here too.
- **Entity loop** (`entity_loop.dfy`). `EntityManager.next` is a class
  over a list of entity values. What an entity does on `next()` and
  `collidedWith` is a function parameter. The method returns the trace of
  calls it made. It is proved equal to a step-by-step specification, `Tick`.
  Lemmas then show what holds for any entities:
  - every `next()` comes first and in list order;
  - no entity is told about itself, and no notification repeats;
  - notifications come in pairs, `i` about `j` and then directly `j` about
    `i`, with `i < j`.

  Some entities keep their footprint when told of a collision; they may move
  on `next()`. For those, a pair is notified exactly when the footprints
  *after* `next()` overlap. Obstacles and rocks are of this kind. The
  new game's player and rhino are not part of this model, so no lemma says
  what their collision responses do.
- **Obstacle field** (`obstacle_field.dfy`). `ObstacleManager` is a class
  with the obstacle list and the pace counters. The pace counters are the
  move counter, the difficulty and the minimum spacing.
  - The random draws come from a `RandomSource`: a fixed stream of values in
    [0, 1) and a cursor. Each placement attempt uses four draws: the kind,
    the picture, then x and y.
  - Each step is proved against a function on values (`Throttle`,
    `Search`, `Visible`, the placement areas). `Update` and each placement
    give exactly the list and draw count those functions give.
    `FillInitial`'s twenty passes are proved per pass: each pass pushes what
    `Search` finds from the current list and draw. What the whole fill
    yields is stated as bounds and placement, not as one function.
  - The manager keeps an invariant: every two obstacles are at least the
    current spacing apart.
- **Animations** (`animation.dfy`, `spike_animation.dfy`). The tick-driven
  animation has an anchor tick and a sticky `complete` flag. The spike's
  time-based animation shows each image for 200 ms.
- **Clock** (`spike_clock.dfy`). The spike's `GameTime` counts a frame only
  when more than 1000/60 ms have passed.
- **Cameras** (`camera.dfy`). The two follow cameras, which share the same
  code.
- **Skier** (`game.dfy`, `spike_player.dfy`). The new game's
  direction-driven skier steps by `ceil(gameFrame / 100)`. The spike's
  three-state skier (downhill, down-right, jumping) runs its jump animation
  to completion and then lands.
- **Spike entities** (`spike_entities.dfy`). The spike's rock, tree and
  celebrating rhino.

Some behaviours of the code a reader may not expect:

- A single-image, non-looping animation never completes. Its index is
  always 0, so it never goes below the previous index
  (`Animations.SingleImageNeverCompletes`).
- A candidate obstacle is rejected only when it is strictly closer than the
  spacing. So obstacles are kept *at least* the spacing apart
  (`ObstacleField.WellSpaced`), not strictly further.
- Culling keeps an obstacle when its position, not its footprint, lies
  strictly below the viewport's top edge.
- Initial obstacles lie in `[player.y, player.y + h/2)` and in
  `[player.x - w/2, player.x + w/2)`. The x range is half-open.
- The entity manager calls `next()` and `collidedWith` in list order. The
  trace records that order.
- The spike player has only the downhill, down-right and jumping states.
  `src/NewGameSpike/Player.ts` has no sidestep, crash or left turns.
- The spike's asset manager has no `img/skier_right_down.png`. So a spike
  skier that turned right has no frame
  (`SpikePlayer.TurnRightLeavesNoFrame`).

One consequence of the constants is proved about the initial fill. The
spacing of 300 exceeds the diagonal of the placement area of a 100×100
viewport. So such a viewport always starts with exactly one obstacle
(`ObstacleField.ExampleViewportStartsWithOneObstacle`). The pairwise spacing
check in `src/Entity/ObstacleManager.test.ts:43-59` therefore compares no
pair.

## Model

| member | source | states |
|---|---|---|
| Wrappers.Min | src/Entity/ObstacleManager.ts:24 | `Math.min`: the result is at most both arguments and is one of them |
| Wrappers.Max | src/Entity/ObstacleManager.ts:25 | `Math.max`: the result is at least both arguments and is one of them |
| Geometry.Position.Equals | src/Utils/Position.ts:28-30 | `equals` holds exactly when the two points are the same point |
| Geometry.Position.DistanceSquared | src/Utils/Position.ts:2-6 | the square of `distanceTo` is never negative and is zero exactly for the same point |
| Geometry.AddMinusRoundTrip | src/Utils/Position.ts:9-15 | `p.add(q).minus(q) == p` |
| Geometry.MinusAddRoundTrip | src/NewGame/Utils/Position.ts:4-10 | `p.minus(q).add(q) == p` |
| Geometry.AddCommutes | src/NewGameSpike/Position.ts:4-6 | `add` is commutative |
| Geometry.AddIsComponentwise | src/NewGame/Utils/Position.ts:4-6 | `add` moves each coordinate by the other point's coordinate; the origin is neutral |
| Geometry.MinusIsComponentwise | src/NewGameSpike/Position.ts:8-10 | `minus` is adding the point scaled by -1 on both axes; a point minus itself is the origin |
| Geometry.MultiplyByOneIsIdentity | src/NewGame/Utils/Position.ts:12-14 | `multiply(1, 1)` returns the same point |
| Geometry.MultiplyPerAxis | src/Utils/Position.ts:17-19 | scalings compose axis by axis and distribute over `add` |
| Geometry.DistanceSymmetric | src/Utils/Position.ts:2-6 | the distance from p to q equals the distance from q to p |
| Geometry.DistanceToSelf | src/Utils/Position.ts:2-6 | the distance from a point to itself is 0, and 0 is the only non-negative root |
| Geometry.DistanceBelowIff | src/Entity/ObstacleManager.ts:90 | `distanceTo(...) < s` for `s >= 0` decides exactly what comparing squared distance with `s * s` decides |
| Geometry.DistanceExample | src/Utils/Position.test.ts:13-18 | the distance from (0,0) to (10,20) lies between 22.36 and 22.37 |
| Geometry.BoundsSpanSizeAroundCenter | src/NewGame/Utils/Rect.ts:19-26 | the bounds are centred on the centre and span the width and height |
| Geometry.OverlapsSymmetric | src/NewGame/Utils/Rect.ts:28-36 | `a.overlaps(b) == b.overlaps(a)` |
| Geometry.OverlapsSelf | src/NewGame/Utils/Rect.ts:32-35 | a rectangle overlaps itself exactly when its size is not negative |
| Geometry.CommonPointOverlaps | src/NewGame/Utils/Rect.ts:28-36 | two rectangles sharing a point overlap, touching edges included |
| Geometry.OverlapsIffCommonPoint | src/NewGame/Utils/Rect.ts:28-36 | for non-negative sizes, overlapping is exactly sharing a point of the closed rectangles |
| Geometry.RectTestCases | src/NewGame/Utils/Rect.test.ts:4-56 | against a 10×10 rectangle at the origin, (±5,±5) overlap, (30,30), (±30,0) and (0,±30) do not; edge contact at (10,0) overlaps, (10.5,0) does not |
| Assets.AssetManager.Images | src/NewGame/Utils/AssetManager.ts:30-32 | the image looked up for a key is the image of that key |
| Assets.SpikeAssetManager.Images | src/NewGameSpike/AssetManager.ts:2-15 | a key gives an image exactly when it is one of the nine keys of the spike's list, and then that key's image |
| Assets.Footprint | src/NewGame/Entity/Obstacle.ts:14-16 | an entity's area is centred on its position and spans its frame's width and height |
| Assets.FootprintContainsPosition | src/NewGame/Entity/Obstacle.ts:14-16 | a footprint of non-negative size contains the entity's position |
| Assets.FootprintMeetsArea | src/Entity/ObstacleManager.ts:84 | an entity whose position lies in an area has a footprint that overlaps the area |
| Obstacles.Rock | src/NewGame/Entity/Obstacle.ts:32-35 | a rock has height 100, the given frame, and starts at the origin |
| Obstacles.Tree | src/NewGame/Entity/Obstacle.ts:44-47 | a tree has height 200, the given frame, and starts at the origin |
| Obstacles.Round | src/NewGame/Entity/Obstacle.ts:23 | `Math.round` gives the integer within one half of the argument, halves rounded up |
| Obstacles.PickIndex | src/NewGame/Entity/Obstacle.ts:38 | `floor(r * n)` for r in [0,1) is a valid index, the whole part of `r * n` |
| Obstacles.RandomRock | src/NewGame/Entity/Obstacle.ts:37-41 | a random rock has height 100 and one of the two rock pictures, the first exactly for draws below one half |
| Obstacles.RandomTree | src/NewGame/Entity/Obstacle.ts:49-53 | a random tree has height 200 and one of the two tree pictures, the first exactly for draws below one half |
| Obstacles.RandomObstacle | src/NewGame/Entity/Obstacle.ts:22-29 | a rock exactly when the first draw rounds to 1, otherwise a tree; the picture follows the second draw |
| Obstacles.EveryPictureReachable | src/NewGame/Entity/Obstacle.ts:6-7 | each of the four obstacle pictures comes out of some pair of draws |
| Obstacles.ObstacleTick | src/NewGame/Entity/Obstacle.ts:18-20 | a tick leaves a list of obstacles unchanged and notifies exactly the overlapping pairs, both ways |
| Obstacles.NewRockEntity | src/NewGame/Entity/Rock.ts:9-14 | the rock entity starts at the origin with height 100 and the picture `img/rock_1.png` |
| Obstacles.RockEntityTick | src/NewGame/Entity/Rock.ts:16-22 | rock entities are unchanged by a tick, which notifies exactly the overlapping pairs |
| EntityLoop.AdvanceAll | src/NewGame/Entity/EntityManager.ts:11 | the `forEach` over `next()` yields one entity per entity |
| EntityLoop.Tick | src/NewGame/Entity/EntityManager.ts:10-25 | a tick keeps the number of entities (its trace is characterised by TickShape) |
| EntityLoop.EntityManager.constructor | src/NewGame/Entity/EntityManager.ts:6-8 | the manager holds the given list |
| EntityLoop.EntityManager.Next | src/NewGame/Entity/EntityManager.ts:10-25 | the new list and the call trace are those of the specification `Tick` of the old list |
| EntityLoop.EntityManager.AdvanceEach | src/NewGame/Entity/EntityManager.ts:11 | every entity is advanced once, in list order, and the trace lists `next()` for 0, 1, ..., n-1 |
| EntityLoop.EntityManager.DispatchRow | src/NewGame/Entity/EntityManager.ts:14-23 | entity i's footprint is read once, then tested against each later entity as the inner loop specifies |
| EntityLoop.EntityManager.TestPair | src/NewGame/Entity/EntityManager.ts:18-22 | on overlap, i is told about j, then j about the updated i; otherwise nothing happens |
| EntityLoop.InnerEvents | src/NewGame/Entity/EntityManager.ts:17-23 | the inner loop notifies only pairs of i and a later entity, each notification once, always both sides |
| EntityLoop.OuterEvents | src/NewGame/Entity/EntityManager.ts:13-24 | the outer loop notifies only pairs of two different entities, each notification once, always both sides |
| EntityLoop.TickShape | src/NewGame/Entity/EntityManager.ts:10-25 | all `next()` calls come first and in list order; then only collision notifications, never of an entity with itself, without repeats, both sides of each pair |
| EntityLoop.InertInner | src/NewGame/Entity/EntityManager.ts:17-23 | for entities that ignore collisions, the inner loop notifies i about exactly the later entities that overlap i's footprint |
| EntityLoop.InertOuter | src/NewGame/Entity/EntityManager.ts:13-24 | for entities that ignore collisions, the loops notify exactly the overlapping pairs i < j |
| EntityLoop.InertTick | src/NewGame/Entity/EntityManager.ts:19-22 | for entities that ignore `next` and collisions, a tick changes nothing and notifies a pair both ways exactly when it overlaps |
| EntityLoop.InPairsConcat | src/NewGame/Entity/EntityManager.ts:13-24 | notifications sent in pairs, followed by more sent in pairs, are still in pairs |
| EntityLoop.InnerPairs | src/NewGame/Entity/EntityManager.ts:17-23 | the inner loop tells `i` about `j`, then directly `j` about `i`, for each overlapping `j` |
| EntityLoop.OuterPairs | src/NewGame/Entity/EntityManager.ts:13-24 | the outer loop's notifications all come in such pairs, the lower-numbered entity told first |
| EntityLoop.TickPairs | src/NewGame/Entity/EntityManager.ts:10-25 | for any entities, after the `next()` calls a tick's notifications come in pairs: `i` about `j`, then directly `j` about `i`, with `i < j` |
| EntityLoop.FootprintInner | src/NewGame/Entity/EntityManager.ts:15-23 | when a collision keeps footprints, the inner loop keeps every footprint and tells `i` about exactly the later entities that overlap the footprint read for `i` |
| EntityLoop.FootprintOuter | src/NewGame/Entity/EntityManager.ts:13-24 | when a collision keeps footprints, the outer loop keeps every footprint and notifies exactly the pairs `i < j` whose footprints overlap |
| EntityLoop.TickAfterNext | src/NewGame/Entity/EntityManager.ts:10-25 | for entities that may move on `next()` but keep their footprint on a collision, a pair is notified both ways exactly when the footprints after `next()` overlap; each entity ends with the footprint `next()` gave it |
| ObstacleField.RandomSource.Next | src/Entity/ObstacleManager.ts:80-81 | `Math.random()` returns the next value of the stream, in [0,1), and uses it up |
| ObstacleField.ThrottleKeepsPace | src/Entity/ObstacleManager.ts:19-30 | the counter stays in 0..2, difficulty in [0,1], spacing in [10,300]; an obstacle is due exactly on a moved tick after two earlier moves, and then the counter resets and the difficulty becomes min(1, d + 0.0001); difficulty never falls, spacing never grows |
| ObstacleField.RunCounts | src/Entity/ObstacleManager.ts:19-30 | over any run, three moves per placement plus the counter account for every move; difficulty after t placements is min(1, d + t·0.0001); spacing never grows |
| ObstacleField.FirstPlacementOnThirdMove | src/Entity/ObstacleManager.ts:10-13 | from the initial pace, nothing is due before the third camera move |
| ObstacleField.ExtendedPlacementArea | src/Entity/ObstacleManager.ts:51-58 | the area runs from the camera's y down one viewport height and is half a viewport height wider than the viewport, centred on the camera's x |
| ObstacleField.InitialPlacementArea | src/Entity/ObstacleManager.ts:60-67 | the area runs from the player's y down half a viewport height, across the viewport width centred on the player |
| ObstacleField.ScaledDraw | src/Entity/ObstacleManager.ts:79-82 | `left + r * width` for r in [0,1) lies in the half-open span from the left edge |
| ObstacleField.SpanDraw | src/Entity/ObstacleManager.ts:79-82 | every point of the span is `left + r * width` for some draw r in [0,1) |
| ObstacleField.PlacedInIffDrawn | src/Entity/ObstacleManager.ts:79-82 | a point is placed in an area exactly when some pair of draws produces it |
| ObstacleField.SpotPlaced | src/Entity/ObstacleManager.ts:79-82 | the position made from two draws is placed in the area |
| ObstacleField.PlacedInBounds | src/Entity/ObstacleManager.ts:79-82 | a placed position lies in the area, in the half-open span on each axis of positive size |
| ObstacleField.Candidate | src/Entity/ObstacleManager.ts:78-82 | a candidate is a rock or a tree with a valid obstacle picture, placed in the area |
| ObstacleField.Search | src/Entity/ObstacleManager.ts:76-97 | at most `attempts` tries; nothing found uses them all; a found obstacle is the candidate of its try and is acceptable |
| ObstacleField.SearchStep | src/Entity/ObstacleManager.ts:77-95 | one try: an acceptable candidate ends the search, any other moves on to the next try |
| ObstacleField.SearchSkipsRejected | src/Entity/ObstacleManager.ts:84-94 | every try before the one returned, or every try when none is returned, overlapped the exclusion area or was too close |
| ObstacleField.SearchFound | src/Entity/ObstacleManager.ts:76-97 | a found obstacle is placed in the area and does not overlap the exclusion area |
| ObstacleField.SearchUnobstructed | src/Entity/ObstacleManager.ts:88-95 | with no obstacles, no exclusion and at least one try, the first candidate is accepted |
| ObstacleField.Found | src/Entity/ObstacleManager.ts:36-38 | a found obstacle is pushed; nothing found pushes nothing |
| ObstacleField.WellSpacedAppend | src/Entity/ObstacleManager.ts:88-95 | appending an accepted candidate keeps every pair at least the spacing apart |
| ObstacleField.WellSpacedLooser | src/Entity/ObstacleManager.ts:25 | a list spaced for a spacing is spaced for any smaller non-negative spacing |
| ObstacleField.WellSpacedMeansApart | src/Entity/ObstacleManager.ts:90 | in a well-spaced list, the `distanceTo` of any two obstacles is at least the spacing |
| ObstacleField.Visible | src/Entity/ObstacleManager.ts:48 | culling keeps exactly the obstacles whose y is greater than the top edge |
| ObstacleField.VisibleConcat | src/Entity/ObstacleManager.ts:48 | culling a concatenation culls each part in order |
| ObstacleField.VisibleIdempotent | src/Entity/ObstacleManager.ts:48 | culling twice against the same edge is culling once |
| ObstacleField.VisibleKeepsSpacing | src/Entity/ObstacleManager.ts:47-49 | culling keeps the list well spaced |
| ObstacleField.ObstacleManager.constructor | src/Entity/ObstacleManager.ts:9-17 | a new manager starts at the initial pace with 1 to 20 well-spaced obstacles, all placed in the initial area |
| ObstacleField.ObstacleManager.ShouldGenerateNewObstacle | src/Entity/ObstacleManager.ts:19-30 | the new pace and the answer are `Throttle` of the old pace; the list is unchanged and the invariant kept |
| ObstacleField.ObstacleManager.CreateRandomObstacle | src/Entity/ObstacleManager.ts:76-97 | returns what `Search` finds from the current draws, and uses four draws per try |
| ObstacleField.ObstacleManager.DrawCandidate | src/Entity/ObstacleManager.ts:78-82 | `Obstacle.random` and the two position draws give the candidate of the current try |
| ObstacleField.ObstacleManager.Push | src/Entity/ObstacleManager.ts:37 | an accepted obstacle is appended and the list stays well spaced |
| ObstacleField.ObstacleManager.PlaceOne | src/Entity/ObstacleManager.ts:69-72 | appends what the search found, placed in the area and clear of the exclusion area; an empty list always gets one |
| ObstacleField.ObstacleManager.FillInitial | src/Entity/ObstacleManager.ts:60-74 | twenty passes, each pushing what `Search` finds in the initial area: the old list stays a prefix, at most 20 obstacles are appended, all in the area, at least one when the list was empty; the spacing invariant is kept |
| ObstacleField.ObstacleManager.FillOutsideViewport | src/Entity/ObstacleManager.ts:32-39 | appends at most one obstacle, placed in the extended area, whose footprint does not overlap the viewport |
| ObstacleField.ObstacleManager.CullObstacles | src/Entity/ObstacleManager.ts:47-49 | the list becomes the visible part of the old list, in order |
| ObstacleField.ObstacleManager.Update | src/Entity/ObstacleManager.ts:41-45 | the new pace is `Throttle` of the old; the new list is the visible part of the old list, followed, when an obstacle is due, by what `Search` finds in the extended area away from the viewport at the new spacing; draws are used only then |
| ObstacleField.InitialPlacementBounds | src/Entity/ObstacleManager.test.ts:61-78 | initial obstacles have y in [player.y, player.y + h/2) and x in [player.x - w/2, player.x + w/2) |
| ObstacleField.ViewportPlacementExample | src/Entity/ObstacleManager.test.ts:81-112 | for the 100×100 camera at the origin, the extended area is the 150×100 rectangle centred at (0,50), and a placed obstacle overlaps it |
| ObstacleField.InitialSpacingExample | src/Entity/ObstacleManager.test.ts:43-59 | initially placed obstacles are more than 50 apart |
| ObstacleField.CloseInArea | src/Entity/ObstacleManager.ts:60-67 | two positions placed in the same area are closer than its diagonal |
| ObstacleField.FirstTwoClose | src/Entity/ObstacleManager.ts:60-74 | the first two obstacles placed in an area are closer than its diagonal |
| ObstacleField.InitialFillInSmallViewport | src/Entity/ObstacleManager.ts:60-74 | when the initial area's diagonal is at most 300, the initial fill holds at most one obstacle |
| ObstacleField.ExampleViewportStartsWithOneObstacle | src/Entity/ObstacleManager.test.ts:61-78 | with the tests' 100×100 viewport, the initial fill holds exactly one obstacle |
| Animations.IndexAt | src/NewGame/Animation/Animation.ts:18-19 | the index `floor(elapsed / 12) % n` is a valid image index |
| Animations.IndexDuringStretch | src/NewGame/Animation/Animation.ts:8-19 | during the k-th twelve ticks of the first cycle, image k is shown |
| Animations.Advance | src/NewGame/Animation/Animation.ts:13-25 | the first update anchors at its tick and later ones keep the anchor; the index is valid; completion is sticky and is set only for a non-looping animation whose index went back |
| Animations.AdvanceCompletesIff | src/NewGame/Animation/Animation.ts:20-23 | a non-looping animation completes exactly when the new index is below the previous one |
| Animations.Replay | src/NewGame/Animation/Animation.ts:14-16 | over any run of updates the anchor is the first update's tick, and never changes afterwards |
| Animations.ReplayKeepsComplete | src/NewGame/Animation/Animation.ts:21-23 | once complete, an animation stays complete through any updates |
| Animations.LoopNeverCompletes | src/NewGame/Animation/Animation.ts:11-23 | a looping animation never completes |
| Animations.SingleImageNeverCompletes | src/NewGame/Animation/Animation.ts:19-22 | a single-image animation stays on image 0 and never completes, looping or not |
| Animations.FirstCycle | src/NewGame/Animation/Animation.ts:13-24 | updated on every tick from tick a, it shows image (t - a) / 12 at tick t through the first cycle, not complete |
| Animations.CompletesAfterFirstCycle | src/NewGame/Animation/Animation.ts:18-23 | at tick a + 12n it wraps to image 0 and completes |
| Animations.FiveImageScenario | src/NewGameSpike/Animation.test.ts:13-55 | five images anchored at 100: image k on ticks 100+12k to 111+12k, complete at tick 160 |
| Animations.Animation.constructor | src/NewGame/Animation/Animation.ts:4-11 | a new animation is unanchored, on image 0, not complete |
| Animations.Animation.Update | src/NewGame/Animation/Animation.ts:13-25 | the new state is `Advance` of the old one at the given tick |
| Animations.Animation.Frame | src/NewGame/Animation/Animation.ts:27-29 | `frame` is the image at the current index, absent past the end |
| SpikeAnimations.IndexAt | src/NewGameSpike/Animation.ts:7 | `floor(time / 200) % n` is a valid image index for non-negative times |
| SpikeAnimations.IndexDuringWindow | src/NewGameSpike/Animation.ts:6-8 | during the k-th 200 ms of the first cycle, image k is shown |
| SpikeAnimations.Animation.constructor | src/NewGameSpike/Animation.ts:2-4 | a new animation is on image 0 |
| SpikeAnimations.Animation.Update | src/NewGameSpike/Animation.ts:6-8 | the index becomes the image for `time`, `floor(time / 200) % n`, whatever it was before |
| SpikeAnimations.Animation.Frame | src/NewGameSpike/Animation.ts:10-12 | `frame` is the image at the current index, absent past the end |
| SpikeClock.Tick | src/NewGameSpike/GameTime.ts:6-13 | a frame is counted exactly when strictly more than 1000/60 ms passed since the last one; then `lastTime` becomes the time; otherwise nothing changes |
| SpikeClock.RunBounds | src/NewGameSpike/GameTime.ts:6-13 | over any calls the frame count never falls and grows by at most one per call, and each counted frame moved `lastTime` forward by more than a frame period |
| SpikeClock.RunLastTime | src/NewGameSpike/GameTime.ts:10 | `lastTime` is always the start time or one of the given times |
| SpikeClock.FrameRateCap | src/NewGameSpike/GameTime.ts:2-13 | a fresh clock given times up to T has counted at most T / (1000/60) frames |
| SpikeClock.GameTime.constructor | src/NewGameSpike/GameTime.ts:2-4 | a new clock has counted nothing and its last time is 0 |
| SpikeClock.GameTime.Update | src/NewGameSpike/GameTime.ts:6-13 | the new state is `Tick` of the old one |
| Cameras.Camera.constructor | src/NewGame/Engine/Camera.ts:5-6 | a new camera is at the origin with no target |
| Cameras.Camera.Follow | src/NewGame/Engine/Camera.ts:13-15 | `follow` sets the target and does not move the camera |
| Cameras.Camera.Next | src/NewGame/Engine/Camera.ts:8-11 | with a target the camera takes the target's position, without one it stays; either way it returns its position |
| Cameras.FollowedEntityMoves | src/NewGameSpike/Camera.ts:7-14 | a camera catches up on `next` with where its target is then, not where it was at `follow` |
| Cameras.UnfollowedCameraStays | src/NewGameSpike/Camera.ts:7-16 | a camera without a target stays at the origin through any number of `next` calls |
| NewGame.Step | src/NewGame/Game.ts:31 | `ceil(gameFrame / 100)` is the smallest s with gameFrame <= 100s; it is at least 1 for gameFrame >= 1 |
| NewGame.Moved | src/NewGame/Game.ts:29-41 | every direction moves y up by one step; down keeps x, down-right adds a step to x, down-left subtracts one |
| NewGame.RideDisplacement | src/NewGame/Game.ts:29-41 | n ticks in one direction move y by n steps, and x by 0 or by n steps either way |
| NewGame.Steer | src/NewGame/Game.ts:43-52 | "right" gives down-right and "left" gives down-left, whatever the current direction |
| NewGame.LastInputWins | src/NewGame/Game.ts:43-52 | after any inputs the direction is set by the last one, and never back to "down" |
| NewGame.Skier.constructor | src/NewGame/Game.ts:10-13 | a new skier is at (0,0) facing down |
| NewGame.Game.constructor | src/NewGame/Game.ts:17-23 | a new game is at frame 1 with a new skier at (0,0) facing down |
| NewGame.Game.Start | src/NewGame/Game.ts:25-27 | `start` always throws "Method not implemented." |
| NewGame.Game.Next | src/NewGame/Game.ts:29-41 | the skier moves by `Moved` at the current step; the direction and the frame stay |
| NewGame.Game.SendInput | src/NewGame/Game.ts:43-52 | only the direction changes, as `Steer` says |
| NewGame.NewGameRun | src/NewGame/Game.ts:17-41 | since nothing advances the frame, a new game's skier is n units down after n ticks, and also n units right after turning right |
| SpikePlayer.Speed | src/NewGameSpike/Player.ts:15-65 | speeds are 0.03 downhill, 0.015 jumping, in between for down-right |
| SpikePlayer.Commanded | src/NewGameSpike/Player.ts:40-79 | from either sliding state, "jump" starts a jump and "turnRight" gives down-right; a jumping state ignores commands |
| SpikePlayer.JumpingIgnoresCommands | src/NewGameSpike/Player.ts:40-42 | any sequence of commands leaves a jump as it was |
| SpikePlayer.NextState | src/NewGameSpike/Player.ts:32-38 | a complete jump lands downhill, an unfinished one updates its animation, sliding states stay |
| SpikePlayer.JumpInProgress | src/NewGameSpike/Player.ts:32-38 | a jump stepped once per time unit stays a jump through its animation's first cycle |
| SpikePlayer.JumpLands | src/NewGameSpike/Player.ts:32-38 | a jump started at time a is complete after the step at a + 60 and downhill after the next step |
| SpikePlayer.FrameOf | src/NewGameSpike/Player.ts:45-107 | downhill shows `img/skier_down.png`; down-right shows nothing, since the spike's asset manager lacks its picture; a jump shows the jump image at the animation's index, and nothing past the end |
| SpikePlayer.Player.constructor | src/NewGameSpike/Player.ts:83-91 | a new player is at the origin, downhill, with last time 0 |
| SpikePlayer.Player.Do | src/NewGameSpike/Player.ts:93-95 | only the state changes, as `Commanded` says |
| SpikePlayer.Player.Next | src/NewGameSpike/Player.ts:97-103 | the state steps first, then y grows by the new speed times the elapsed time; x never changes, and y never falls while time goes forward |
| SpikePlayer.Player.Frame | src/NewGameSpike/Player.ts:105-107 | a downhill player has a frame, a down-right player has none |
| SpikePlayer.TurnRightLeavesNoFrame | src/NewGameSpike/index.ts:54-74 | a new spike skier has the downhill picture, and after `do("turnRight")` no frame at all |
| SpikeEntities.NewRock | src/NewGameSpike/Rock.ts:10-13 | the spike rock starts at the origin with the picture `img/rock_1.png` |
| SpikeEntities.NewTree | src/NewGameSpike/Tree.ts:9-14 | the spike tree starts at the origin with height 200 and the picture `img/tree_1.png` from the spike's asset manager |
| SpikeEntities.RockTick | src/NewGameSpike/Rock.ts:15-21 | a tick of the entity loop leaves a list of spike rocks unchanged and notifies both sides of exactly the pairs whose footprints overlap |
| SpikeEntities.TreeTick | src/NewGameSpike/Tree.ts:16-22 | a tick of the entity loop leaves a list of spike trees unchanged and notifies both sides of exactly the pairs whose footprints overlap |
| SpikeEntities.Rhino.constructor | src/NewGameSpike/Rhino.ts:12-18 | a new rhino is at the origin on the first of its two celebration pictures |
| SpikeEntities.Rhino.CollidedWith | src/NewGameSpike/Rhino.ts:20-22 | `collidedWith` always throws "Method not implemented on Rhino." |
| SpikeEntities.Rhino.Next | src/NewGameSpike/Rhino.ts:28-30 | only the animation changes: it moves to the celebration picture for `time`, and stays on one of the two |
| SpikeEntities.Rhino.Frame | src/NewGameSpike/Rhino.ts:32-34 | the frame is one of the two celebration pictures, the animation's current one |
| SpikeEntities.Rhino.AreaCovered | src/NewGameSpike/Rhino.ts:24-26 | the area is centred on the position with the current picture's size |
| SpikeEntities.RhinoCelebrates | src/NewGameSpike/Rhino.ts:14-30 | the rhino alternates celebrate 1, 2, 1 across 200 ms windows, without moving |

## Left out

- Canvas drawing, DOM setup, keyboard wiring and the `requestAnimationFrame`
  loops. These are I/O.
- Image loading in both asset managers. An asset manager is only a size for
  each of the closed set of image keys.
- `Math.random()` is not modelled as a random process. The draws are a given
  stream of values in [0, 1). Claims about how often pictures appear, or
  about density growing over time, are statistical and are not stated.
- `Math.sqrt` in `distanceTo`. The model compares squared distances.
  `Geometry.DistanceBelowIff` shows that this decides the same comparisons.
- `moveTowards` in both Position classes. It uses `atan2`, `cos` and `sin`.
- Floating point. JavaScript numbers are exact reals, or integers where the
  code only ever adds whole numbers.
- The camera of `src/Entity/ObstacleManager.ts` comes from a file that is not
  part of this model. The manager is given a record of what it reads: the
  position, the viewport rectangle and `hasMoved`. It gets this record on
  each call, not as a stored reference.
- ObstacleField.ObstacleManager.constructor: takes the viewport size and the
  player's position instead of the camera and player objects. Those are all
  that `fillInitial` reads.
- ObstacleField.ObstacleManager.FillInitial: states the prefix, the count
  bound, the placement, the spacing and the non-empty result, not the exact
  list. Each pass is proved exact through `PlaceOne`, but no function on
  values gives the list after all twenty passes.
- EntityLoop.EntityManager.Next: entities are independent values. `advance`
  sees only its own entity, and `collide(me, other)` returns only `me`. The
  model does not capture three things the source allows:
  - a `next()` that reads another entity. The rhino of
    `src/NewGame/index.ts:27-33` chases the player, so the list order
    `[player, tree, rhino]` decides which player position it sees;
  - a `collidedWith` that changes the entity it is given, which is the
    object itself (`src/NewGame/Entity/EntityManager.ts:20-21`);
  - a `collidedWith` that throws, as the spike rhino's does
    (`src/NewGameSpike/Rhino.ts:20-22`), and so stops the loop partway.
  The lemmas about `Tick` hold only for entities whose `next()` reads only
  themselves and whose `collidedWith` changes only themselves and returns
  normally.
- Animations.Animation.constructor: takes `isLoop` explicitly. The source
  defaults it to `true` (`src/NewGame/Animation/Animation.ts:11`).
- Cameras.Camera.Next: positions are values. After `next`, the source's
  camera shares the target's `Position` object. The spike player mutates
  its position's `y` in place, so the spike camera would move with it before
  the next `next`. The model does not capture that aliasing.
- Animations.Animation.Update: requires a non-empty image list and a tick
  not before the anchor. With no images, or with a tick before the anchor,
  the source computes `NaN` or a negative index.
  SpikeAnimations.Animation.Update likewise requires a non-negative time and
  some images.
- SpikePlayer.Player.Next: requires that an unfinished jump's animation is
  not given a time before its anchor, for the same reason. The time is a
  whole number, because the jump animation counts ticks.
- The spike player's states hold the tick-driven animation
  (`Animations.Playback`). `src/NewGameSpike/Player.ts` builds its animations
  with a loop flag and reads `complete`, which only that animation has.
  The class it imports, `src/NewGameSpike/Animation.ts`, takes only the
  images and has no `complete`. As written, `this.animation.complete` is
  `undefined`, so a jump never lands. The model follows
  `src/NewGameSpike/Player.test.ts`, where the jump lands.
- SpikeEntities.Rhino.Next: takes the time for its animation as a parameter.
  `src/NewGameSpike/Rhino.ts:29` passes its `GameTime` object where a
  number is expected.
- The spike rock has no `height` field, as in its source.
- SpikeEntities.NewRock: takes the new game's asset manager. The spike's
  own list has no `img/rock_1.png`, so with that manager the rock's frame
  would be `undefined`.
- The player and rhino state machines exercised by
  `src/NewGameSpike/Player.test.ts` and `src/NewGameSpike/Rhino.test.ts`:
  sidestep, crash, jumping over rocks, chase, eat. Their code is not part of
  this model, and the shown `Player.ts` and `Rhino.ts` do not implement them.
- The test scaffolding that redefines an obstacle manager inside
  `src/NewGame/Entity/ObstacleManager.test.ts`. So do the tests of
  `src/NewGame/Game.test.ts` and `src/NewGame/Engine/Camera.test.ts`, which
  target constructors and methods their sources do not have.
- `IEntity` interfaces and `StillFrameManager`. They have no behaviour.
