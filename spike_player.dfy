/**
 * The skier of the spike (src/NewGameSpike/Player.ts): a small state machine
 * of three states, each with its own speed and animation, and a player that
 * slides down at its state's speed.
 *
 * The jumping state runs a five-image, non-looping animation and reads its
 * `complete` flag. The model substitutes the tick-driven animation of
 * src/NewGame/Animation/Animation.ts (module Animations), driven by the time
 * the player is given, which is what the player's and the animation's tests
 * expect; the spike's own `Animation` class, which the player imports, has
 * no `complete` flag. The two other
 * states show a single image that their state never updates.
 */
module SpikePlayer {
  import opened Wrappers
  import opened Geometry
  import opened Assets
  import opened Animations

  datatype Command = Jump | TurnRight

  /** A state of the skier; only the jumping state carries animation progress. */
  datatype PlayerState = Downhill | DownRight | Jumping(animation: Playback)

  const JumpImages: seq<ImageKey> := [SkierJump1, SkierJump2, SkierJump3, SkierJump4, SkierJump5]

  /** The pictures of each state's animation. */
  function Images(s: PlayerState): (keys: seq<ImageKey>)
    ensures |keys| > 0
  {
    match s
    case Downhill => [SkierDown]
    case DownRight => [SkierRightDown]
    case Jumping(_) => JumpImages
  }

  /** Downhill is the fastest state and jumping the slowest. */
  function Speed(s: PlayerState): (r: real)
    ensures 0.015 <= r <= 0.03
    ensures r == 0.03 <==> s.Downhill?
    ensures r == 0.015 <==> s.Jumping?
  {
    match s
    case Downhill => 0.03
    case DownRight => 0.02
    case Jumping(_) => 0.015
  }

  /** A fresh jumping state: its animation not yet started. */
  const JumpStart := Jumping(NotStarted)

  /** The states' `do(command)`: a jump can start from either sliding state; a jumping skier ignores commands. */
  function Commanded(s: PlayerState, command: Command): (r: PlayerState)
    ensures s.Jumping? ==> r == s
    ensures !s.Jumping? && command == Jump ==> r == JumpStart
    ensures !s.Jumping? && command == TurnRight ==> r == DownRight
  {
    match s
    case Jumping(_) => s
    case DownRight => if command == Jump then JumpStart else s
    case Downhill => if command == Jump then JumpStart else if command == TurnRight then DownRight else s
  }

  function DoAll(s: PlayerState, commands: seq<Command>): PlayerState
    decreases |commands|
  {
    if |commands| == 0 then s else DoAll(Commanded(s, commands[0]), commands[1..])
  }

  /** However many commands a jumping skier gets, it stays in the same jump. */
  lemma {:induction false} JumpingIgnoresCommands(p: Playback, commands: seq<Command>)
    ensures DoAll(Jumping(p), commands) == Jumping(p)
    decreases |commands|
  {
    if |commands| > 0 {
      JumpingIgnoresCommands(p, commands[1..]);
    }
  }

  /** The jumping animation can be updated at `time`: it is not anchored after it. */
  predicate ReadyAt(s: PlayerState, time: int) {
    s.Jumping? ==> CanUpdate(s.animation, time)
  }

  /**
   * The states' `nextState(time)`: a jump whose animation is complete lands in
   * a fresh downhill state; an unfinished jump updates its animation; the
   * sliding states stay as they are.
   */
  function NextState(s: PlayerState, time: int): (r: PlayerState)
    requires ReadyAt(s, time)
    ensures ReadyAt(r, time)
    ensures !s.Jumping? ==> r == s
    ensures s.Jumping? && s.animation.complete ==> r == Downhill
    ensures s.Jumping? && !s.animation.complete ==> r == Jumping(Advance(s.animation, |JumpImages|, false, time))
  {
    match s
    case Jumping(p) => if p.complete then Downhill else Jumping(Advance(p, |JumpImages|, false, time))
    case _ => s
  }

  /** `nextState` at the times `from`, `from + 1`, ..., `to - 1`. */
  function StepAll(s: PlayerState, from: int, to: int): (r: PlayerState)
    requires ReadyAt(s, from)
    ensures ReadyAt(r, if to > from then to else from)
    decreases if to <= from then 0 else to - from
  {
    if to <= from then s else NextState(StepAll(s, from, to - 1), to - 1)
  }

  /** While the first cycle of its animation runs, a jump started at time `a` is still a jump. */
  lemma {:induction false} JumpInProgress(a: int, t: int)
    requires a <= t <= a + TicksPerImage * |JumpImages|
    ensures StepAll(JumpStart, a, t) == Jumping(Replay(NotStarted, |JumpImages|, false, a, t))
    decreases t - a
  {
    if t > a {
      JumpInProgress(a, t - 1);
      if t - 1 > a {
        FirstCycle(|JumpImages|, a, t - 2);
      }
    }
  }

  /**
   * A jump started at time `a` and stepped once per time unit shows its five
   * images, completes at `a + 60`, and lands in the downhill state on the next
   * step.
   */
  lemma JumpLands(a: int)
    ensures StepAll(JumpStart, a, a + 61) == Jumping(Playback(Some(a), 0, true))
    ensures StepAll(JumpStart, a, a + 62) == Downhill
  {
    JumpInProgress(a, a + 60);
    FirstCycle(|JumpImages|, a, a + 59);
    CompletesAfterFirstCycle(|JumpImages|, a);
  }

  /**
   * `frame`: the current state's animation image. The spike's asset manager
   * has no down-right picture, so a down-right skier has no frame; past the
   * end of the jump images there is none either.
   */
  function FrameOf(assets: SpikeAssetManager, s: PlayerState): (f: Option<Image>)
    ensures s.Downhill? ==> f.Some? && f == assets.Images(SkierDown)
    ensures s.DownRight? ==> f.None?
    ensures s.Jumping? ==> (f.Some? <==> s.animation.frameIndex < |JumpImages|)
    ensures s.Jumping? && f.Some? ==> f == assets.Images(JumpImages[s.animation.frameIndex])
  {
    var index := if s.Jumping? then s.animation.frameIndex else 0;
    if index < |Images(s)| then assets.Images(Images(s)[index]) else None
  }

  class Player {
    var lastTime: int
    var position: Position
    var state: PlayerState
    const assets: SpikeAssetManager

    /** A new player: at the origin, going downhill, last time 0. */
    constructor(assets: SpikeAssetManager)
      ensures this.assets == assets
      ensures lastTime == 0 && position == Origin && state == Downhill
    {
      this.assets := assets;
      lastTime := 0;
      position := Origin;
      state := Downhill;
    }

    /** `do(command)`: only the state changes. */
    method Do(command: Command)
      modifies this
      ensures state == Commanded(old(state), command)
      ensures lastTime == old(lastTime) && position == old(position)
    {
      state := Commanded(state, command);
    }

    /**
     * `next(time)`: move to the next state, then slide down at the new
     * state's speed for the time since the last call. The skier never moves
     * sideways, and moves down whenever time goes forward.
     */
    method Next(time: int)
      requires ReadyAt(state, time)
      modifies this
      ensures state == NextState(old(state), time)
      ensures lastTime == time
      ensures position == Position(old(position).x, old(position).y + Speed(state) * (time - old(lastTime)) as real)
      ensures time >= old(lastTime) ==> position.y >= old(position).y
    {
      var timeDiff := time - lastTime;
      lastTime := time;
      state := NextState(state, time);
      var dy := Speed(state) * timeDiff as real;
      assert timeDiff >= 0 ==> dy >= 0.0 by {
        if timeDiff >= 0 {
          ProductSign(Speed(state), timeDiff as real);
        }
      }
      position := Position(position.x, position.y + dy);
    }

    /** `frame`. */
    function Frame(): (f: Option<Image>)
      reads this
      ensures state.Downhill? ==> f.Some?
      ensures state.DownRight? ==> f.None?
    {
      FrameOf(assets, state)
    }
  }

  /**
   * With the spike's asset manager, a new skier has a picture to draw, and
   * after turning right it has none.
   */
  method TurnRightLeavesNoFrame(assets: SpikeAssetManager) returns (before: Option<Image>, after: Option<Image>)
    ensures before == assets.Images(SkierDown) && before.Some?
    ensures after.None?
  {
    var player := new Player(assets);
    before := player.Frame();
    player.Do(TurnRight);
    after := player.Frame();
  }
}
