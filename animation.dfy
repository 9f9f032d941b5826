/**
 * The tick-driven animation of src/NewGame/Animation/Animation.ts.
 *
 * An animation shows its images one after the other, each for twelve game
 * ticks (the game runs at 60 ticks per second, the animation at 5 images per
 * second). The first update anchors it at the current tick. A non-looping
 * animation becomes complete when its image index wraps back to an earlier
 * image; completion is never undone.
 *
 * The game clock the source reads (`GameTime.gameFrame`) is not part of the
 * model: every update takes the tick as a parameter.
 */
module Animations {
  import opened Wrappers
  import opened Assets

  const FramesPerSecond := 60
  const AnimationFrameRate := 5
  /** Game ticks per animation image: 60 / 5. */
  const TicksPerImage := 12

  /** The image index `elapsed` ticks after the anchor: `floor(elapsed / 12) % count`. */
  function IndexAt(elapsed: nat, count: nat): (k: nat)
    requires count > 0
    ensures k < count
  {
    (elapsed / TicksPerImage) % count
  }

  /** During the `k`-th stretch of twelve ticks of the first cycle, image `k` is shown. */
  lemma IndexDuringStretch(elapsed: nat, count: nat, k: nat)
    requires k < count && TicksPerImage * k <= elapsed < TicksPerImage * k + TicksPerImage
    ensures IndexAt(elapsed, count) == k
  {
    assert elapsed / TicksPerImage == k;
  }

  /** What an update changes: the anchor tick, the index of the shown image, and the completion flag. */
  datatype Playback = Playback(anchor: Option<int>, frameIndex: nat, complete: bool)

  /** A new animation: not anchored, on its first image, not complete. */
  const NotStarted := Playback(None, 0, false)

  /** Ticks passed to `update` may not go back before the anchor. */
  predicate CanUpdate(p: Playback, tick: int) {
    p.anchor.Some? ==> tick >= p.anchor.value
  }

  /**
   * `update(time)`: anchor on the first call, move to the image for the
   * elapsed ticks, and complete a non-looping animation that wrapped around.
   */
  function Advance(p: Playback, count: nat, isLoop: bool, tick: int): (r: Playback)
    requires count > 0 && CanUpdate(p, tick)
    ensures r.anchor.Some? && r.anchor.value <= tick
    ensures p.anchor.Some? ==> r.anchor == p.anchor
    ensures p.anchor.None? ==> r.anchor == Some(tick)
    ensures r.frameIndex < count
    ensures p.complete ==> r.complete
    ensures r.complete && !p.complete ==> !isLoop && r.frameIndex < p.frameIndex
  {
    var anchor := if p.anchor.Some? then p.anchor.value else tick;
    var next := IndexAt(tick - anchor, count);
    var restarting := next < p.frameIndex;
    Playback(Some(anchor), next, p.complete || (restarting && !isLoop))
  }

  /** A non-looping animation completes exactly when its index goes back to an earlier image. */
  lemma AdvanceCompletesIff(p: Playback, count: nat, tick: int)
    requires count > 0 && CanUpdate(p, tick) && !p.complete
    ensures Advance(p, count, false, tick).complete <==> Advance(p, count, false, tick).frameIndex < p.frameIndex
  {
  }

  /** The updates at ticks `from`, `from + 1`, ..., `to - 1`, one per tick, in order. */
  function Replay(p: Playback, count: nat, isLoop: bool, from: int, to: int): (r: Playback)
    requires count > 0 && CanUpdate(p, from)
    ensures r.anchor == (if p.anchor.Some? then p.anchor else if to > from then Some(from) else None)
    decreases if to <= from then 0 else to - from
  {
    if to <= from then p
    else
      var before := Replay(p, count, isLoop, from, to - 1);
      Advance(before, count, isLoop, to - 1)
  }

  /** Once complete, an animation stays complete through any number of updates. */
  lemma {:induction false} ReplayKeepsComplete(p: Playback, count: nat, isLoop: bool, from: int, to: int)
    requires count > 0 && CanUpdate(p, from) && p.complete
    ensures Replay(p, count, isLoop, from, to).complete
    decreases if to <= from then 0 else to - from
  {
    if to > from {
      ReplayKeepsComplete(p, count, isLoop, from, to - 1);
    }
  }

  /** A looping animation never completes. */
  lemma {:induction false} LoopNeverCompletes(p: Playback, count: nat, from: int, to: int)
    requires count > 0 && CanUpdate(p, from) && !p.complete
    ensures !Replay(p, count, true, from, to).complete
    decreases if to <= from then 0 else to - from
  {
    if to > from {
      LoopNeverCompletes(p, count, from, to - 1);
    }
  }

  /** A single-image animation never leaves image 0, so it never completes, looping or not. */
  lemma {:induction false} SingleImageNeverCompletes(p: Playback, isLoop: bool, from: int, to: int)
    requires CanUpdate(p, from) && !p.complete && p.frameIndex == 0
    ensures !Replay(p, 1, isLoop, from, to).complete && Replay(p, 1, isLoop, from, to).frameIndex == 0
    decreases if to <= from then 0 else to - from
  {
    if to > from {
      SingleImageNeverCompletes(p, isLoop, from, to - 1);
    }
  }

  /**
   * A non-looping animation of `count` images started at tick `a` and updated
   * on every tick shows image `(t - a) / 12` at tick `t` through the first
   * cycle, without completing.
   */
  lemma {:induction false} FirstCycle(count: nat, a: int, t: int)
    requires count > 0 && a <= t < a + TicksPerImage * count
    ensures Replay(NotStarted, count, false, a, t + 1) == Playback(Some(a), (t - a) / TicksPerImage, false)
    decreases t - a
  {
    var k := (t - a) / TicksPerImage;
    assert k < count;
    SmallIndex(t - a, count);
    var before := Replay(NotStarted, count, false, a, t);
    if t > a {
      FirstCycle(count, a, t - 1);
      assert before.frameIndex == (t - 1 - a) / TicksPerImage <= k;
    }
  }

  /** Before the end of the first cycle the index is the number of whole stretches elapsed. */
  lemma SmallIndex(elapsed: nat, count: nat)
    requires count > 0 && elapsed < TicksPerImage * count
    ensures IndexAt(elapsed, count) == elapsed / TicksPerImage
  {
    var q := elapsed / TicksPerImage;
    assert q < count;
    assert q % count == q;
  }

  /** The update at the end of the first cycle wraps to image 0 and completes the animation. */
  lemma CompletesAfterFirstCycle(count: nat, a: int)
    requires count > 1
    ensures Replay(NotStarted, count, false, a, a + TicksPerImage * count + 1) == Playback(Some(a), 0, true)
  {
    var last := a + TicksPerImage * count - 1;
    FirstCycle(count, a, last);
    assert (last - a) / TicksPerImage == count - 1;
    assert (last + 1 - a) / TicksPerImage == count;
  }

  /**
   * The five-image, non-looping animation anchored at tick 100: image `k` on
   * ticks `100 + 12k` to `111 + 12k`, and complete at tick 160.
   */
  lemma FiveImageScenario(k: nat, t: int)
    requires k < 5 && 100 + 12 * k <= t <= 111 + 12 * k
    ensures Replay(NotStarted, 5, false, 100, t + 1) == Playback(Some(100), k, false)
    ensures Replay(NotStarted, 5, false, 100, 161) == Playback(Some(100), 0, true)
  {
    FirstCycle(5, 100, t);
    assert (t - 100) / TicksPerImage == k;
    CompletesAfterFirstCycle(5, 100);
  }

  /** An animation object: its images, whether it loops, and its playback state. */
  class Animation {
    const images: seq<Image>
    const isLoop: bool
    var animationStartFrame: Option<int>
    var frameIndex: nat
    var complete: bool

    function State(): Playback
      reads this
    {
      Playback(animationStartFrame, frameIndex, complete)
    }

    /** `new Animation(images, isLoop)`; the source's default for `isLoop`, `true`, is passed explicitly. */
    constructor(images: seq<Image>, isLoop: bool)
      ensures this.images == images && this.isLoop == isLoop
      ensures State() == NotStarted
    {
      this.images := images;
      this.isLoop := isLoop;
      animationStartFrame := None;
      frameIndex := 0;
      complete := false;
    }

    method Update(tick: int)
      requires |images| > 0 && CanUpdate(State(), tick)
      modifies this
      ensures State() == Advance(old(State()), |images|, isLoop, tick)
    {
      if animationStartFrame.None? {
        animationStartFrame := Some(tick);
      }
      var animationFrame := tick - animationStartFrame.value;
      var nextFrame := (animationFrame / TicksPerImage) % |images|;
      var isAnimationRestarting := nextFrame < frameIndex;
      if isAnimationRestarting && !isLoop {
        complete := true;
      }
      frameIndex := nextFrame;
    }

    /** `frame`: the image at the current index (`undefined` when the index is past the end). */
    function Frame(): (f: Option<Image>)
      reads this
      ensures f.Some? <==> frameIndex < |images|
      ensures f.Some? ==> f.value == images[frameIndex]
    {
      if frameIndex < |images| then Some(images[frameIndex]) else None
    }
  }
}
