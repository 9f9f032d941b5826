/**
 * The fixed-rate game clock of src/NewGameSpike/GameTime.ts: it counts a new
 * game frame whenever more than a sixtieth of a second has passed since the
 * last counted one. Times are milliseconds, as the browser passes them.
 */
module SpikeClock {

  const FramesPerSecond := 60
  /** Milliseconds per frame: `1000 / 60`. */
  const FramePeriod: real := 1000.0 / 60.0

  /** The clock's state: when it last counted a frame, and how many it has counted. */
  datatype Clock = Clock(lastTime: real, gameFrame: nat)

  const Start := Clock(0.0, 0)

  /** `update(time)`: count a frame only if strictly more than one frame period has passed. */
  function Tick(c: Clock, time: real): (r: Clock)
    ensures r.gameFrame == c.gameFrame || r.gameFrame == c.gameFrame + 1
    ensures r.gameFrame > c.gameFrame <==> time - c.lastTime > FramePeriod
    ensures r.gameFrame > c.gameFrame ==> r.lastTime == time
    ensures r.gameFrame == c.gameFrame ==> r == c
  {
    var frameRate := 1000.0 / FramesPerSecond as real;
    var timeDiff := time - c.lastTime;
    if timeDiff > frameRate then Clock(time, c.gameFrame + 1) else c
  }

  /** The clock after `update` was called with each of `times`, in order. */
  function Run(c: Clock, times: seq<real>): Clock
    decreases |times|
  {
    if |times| == 0 then c else Run(Tick(c, times[0]), times[1..])
  }

  /**
   * Over any sequence of calls the frame count grows by at most one per call,
   * and every counted frame moved `lastTime` forward by more than a frame
   * period: the clock never counts faster than 60 frames per second.
   */
  lemma {:induction false} RunBounds(c: Clock, times: seq<real>)
    ensures var r := Run(c, times);
            c.gameFrame <= r.gameFrame <= c.gameFrame + |times| &&
            (r.gameFrame - c.gameFrame) as real * FramePeriod <= r.lastTime - c.lastTime &&
            (r.gameFrame == c.gameFrame ==> r == c)
    decreases |times|
  {
    if |times| > 0 {
      RunBounds(Tick(c, times[0]), times[1..]);
    }
  }

  /** `lastTime` is always the start time or one of the times the clock was given. */
  lemma {:induction false} RunLastTime(c: Clock, times: seq<real>)
    ensures Run(c, times).lastTime == c.lastTime || Run(c, times).lastTime in times
    decreases |times|
  {
    if |times| > 0 {
      RunLastTime(Tick(c, times[0]), times[1..]);
    }
  }

  /** A fresh clock fed times no later than `until` has counted at most `until / (1000 / 60)` frames. */
  lemma FrameRateCap(times: seq<real>, until: real)
    requires forall k :: 0 <= k < |times| ==> times[k] <= until
    ensures Run(Start, times).gameFrame as real * FramePeriod <= if until > 0.0 then until else 0.0
  {
    RunBounds(Start, times);
    RunLastTime(Start, times);
  }

  /** The clock object: the browser calls `update` with the current time on every animation frame. */
  class GameTime {
    var lastTime: real
    var gameFrame: nat

    function State(): Clock
      reads this
    {
      Clock(lastTime, gameFrame)
    }

    /** A new clock: nothing counted yet, last time 0. */
    constructor()
      ensures State() == Start
    {
      lastTime := 0.0;
      gameFrame := 0;
    }

    method Update(time: real)
      modifies this
      ensures State() == Tick(old(State()), time)
    {
      var frameRate := 1000.0 / FramesPerSecond as real;
      var timeDiff := time - lastTime;
      if timeDiff > frameRate {
        lastTime := time;
        gameFrame := gameFrame + 1;
      }
    }
  }
}
