/**
 * The direction-driven skier of src/NewGame/Game.ts. Each `next` moves the
 * skier by a step that grows with the game frame: down, or diagonally down to
 * the right or left. Inputs only turn the skier. Coordinates start at 0 and
 * move by whole steps, so they are integers.
 */
module NewGame {
  import opened Wrappers

  datatype Direction = Down | DownRight | DownLeft

  datatype Input = Right | Left

  datatype Coordinates = Coordinates(x: int, y: int)

  /** `Math.ceil(gameFrame / 100)`: the smallest whole number of hundreds that reaches `gameFrame`. */
  function Step(gameFrame: int): (s: int)
    ensures (s - 1) * 100 < gameFrame <= s * 100
    ensures gameFrame >= 1 ==> s >= 1
  {
    -((-gameFrame) / 100)
  }

  /** Where one `next` takes a skier at `c` facing `d`. */
  function Moved(c: Coordinates, d: Direction, step: int): (r: Coordinates)
    ensures r.y == c.y - step
    ensures d == Down ==> r.x == c.x
    ensures d == DownRight ==> r.x == c.x + step
    ensures d == DownLeft ==> r.x == c.x - step
  {
    match d
    case Down => Coordinates(c.x, c.y - step)
    case DownRight => Coordinates(c.x + step, c.y - step)
    case DownLeft => Coordinates(c.x - step, c.y - step)
  }

  /** `n` calls of `next` with the same direction and game frame. */
  function Ride(c: Coordinates, d: Direction, step: int, n: nat): Coordinates
  {
    if n == 0 then c else Moved(Ride(c, d, step, n - 1), d, step)
  }

  /**
   * Riding for `n` ticks drops the skier by `n` steps; going down keeps x,
   * going diagonally moves x by as much as y.
   */
  lemma {:induction false} RideDisplacement(c: Coordinates, d: Direction, step: int, n: nat)
    ensures Ride(c, d, step, n).y == c.y - n * step
    ensures d == Down ==> Ride(c, d, step, n).x == c.x
    ensures d == DownRight ==> Ride(c, d, step, n).x == c.x + n * step
    ensures d == DownLeft ==> Ride(c, d, step, n).x == c.x - n * step
  {
    if n > 0 {
      RideDisplacement(c, d, step, n - 1);
      assert n * step == (n - 1) * step + step;
    }
  }

  /** `sendInput(input)`: turn towards the input, whatever the current direction. */
  function Steer(d: Direction, input: Input): (r: Direction)
    ensures input == Right <==> r == DownRight
    ensures input == Left <==> r == DownLeft
  {
    match input
    case Right => DownRight
    case Left => DownLeft
  }

  function SteerAll(d: Direction, inputs: seq<Input>): Direction
    decreases |inputs|
  {
    if |inputs| == 0 then d else SteerAll(Steer(d, inputs[0]), inputs[1..])
  }

  /** After any inputs the skier faces the way the last one said; no input leads back to going straight down. */
  lemma {:induction false} LastInputWins(d: Direction, inputs: seq<Input>)
    requires |inputs| > 0
    ensures SteerAll(d, inputs) == Steer(d, inputs[|inputs| - 1])
    ensures SteerAll(d, inputs) != Down
    decreases |inputs|
  {
    if |inputs| > 1 {
      LastInputWins(Steer(d, inputs[0]), inputs[1..]);
    }
  }

  class Skier {
    var position: Coordinates
    var direction: Direction

    constructor()
      ensures position == Coordinates(0, 0) && direction == Down
    {
      position := Coordinates(0, 0);
      direction := Down;
    }
  }

  class Game {
    var gameFrame: int
    const skier: Skier

    /** A new game: frame 1, the skier at the origin going down. */
    constructor()
      ensures gameFrame == 1 && fresh(skier)
      ensures skier.position == Coordinates(0, 0) && skier.direction == Down
    {
      gameFrame := 1;
      skier := new Skier();
    }

    /** `start()` is not implemented and always throws. */
    method Start() returns (outcome: Outcome)
      ensures outcome == Thrown("Method not implemented.")
    {
      outcome := Thrown("Method not implemented.");
    }

    /** `next()`: move the skier one step in its direction; the frame and the direction stay. */
    method Next()
      modifies skier
      ensures skier.position == Moved(old(skier.position), skier.direction, Step(gameFrame))
      ensures skier.direction == old(skier.direction)
    {
      if skier.direction == Down {
        skier.position := skier.position.(y := skier.position.y - Step(gameFrame));
      }
      if skier.direction == DownRight {
        skier.position := skier.position.(y := skier.position.y - Step(gameFrame));
        skier.position := skier.position.(x := skier.position.x + Step(gameFrame));
      }
      if skier.direction == DownLeft {
        skier.position := skier.position.(y := skier.position.y - Step(gameFrame));
        skier.position := skier.position.(x := skier.position.x - Step(gameFrame));
      }
    }

    /** `sendInput(input)`: turn the skier; it does not move. */
    method SendInput(input: Input)
      modifies skier
      ensures skier.direction == Steer(old(skier.direction), input)
      ensures skier.position == old(skier.position)
    {
      if input == Right {
        skier.direction := DownRight;
        return;
      }
      if input == Left {
        skier.direction := DownLeft;
        return;
      }
    }
  }

  /**
   * Nothing in the game advances `gameFrame`, so it stays 1 and every step is
   * one unit: after `n` ticks a new game's skier is `n` units further down,
   * and after turning right `n` units to the right as well.
   */
  method NewGameRun(n: nat, turnRight: bool) returns (at: Coordinates)
    ensures at.y == -(n as int)
    ensures at.x == if turnRight then n else 0
  {
    var game := new Game();
    if turnRight {
      game.SendInput(Right);
    }
    var k: int := 0;
    while k < n
      invariant 0 <= k <= n && game.gameFrame == 1
      invariant game.skier.direction == if turnRight then DownRight else Down
      invariant game.skier.position == Coordinates(if turnRight then k else 0, -k)
    {
      game.Next();
      k := k + 1;
    }
    at := game.skier.position;
  }
}
