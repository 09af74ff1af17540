/**
 The state of the easy-mode basketball screen, taken out of the widget as one
 immutable value: the geometry of the three sprites, the step constants the
 widget's header fixes, and the counters the timers and keys change.
 */
module GameState {

  /** A sprite's top-left corner in pixels; y grows downwards. */
  datatype Point = Point(x: int, y: int)

  /** A sprite's extent in pixels. */
  datatype Size = Size(width: int, height: int)

  /** The keys the widget reacts to; every other key code is `Other`. */
  datatype Key = Left | Right | Space | Other

  /** The values the widget's header declares before the constructor runs. */
  datatype Params = Params(
    xStep: int,          // shooter (and resting ball) move per key press
    hoopStep: int,       // initial signed hoop move per animation tick
    ballStep: int,       // ball rise per animation tick while in flight
    points: int,
    timeRemaining: int,
    ballInMotion: bool)

  /** Header values the game is designed for: moving steps, ball at rest. */
  predicate ValidParams(p: Params) {
    p.xStep > 0 && p.hoopStep > 0 && p.ballStep > 0 && !p.ballInMotion
  }

  datatype Game = Game(
    screenWidth: int,
    screenHeight: int,
    shooter: Point,
    shooterSize: Size,
    hoop: Point,
    hoopSize: Size,
    ball: Point,
    ballSize: Size,
    ballRestY: int,      // the ball's y while it sits on the shooter
    xStep: int,
    hoopStep: int,       // signed: its sign is the hoop's direction
    ballStep: int,
    points: int,
    timeRemaining: int,
    ballInMotion: bool)

  function Abs(n: int): (r: nat)
    ensures r == n || r == -n
  {
    if n < 0 then -n else n
  }
}
