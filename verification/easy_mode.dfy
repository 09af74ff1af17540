/**
 The easy-mode screen as a deterministic state machine. The constructor lays
 the sprites out in proportion to the viewport; key presses move the shooter
 and launch the ball; one animation timeout bounces the hoop and then moves or
 resets the ball; a once-a-second timeout counts the clock down.
 */
module EasyMode {
  import opened GameState
  import Scoring

  /**
   The constructor's layout for a viewport of w by h pixels: the shooter is a
   twelfth of the width wide and a quarter of the height tall, standing on the
   bottom edge from mid-screen; the hoop is a sixth by a ninth, centred on the
   top edge; the ball is a square a twelfth of the width wide, resting on the
   shooter's head.
   */
  function Init(w: nat, h: nat, p: Params): (g: Game)
    ensures g.screenWidth == w && g.screenHeight == h
    // proportional sizes, rounded down
    ensures g.shooterSize.width * 12 <= w < (g.shooterSize.width + 1) * 12
    ensures g.shooterSize.height * 4 <= h < (g.shooterSize.height + 1) * 4
    ensures g.hoopSize.width * 6 <= w < (g.hoopSize.width + 1) * 6
    ensures g.hoopSize.height * 9 <= h < (g.hoopSize.height + 1) * 9
    ensures g.ballSize.width == g.ballSize.height == g.shooterSize.width
    // the shooter stands on the bottom edge, from the middle, inside the screen
    ensures g.shooter.y + g.shooterSize.height == h
    ensures 0 <= 2 * g.shooter.x <= w < 2 * g.shooter.x + 2
    ensures g.shooter.x + g.shooterSize.width <= w
    // the hoop hangs from the top edge, fits on screen, centred to a pixel
    ensures g.hoop.y == 0
    ensures 0 <= g.hoop.x && g.hoop.x + g.hoopSize.width <= w
    ensures g.hoop.x <= w - (g.hoop.x + g.hoopSize.width) <= g.hoop.x + 1
    // the ball rests directly on the shooter
    ensures g.ballRestY + g.ballSize.height == g.shooter.y
    ensures g.ball == Point(g.shooter.x, g.ballRestY)
    // the header's constants and counters are taken over unchanged
    ensures g.xStep == p.xStep && g.hoopStep == p.hoopStep && g.ballStep == p.ballStep
    ensures g.points == p.points && g.timeRemaining == p.timeRemaining
    ensures g.ballInMotion == p.ballInMotion
  {
    var shooterSize := Size(w / 12, h / 4);
    var shooter := Point(w / 2, h - shooterSize.height);
    var hoopSize := Size(w / 6, h / 9);
    var hoop := Point((w - hoopSize.width) / 2, 0);
    var ballSize := Size(w / 12, w / 12);
    var restY := shooter.y - ballSize.height;
    Game(w, h, shooter, shooterSize, hoop, hoopSize, Point(shooter.x, restY), ballSize, restY,
         p.xStep, p.hoopStep, p.ballStep, p.points, p.timeRemaining, p.ballInMotion)
  }

  /**
   Left arrow: while the shooter's left edge is right of 0 it steps one
   `xStep` left, and a ball at rest goes with it. Nothing else changes.
   */
  function PressLeft(g: Game): (r: Game)
    ensures r == g.(shooter := r.shooter, ball := r.ball)
    ensures r.shooter.y == g.shooter.y && r.ball.y == g.ball.y
    ensures g.xStep != 0 ==> (r.shooter.x != g.shooter.x <==> g.shooter.x > 0)
    ensures r.shooter.x != g.shooter.x ==> r.shooter.x == g.shooter.x - g.xStep
    ensures !g.ballInMotion ==> r.ball.x - r.shooter.x == g.ball.x - g.shooter.x
    ensures g.ballInMotion ==> r.ball == g.ball
  {
    if g.shooter.x > 0 then
      var shooter := g.shooter.(x := g.shooter.x - g.xStep);
      var ball := if !g.ballInMotion then g.ball.(x := g.ball.x - g.xStep) else g.ball;
      g.(shooter := shooter, ball := ball)
    else
      g
  }

  /**
   Right arrow: while the shooter's left edge is left of `screenWidth -
   shooterSize.width` it steps one `xStep` right, and a ball at rest goes with
   it. Nothing else changes.
   */
  function PressRight(g: Game): (r: Game)
    ensures r == g.(shooter := r.shooter, ball := r.ball)
    ensures r.shooter.y == g.shooter.y && r.ball.y == g.ball.y
    ensures g.xStep != 0 ==>
              (r.shooter.x != g.shooter.x <==> g.shooter.x < g.screenWidth - g.shooterSize.width)
    ensures r.shooter.x != g.shooter.x ==> r.shooter.x == g.shooter.x + g.xStep
    ensures !g.ballInMotion ==> r.ball.x - r.shooter.x == g.ball.x - g.shooter.x
    ensures g.ballInMotion ==> r.ball == g.ball
  {
    if g.shooter.x < g.screenWidth - g.shooterSize.width then
      var shooter := g.shooter.(x := g.shooter.x + g.xStep);
      var ball := if !g.ballInMotion then g.ball.(x := g.ball.x + g.xStep) else g.ball;
      g.(shooter := shooter, ball := ball)
    else
      g
  }

  /**
   Space: launches the ball if it sits at its resting height. It only ever
   raises the in-flight flag; positions and points never change.
   */
  function PressSpace(g: Game): (r: Game)
    ensures r == g.(ballInMotion := r.ballInMotion)
    ensures r.ballInMotion <==> g.ballInMotion || g.ball.y == g.ballRestY
  {
    if g.ball.y == g.ballRestY then g.(ballInMotion := true) else g
  }

  /** The key handler; keys other than Left, Right and Space are ignored. */
  function KeyPressEvent(g: Game, k: Key): (r: Game)
    ensures k == Other ==> r == g
    ensures r.points == g.points && r.timeRemaining == g.timeRemaining
    ensures r.hoop == g.hoop && r.hoopStep == g.hoopStep
  {
    match k
    case Left => PressLeft(g)
    case Right => PressRight(g)
    case Space => PressSpace(g)
    case Other => g
  }

  /**
   One hoop animation step: at or past the right edge, or at or past the left
   edge (checked in that order, so at most one flip), the direction reverses;
   then the hoop moves by the (possibly reversed) step.
   */
  function AnimateHoop(g: Game): (r: Game)
    ensures r == g.(hoop := r.hoop, hoopStep := r.hoopStep)
    ensures r.hoop.y == g.hoop.y
    ensures r.hoopStep == g.hoopStep || r.hoopStep == -g.hoopStep
    ensures Abs(r.hoopStep) == Abs(g.hoopStep)
    ensures g.hoopStep != 0 ==>
              (r.hoopStep != g.hoopStep <==>
                 g.hoop.x + g.hoopSize.width >= g.screenWidth || g.hoop.x <= 0)
    ensures r.hoop.x - g.hoop.x == r.hoopStep
  {
    var step :=
      if g.hoop.x + g.hoopSize.width >= g.screenWidth then -g.hoopStep
      else if g.hoop.x <= 0 then -g.hoopStep
      else g.hoopStep;
    g.(hoop := g.hoop.(x := g.hoop.x + step), hoopStep := step)
  }

  /**
   One ball animation step. Once the ball's top is at or above the hoop's
   lower edge it is scored (with the source's `size_t` test), put back on the
   shooter and stops, without also moving in that tick. Otherwise a ball in
   flight rises by `ballStep`.
   */
  function AnimateBall(g: Game): (r: Game)
    // the reset tick
    ensures g.ball.y <= g.hoopSize.height ==>
              r.ball == Point(g.shooter.x, g.ballRestY) && !r.ballInMotion
    ensures g.ball.y <= g.hoopSize.height ==>
              (r.points == g.points + 2 <==> Scoring.IsBallInHoopAsWritten(g).swish)
    // the flight tick
    ensures g.ball.y > g.hoopSize.height && g.ballInMotion ==>
              r.ball == Point(g.ball.x, g.ball.y - g.ballStep) && r.ballInMotion
    ensures g.ball.y > g.hoopSize.height && !g.ballInMotion ==> r == g
    // points move only in a reset tick, and only by 2
    ensures r.points == g.points || (g.ball.y <= g.hoopSize.height && r.points == g.points + 2)
    ensures r == g.(ball := r.ball, ballInMotion := r.ballInMotion, points := r.points)
  {
    var g1 :=
      if g.ball.y <= g.hoopSize.height then
        var scored := Scoring.IsBallInHoopAsWritten(g).after;
        scored.(ball := Point(scored.shooter.x, scored.ballRestY), ballInMotion := false)
      else g;
    if g1.ballInMotion then g1.(ball := g1.ball.(y := g1.ball.y - g1.ballStep)) else g1
  }

  /** The once-a-second tick: one second off the clock, with no lower clamp. */
  function DisplayTimeRemaining(g: Game): (r: Game)
    ensures g.timeRemaining - r.timeRemaining == 1
    ensures r == g.(timeRemaining := r.timeRemaining)
  {
    g.(timeRemaining := g.timeRemaining - 1)
  }

  /** What the widget can be asked to do. */
  datatype Event =
    | KeyPress(key: Key)
    | Frame        // the 10 ms animation timeout
    | Second       // the 1000 ms display timeout

  /**
   One event. Both animation slots are connected to the same timeout, hoop
   first, so one `Frame` runs the hoop step and then the ball step: the ball
   is scored against the hoop where this tick has already moved it.
   */
  function Step(g: Game, e: Event): (r: Game)
    ensures !e.Frame? ==> r.hoop == g.hoop && r.hoopStep == g.hoopStep
    ensures e.Frame? ==> r.hoop == AnimateHoop(g).hoop && r.hoopStep == AnimateHoop(g).hoopStep
    ensures e.Frame? && g.ball.y <= g.hoopSize.height ==>
              (r.points == g.points + 2 <==> Scoring.IsBallInHoopAsWritten(AnimateHoop(g)).swish)
    ensures !e.Frame? ==> r.points == g.points && r.ball.y == g.ball.y
    ensures !e.Second? ==> r.timeRemaining == g.timeRemaining
    ensures e.Second? ==> r == g.(timeRemaining := g.timeRemaining - 1)
  {
    match e
    case KeyPress(k) => KeyPressEvent(g, k)
    case Frame => AnimateBall(AnimateHoop(g))
    case Second => DisplayTimeRemaining(g)
  }

  /** The game after a whole sequence of events, in order. */
  function Run(g: Game, es: seq<Event>): Game
    decreases |es|
  {
    if |es| == 0 then g else Run(Step(g, es[0]), es[1..])
  }

  /** The game after n animation timeouts and no other event. */
  function Frames(g: Game, n: nat): Game
    decreases n
  {
    if n == 0 then g else Frames(Step(g, Frame), n - 1)
  }

  /** The game after n presses of the same key. */
  function Presses(g: Game, k: Key, n: nat): Game
    decreases n
  {
    if n == 0 then g else Presses(KeyPressEvent(g, k), k, n - 1)
  }
}
