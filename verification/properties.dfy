/**
 Properties of the easy-mode screen that relate several transitions: moving
 left and right undo each other, launching is one-shot, the clock counts down
 one per second without a floor, points only ever grow by two at a reset, and
 every launched ball lands.
 */
module Properties {
  import opened GameState
  import opened EasyMode
  import opened Invariants
  import Scoring

  // ---------------------------------------------------------------------------
  // Moving the shooter

  /** An effective Left is undone by Right, ball included. */
  lemma LeftThenRight(g: Game)
    requires Inv(g) && g.shooter.x > 0
    ensures PressRight(PressLeft(g)) == g
  {
  }

  /** An effective Right is undone by Left, ball included. */
  lemma RightThenLeft(g: Game)
    requires Inv(g) && g.shooter.x < g.screenWidth - g.shooterSize.width
    ensures PressLeft(PressRight(g)) == g
  {
  }

  /** n presses of Left that all take effect move shooter and resting ball n steps left. */
  lemma {:induction false} LeftPresses(g: Game, n: nat)
    requires g.xStep > 0
    requires n == 0 || g.shooter.x > (n - 1) * g.xStep
    ensures var r := Presses(g, Left, n);
      && r.shooter == g.shooter.(x := g.shooter.x - n * g.xStep)
      && r.ball == (if g.ballInMotion then g.ball else g.ball.(x := g.ball.x - n * g.xStep))
      && r == g.(shooter := r.shooter, ball := r.ball)
    decreases n
  {
    if n > 0 {
      assert (n - 1) * g.xStep == (n - 2) * g.xStep + g.xStep;
      assert n * g.xStep == (n - 1) * g.xStep + g.xStep;
      var g1 := PressLeft(g);
      assert g1.shooter.x == g.shooter.x - g.xStep;
      LeftPresses(g1, n - 1);
    }
  }

  /** n presses of Right that all take effect move shooter and resting ball n steps right. */
  lemma {:induction false} RightPresses(g: Game, n: nat)
    requires g.xStep > 0
    requires n == 0 || g.shooter.x + (n - 1) * g.xStep < g.screenWidth - g.shooterSize.width
    ensures var r := Presses(g, Right, n);
      && r.shooter == g.shooter.(x := g.shooter.x + n * g.xStep)
      && r.ball == (if g.ballInMotion then g.ball else g.ball.(x := g.ball.x + n * g.xStep))
      && r == g.(shooter := r.shooter, ball := r.ball)
    decreases n
  {
    if n > 0 {
      assert (n - 1) * g.xStep == (n - 2) * g.xStep + g.xStep;
      assert n * g.xStep == (n - 1) * g.xStep + g.xStep;
      var g1 := PressRight(g);
      assert g1.shooter.x == g.shooter.x + g.xStep;
      RightPresses(g1, n - 1);
    }
  }

  /**
   Pressing Left n times and then Right n times restores the game, provided
   the screen edge does not stop any of the Left presses.
   */
  lemma LeftsThenRights(g: Game, n: nat)
    requires Inv(g)
    requires n == 0 || g.shooter.x > (n - 1) * g.xStep
    ensures Presses(Presses(g, Left, n), Right, n) == g
  {
    LeftPresses(g, n);
    var l := Presses(g, Left, n);
    if n > 0 {
      assert l.shooter.x + (n - 1) * g.xStep == g.shooter.x - g.xStep;
    }
    RightPresses(l, n);
  }

  /**
   Pressing Right n times and then Left n times restores the game, provided
   the screen edge does not stop any of the Right presses.
   */
  lemma RightsThenLefts(g: Game, n: nat)
    requires Inv(g)
    requires n == 0 || g.shooter.x + (n - 1) * g.xStep < g.screenWidth - g.shooterSize.width
    ensures Presses(Presses(g, Right, n), Left, n) == g
  {
    RightPresses(g, n);
    var r := Presses(g, Right, n);
    if n > 0 {
      assert r.shooter.x - (n - 1) * g.xStep == g.shooter.x + g.xStep;
    }
    LeftPresses(r, n);
  }

  // ---------------------------------------------------------------------------
  // Launching

  /**
   Space launches only a ball at its resting height, a second press adds
   nothing, and a ball already on its way up ignores it.
   */
  lemma SpaceIsOneShot(g: Game)
    requires Inv(g)
    ensures PressSpace(PressSpace(g)) == PressSpace(g)
    ensures !g.ballInMotion ==> PressSpace(g).ballInMotion
    ensures g.ballInMotion ==> PressSpace(g) == g
    ensures g.ball.y < g.ballRestY ==> PressSpace(g) == g
  {
  }

  // ---------------------------------------------------------------------------
  // The clock

  function Seconds(es: seq<Event>): nat
    decreases |es|
  {
    if |es| == 0 then 0 else (if es[0].Second? then 1 else 0) + Seconds(es[1..])
  }

  /** After any events, the clock has lost exactly one per Second tick. */
  lemma {:induction false} RunCountdown(g: Game, es: seq<Event>)
    ensures Run(g, es).timeRemaining == g.timeRemaining - Seconds(es)
    decreases |es|
  {
    if |es| > 0 {
      RunCountdown(Step(g, es[0]), es[1..]);
    }
  }

  /** Nothing clamps the clock: more ticks than seconds left make it negative. */
  lemma CountdownGoesNegative(g: Game, es: seq<Event>)
    requires Seconds(es) > g.timeRemaining
    ensures Run(g, es).timeRemaining < 0
  {
    RunCountdown(g, es);
  }

  // ---------------------------------------------------------------------------
  // Points

  /** Points change only in an animation tick that finds the ball at hoop height, by exactly 2. */
  lemma StepPoints(g: Game, e: Event)
    ensures var r := Step(g, e);
      r.points == g.points || (e == Frame && g.ball.y <= g.hoopSize.height && r.points == g.points + 2)
  {
  }

  function FrameCount(es: seq<Event>): nat
    decreases |es|
  {
    if |es| == 0 then 0 else (if es[0].Frame? then 1 else 0) + FrameCount(es[1..])
  }

  /** Over any events, points never fall, grow in pairs, and by at most 2 per animation tick. */
  lemma {:induction false} RunPoints(g: Game, es: seq<Event>)
    ensures var r := Run(g, es);
      && g.points <= r.points <= g.points + 2 * FrameCount(es)
      && (r.points - g.points) % 2 == 0
    decreases |es|
  {
    if |es| > 0 {
      StepPoints(g, es[0]);
      RunPoints(Step(g, es[0]), es[1..]);
    }
  }

  /**
   When the resting ball sits below the hoop's lower edge, only a launched
   ball can score.
   */
  lemma ScoreNeedsLaunch(g: Game, e: Event)
    requires Inv(g) && g.ballRestY > g.hoopSize.height
    requires Step(g, e).points != g.points
    ensures g.ballInMotion && e == Frame
  {
    StepPoints(g, e);
  }

  /**
   On a screen so wide that the resting ball already reaches hoop height,
   every tick runs the scoring test: here the very first tick scores without
   Space ever being pressed.
   */
  lemma ScoreWithoutLaunchOnWideScreen(p: Params)
    requires p.hoopStep == 1 && !p.ballInMotion
    ensures var g := Init(1200, 120, p);
      && g.ballRestY <= g.hoopSize.height
      && Step(g, Frame).points == p.points + 2
  {
    var g := Init(1200, 120, p);
    var h := AnimateHoop(g);
    assert h.hoop.x == 501;
    assert Scoring.BallCentre(h) == 650;
  }

  /**
   The `size_t` scoring test costs a real game points. On a 120 by 90 screen
   (shooter step 10, hoop step 30, ball step 24) the trace 6 Left, 3 Frame,
   Space, 3 Frame brings the ball to hoop height with its centre at 5 while
   the hoop, having overshot the left edge, spans -10..10: the centre is
   strictly inside, but no points are awarded.
   */
  lemma MissedSwishAtLeftEdge()
    ensures var g := Init(120, 90, Params(10, 30, 24, 0, 60, false));
      var beforeLast :=
        Frames(PressSpace(Frames(Presses(g, Left, 6), 3)), 2);
      var moved := AnimateHoop(beforeLast);
      && moved.hoop.x == -10 && moved.hoopSize.width == 20
      && moved.ball.y <= moved.hoopSize.height
      && Scoring.BallCentre(moved) == 5
      && Scoring.IsBallInHoop(moved).swish
      && !Scoring.IsBallInHoopAsWritten(moved).swish
      && Step(beforeLast, Frame).points == 0
      && Run(g, seq(6, _ => KeyPress(Left)) + seq(3, _ => Frame) + [KeyPress(Space)]
                + seq(3, _ => Frame)).points == 0
  {
    var g := Init(120, 90, Params(10, 30, 24, 0, 60, false));
    // the game with the shooter at x and the hoop at (hx, step), ball at (bx, ballY)
    var at := (x: int, hx: int, step: int, bx: int, ballY: int, flying: bool) =>
      Game(120, 90, Point(x, 68), Size(10, 22), Point(hx, 0), Size(20, 10),
           Point(bx, ballY), Size(10, 10), 58, 10, step, 24, 0, 60, flying);
    assert g == at(60, 50, 30, 60, 58, false);
    LeftPresses(g, 6);
    var l := Presses(g, Left, 6);
    assert l == at(0, 50, 30, 0, 58, false);
    assert Step(at(0, 50, 30, 0, 58, false), Frame) == at(0, 80, 30, 0, 58, false);
    assert Step(at(0, 80, 30, 0, 58, false), Frame) == at(0, 110, 30, 0, 58, false);
    assert Step(at(0, 110, 30, 0, 58, false), Frame) == at(0, 80, -30, 0, 58, false);
    FramesUnfold3(l);
    assert Frames(l, 3) == at(0, 80, -30, 0, 58, false);
    var s := PressSpace(Frames(l, 3));
    assert s == at(0, 80, -30, 0, 58, true);
    assert Step(at(0, 80, -30, 0, 58, true), Frame) == at(0, 50, -30, 0, 34, true);
    assert Step(at(0, 50, -30, 0, 34, true), Frame) == at(0, 20, -30, 0, 10, true);
    FramesUnfold3(s);
    var beforeLast := Frames(s, 2);
    assert beforeLast == at(0, 20, -30, 0, 10, true);
    var moved := AnimateHoop(beforeLast);
    assert moved == at(0, -10, -30, 0, 10, true);
    assert !Scoring.IsBallInHoopAsWritten(moved).swish;
    assert Step(beforeLast, Frame).points == 0;
    assert Frames(s, 3) == Step(beforeLast, Frame);
    RunTrace(g, 6, 3, 3);
  }

  /** Unrolls the first three animation ticks. */
  lemma FramesUnfold3(g: Game)
    ensures Frames(g, 2) == Step(Step(g, Frame), Frame)
    ensures Frames(g, 3) == Step(Step(Step(g, Frame), Frame), Frame)
  {
  }

  /** Running the trace of `MissedSwishAtLeftEdge` as events equals applying its pieces in turn. */
  lemma RunTrace(g: Game, a: nat, b: nat, c: nat)
    ensures Run(g, seq(a, _ => KeyPress(Left)) + seq(b, _ => Frame) + [KeyPress(Space)]
                + seq(c, _ => Frame))
            == Frames(PressSpace(Frames(Presses(g, Left, a), b)), c)
  {
    var ls := seq(a, _ => KeyPress(Left));
    var fs := seq(b, _ => Frame);
    var cs := seq(c, _ => Frame);
    var rest := [KeyPress(Space)] + cs;
    assert ls + fs + [KeyPress(Space)] + cs == ls + (fs + rest);
    RunAppend(g, ls, fs + rest);
    RunPresses(g, a);
    var g1 := Presses(g, Left, a);
    RunAppend(g1, fs, rest);
    RunFrames(g1, b);
    var g2 := Frames(g1, b);
    RunAppend(g2, [KeyPress(Space)], cs);
    assert Run(g2, [KeyPress(Space)]) == PressSpace(g2) by {
      assert [KeyPress(Space)][1..] == [];
    }
    RunFrames(PressSpace(g2), c);
  }

  lemma {:induction false} RunAppend(g: Game, xs: seq<Event>, ys: seq<Event>)
    ensures Run(g, xs + ys) == Run(Run(g, xs), ys)
    decreases |xs|
  {
    if |xs| > 0 {
      assert (xs + ys)[1..] == xs[1..] + ys;
      RunAppend(Step(g, xs[0]), xs[1..], ys);
    } else {
      assert xs + ys == ys;
    }
  }

  lemma {:induction false} RunPresses(g: Game, n: nat)
    ensures Run(g, seq(n, _ => KeyPress(Left))) == Presses(g, Left, n)
    decreases n
  {
    if n > 0 {
      assert seq(n, _ => KeyPress(Left))[1..] == seq(n - 1, _ => KeyPress(Left));
      RunPresses(KeyPressEvent(g, Left), n - 1);
    }
  }

  lemma {:induction false} RunFrames(g: Game, n: nat)
    ensures Run(g, seq(n, _ => Frame)) == Frames(g, n)
    decreases n
  {
    if n > 0 {
      assert seq(n, _ => Frame)[1..] == seq(n - 1, _ => Frame);
      RunFrames(Step(g, Frame), n - 1);
    }
  }

  // ---------------------------------------------------------------------------
  // Flight

  /** While the ball is still below the hoop's edge, each tick lifts it one step and changes no points. */
  lemma {:induction false} FlightClosedForm(g: Game, n: nat)
    requires g.ballInMotion && g.ballStep > 0
    requires n == 0 || g.ball.y - (n - 1) * g.ballStep > g.hoopSize.height
    ensures var r := Frames(g, n);
      && r.ballInMotion
      && r.ball == Point(g.ball.x, g.ball.y - n * g.ballStep)
      && r.points == g.points
      && r.shooter == g.shooter
    decreases n
  {
    if n > 0 {
      assert (n - 1) * g.ballStep == (n - 2) * g.ballStep + g.ballStep;
      assert n * g.ballStep == (n - 1) * g.ballStep + g.ballStep;
      assert g.ball.y > g.hoopSize.height;
      var g1 := Step(g, Frame);
      assert g1.ball == Point(g.ball.x, g.ball.y - g.ballStep);
      FlightClosedForm(g1, n - 1);
    }
  }

  /** Number of animation ticks until a ball in flight at height y is back on the shooter. */
  function LandingTicks(y: int, threshold: int, step: int): (n: nat)
    requires step > 0
    ensures n >= 1
    decreases y - threshold
  {
    if y <= threshold then 1 else 1 + LandingTicks(y - step, threshold, step)
  }

  /**
   Every launched ball comes back: after `LandingTicks` animation ticks it is
   at rest on the shooter again, whatever the step size, because the landing
   test is `<=` rather than an exact match.
   */
  lemma {:induction false} FlightLands(g: Game)
    requires Inv(g) && g.ballInMotion
    ensures var r := Frames(g, LandingTicks(g.ball.y, g.hoopSize.height, g.ballStep));
      && !r.ballInMotion
      && r.ball == Point(g.shooter.x, g.ballRestY)
      && r.shooter == g.shooter
    decreases g.ball.y - g.hoopSize.height
  {
    var g1 := Step(g, Frame);
    FramePreservesInv(g);
    if g.ball.y > g.hoopSize.height {
      assert g1.ballInMotion && g1.ball.y == g.ball.y - g.ballStep;
      FlightLands(g1);
    } else {
      assert Frames(g1, 0) == g1;
    }
  }

  // ---------------------------------------------------------------------------
  // Viewports

  /**
   The constructor's guarantees need a viewport at least 2 pixels wide: at
   1 pixel the hoop starts on the left edge and its first tick takes it a
   whole step past it.
   */
  lemma HoopFullOvershootOnOnePixelScreen(h: nat, p: Params)
    requires ValidParams(p)
    ensures Init(1, h, p).hoop.x == 0
    ensures Step(Init(1, h, p), Frame).hoop.x == -p.hoopStep
  {
  }
}
