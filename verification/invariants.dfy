/**
 Invariants of the easy-mode screen that hold after any interleaving of key
 presses and timeouts, starting from the constructor's layout.
 */
module Invariants {
  import opened GameState
  import opened EasyMode

  /** The steps are the header's: shooter and ball steps positive, hoop step non-zero. */
  predicate StepsValid(g: Game) {
    g.xStep > 0 && g.ballStep > 0 && g.hoopStep != 0
  }

  /** The shooter overshoots either edge by less than one step. */
  predicate ShooterInRange(g: Game) {
    -g.xStep < g.shooter.x < g.screenWidth - g.shooterSize.width + g.xStep
  }

  /** A ball that is not in flight sits on the shooter at its resting height. */
  predicate BallGlued(g: Game) {
    !g.ballInMotion ==> g.ball == Point(g.shooter.x, g.ballRestY)
  }

  /**
   The ball is never below its resting height, and once it has left it has
   passed the hoop's lower edge by less than one step.
   */
  predicate BallInBand(g: Game) {
    g.ball.y <= g.ballRestY && (g.ball.y == g.ballRestY || g.ball.y > g.hoopSize.height - g.ballStep)
  }

  /** The hoop overshoots either edge by less than one step. */
  predicate HoopInRange(g: Game) {
    var m: int := Abs(g.hoopStep);
    -m < g.hoop.x < g.screenWidth - g.hoopSize.width + m
  }

  /**
   The hoop moves right only while clear of the left edge and left only while
   clear of the right edge, so the edge tests never turn it the wrong way.
   */
  predicate HoopHeading(g: Game) {
    && (g.hoopStep > 0 ==> g.hoop.x > 0)
    && (g.hoopStep < 0 ==> g.hoop.x + g.hoopSize.width < g.screenWidth)
  }

  predicate Inv(g: Game) {
    && StepsValid(g)
    && ShooterInRange(g)
    && BallGlued(g)
    && BallInBand(g)
    && HoopInRange(g)
    && HoopHeading(g)
  }

  /** Everything the game never changes after construction. */
  predicate SameLayout(a: Game, b: Game) {
    && a.screenWidth == b.screenWidth && a.screenHeight == b.screenHeight
    && a.shooterSize == b.shooterSize && a.hoopSize == b.hoopSize && a.ballSize == b.ballSize
    && a.shooter.y == b.shooter.y && a.hoop.y == b.hoop.y && a.ballRestY == b.ballRestY
    && a.xStep == b.xStep && a.ballStep == b.ballStep && Abs(a.hoopStep) == Abs(b.hoopStep)
  }

  /** The constructor establishes the invariant on any viewport at least 2 pixels wide. */
  lemma InitEstablishesInv(w: nat, h: nat, p: Params)
    requires w >= 2 && ValidParams(p)
    ensures Inv(Init(w, h, p))
  {
    var g := Init(w, h, p);
    assert g.hoop.x > 0 by {
      assert g.hoopSize.width * 6 <= w;
    }
  }

  lemma KeyPressPreservesInv(g: Game, k: Key)
    requires Inv(g)
    ensures Inv(KeyPressEvent(g, k))
    ensures SameLayout(g, KeyPressEvent(g, k))
  {
  }

  /** The coupled hoop invariant survives one bounce step. */
  lemma {:induction false} AnimateHoopPreservesInv(g: Game)
    requires StepsValid(g) && HoopInRange(g) && HoopHeading(g)
    ensures var r := AnimateHoop(g);
      StepsValid(r) && HoopInRange(r) && HoopHeading(r)
  {
    var r := AnimateHoop(g);
    var m: int := Abs(g.hoopStep);
    var right := g.screenWidth - g.hoopSize.width;
    if g.hoop.x >= right {
      // only a hoop heading right can be there; it turns and moves left
      assert g.hoopStep > 0;
      assert r.hoopStep == -m && r.hoop.x == g.hoop.x - m;
    } else if g.hoop.x <= 0 {
      // only a hoop heading left can be there; it turns and moves right
      assert g.hoopStep < 0;
      assert r.hoopStep == m && r.hoop.x == g.hoop.x + m;
    } else {
      assert r.hoopStep == g.hoopStep;
    }
  }

  lemma FramePreservesInv(g: Game)
    requires Inv(g)
    ensures Inv(Step(g, Frame))
    ensures SameLayout(g, Step(g, Frame))
  {
    AnimateHoopPreservesInv(g);
  }

  lemma StepPreservesInv(g: Game, e: Event)
    requires Inv(g)
    ensures Inv(Step(g, e))
    ensures SameLayout(g, Step(g, e))
  {
    match e
    case KeyPress(k) => KeyPressPreservesInv(g, k);
    case Frame => FramePreservesInv(g);
    case Second =>
  }

  /** The invariant holds after any sequence of events, and the layout never changes. */
  lemma {:induction false} RunPreservesInv(g: Game, es: seq<Event>)
    requires Inv(g)
    ensures Inv(Run(g, es))
    ensures SameLayout(g, Run(g, es))
    decreases |es|
  {
    if |es| > 0 {
      StepPreservesInv(g, es[0]);
      RunPreservesInv(Step(g, es[0]), es[1..]);
    }
  }

  /**
   From the constructor's layout, after any interleaving of keys and ticks:
   shooter and hoop overshoot the screen edges by less than one step, and a
   ball at rest sits on the shooter.
   */
  lemma ReachableBounds(w: nat, h: nat, p: Params, es: seq<Event>)
    requires w >= 2 && ValidParams(p)
    ensures var g := Run(Init(w, h, p), es);
      && -p.xStep < g.shooter.x < w - w / 12 + p.xStep
      && -p.hoopStep < g.hoop.x < w - w / 6 + p.hoopStep
      && (!g.ballInMotion ==> g.ball.x == g.shooter.x && g.ball.y + w / 12 == g.shooter.y)
      && Abs(g.hoopStep) == p.hoopStep
  {
    InitEstablishesInv(w, h, p);
    RunPreservesInv(Init(w, h, p), es);
  }
}
