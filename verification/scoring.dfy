/**
 The scoring test of the easy-mode screen: when the ball reaches hoop height,
 the shot counts iff the ball's horizontal centre lies strictly between the
 hoop's left and right edges. Ball width and all vertical extents are ignored.
 */
module Scoring {
  import opened GameState
  import CInts

  /**
   The ball's horizontal centre. Ball widths are never negative (they are a
   twelfth of the screen width), so Dafny's division agrees with C++'s here.
   */
  function BallCentre(g: Game): int {
    g.ball.x + g.ballSize.width / 2
  }

  /** Outcome of one scoring test: whether it scored, and the game afterwards. */
  datatype Shot = Shot(swish: bool, after: Game)

  /**
   The scoring test with signed comparisons, as the code evidently intends.
   A centre exactly on either edge does not score; a swish is worth two
   points and nothing else in the game changes.
   */
  function IsBallInHoop(g: Game): (r: Shot)
    ensures r.swish <==> g.hoop.x < BallCentre(g) < g.hoop.x + g.hoopSize.width
    ensures BallCentre(g) <= g.hoop.x ==> !r.swish
    ensures BallCentre(g) >= g.hoop.x + g.hoopSize.width ==> !r.swish
    ensures r.swish ==> r.after.points == g.points + 2
    ensures !r.swish ==> r.after == g
    ensures r.after == g.(points := r.after.points)
  {
    var c := BallCentre(g);
    var swish := c > g.hoop.x && c < g.hoop.x + g.hoopSize.width;
    Shot(swish, if swish then g.(points := g.points + 2) else g)
  }

  /**
   The scoring test exactly as the source evaluates it: the centre is held in
   a `size_t`, so the centre and both hoop edges are compared after conversion
   to unsigned 64-bit values. A swish is worth two points and nothing else in
   the game changes.
   */
  function IsBallInHoopAsWritten(g: Game): (r: Shot)
    ensures r.swish <==>
              CInts.ToSizeT(g.hoop.x) < CInts.ToSizeT(BallCentre(g))
                                      < CInts.ToSizeT(g.hoop.x + g.hoopSize.width)
    ensures r.swish ==> r.after.points == g.points + 2
    ensures !r.swish ==> r.after == g
    ensures r.after == g.(points := r.after.points)
  {
    var c := CInts.ToSizeT(BallCentre(g));
    var swish := c > CInts.ToSizeT(g.hoop.x) && c < CInts.ToSizeT(g.hoop.x + g.hoopSize.width);
    Shot(swish, if swish then g.(points := g.points + 2) else g)
  }

  /** All quantities of the scoring test fit in a C++ `int`. */
  predicate IntOperands(g: Game) {
    && CInts.IsInt(BallCentre(g))
    && CInts.IsInt(g.hoop.x)
    && CInts.IsInt(g.hoop.x + g.hoopSize.width)
  }

  /**
   Exact characterisation of the unsigned test: it agrees with the signed one
   except while the hoop straddles the left screen edge, where it never scores.
   */
  lemma AsWrittenVersusSigned(g: Game)
    requires IntOperands(g)
    requires g.hoopSize.width >= 0
    ensures IsBallInHoopAsWritten(g).swish <==>
              IsBallInHoop(g).swish && !(g.hoop.x < 0 <= g.hoop.x + g.hoopSize.width)
  {
    var c := BallCentre(g);
    var lo := g.hoop.x;
    var hi := g.hoop.x + g.hoopSize.width;
    CInts.IntToSizeT(c);
    CInts.IntToSizeT(lo);
    CInts.IntToSizeT(hi);
  }

  /** Both tests agree whenever the hoop's left edge and the centre are on screen. */
  lemma AsWrittenAgreesOnScreen(g: Game)
    requires IntOperands(g)
    requires g.hoopSize.width >= 0
    requires g.hoop.x >= 0 && BallCentre(g) >= 0
    ensures IsBallInHoopAsWritten(g) == IsBallInHoop(g)
  {
    AsWrittenVersusSigned(g);
  }

  /** A concrete miss: the hoop one pixel past the left edge, the ball dead centre. */
  lemma AsWrittenMissesCentredBall(g: Game)
    requires g.hoop == Point(-1, 0) && g.hoopSize.width == 50
    requires g.ball.x == 15 && g.ballSize.width == 10
    ensures BallCentre(g) == 20
    ensures IsBallInHoop(g).swish
    ensures !IsBallInHoopAsWritten(g).swish
  {
  }

  /**
   A hoop spanning 100..150 and a ball 10 wide. A centre of 125 scores two
   points; centres 99 and 151, and the edges 100 and 150 themselves, do not.
   Both the signed and the `size_t` test give these answers.
   */
  lemma ScoringExamples(g: Game)
    requires g.hoop.x == 100 && g.hoopSize.width == 50 && g.ballSize.width == 10
    ensures g.ball.x == 120 ==>
              && BallCentre(g) == 125
              && IsBallInHoop(g).swish && IsBallInHoop(g).after.points == g.points + 2
              && IsBallInHoopAsWritten(g) == IsBallInHoop(g)
    ensures g.ball.x in {94, 95, 145, 146} ==>
              && BallCentre(g) in {99, 100, 150, 151}
              && !IsBallInHoop(g).swish && IsBallInHoop(g).after.points == g.points
              && IsBallInHoopAsWritten(g) == IsBallInHoop(g)
  {
  }
}
