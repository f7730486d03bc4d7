/**
 * Worked examples on one straight stroke, "M 0,0 L 300,0": 300 units
 * long, so cut into ten pieces of 30 units along the x-axis.
 */
module Scenarios {
  import opened Digits
  import opened Geometry
  import opened Segmentation
  import opened Coverage
  import opened LetterDisplay

  /** The `i`-th piece of the stroke: from x = 30 i to x = 30 (i + 1). */
  function AxisPiece(i: nat): Segment {
    Segment(Point(30.0 * i as real, 0.0), Point(30.0 * (i + 1) as real, 0.0), false)
  }

  /** Gap between `x` and the interval [a, b] of the x-axis. */
  function Gap(x: real, a: real, b: real): real {
    if x < a then a - x else if x > b then x - b else 0.0
  }

  /** For a point and a piece both on the x-axis, the distance is the gap between them. */
  lemma AxisDistance(x: real, a: real, b: real)
    requires a < b
    ensures PointToSegmentSqDist(Point(x, 0.0), Point(a, 0.0), Point(b, 0.0)) == Gap(x, a, b) * Gap(x, a, b)
  {
    var p, s, e := Point(x, 0.0), Point(a, 0.0), Point(b, 0.0);
    var len := b - a;
    var lenSq := SqDist(e, s);
    assert lenSq == len * len;
    if lenSq == 0.0 {
      DegenerateSegment(s, e);
    }
    assert Dot(p, s, e) == (x - a) * len;
    DivisionByPositive((x - a) * len, lenSq);
    var param := ProjectionParam(p, s, e);
    assert param * lenSq == (x - a) * len;
    AxisParam(x, a, len, param);
  }

  lemma AxisParam(x: real, a: real, len: real, param: real)
    requires len > 0.0
    requires param * (len * len) == (x - a) * len
    ensures param == (x - a) / len
    ensures param < 0.0 <==> x < a
    ensures param > 1.0 <==> x > a + len
    ensures param * len == x - a
  {
    assert (param * len) * len == (x - a) * len;
    assert param * len == x - a;
  }

  /** The stroke's pieces are the ten 30-unit pieces of the x-axis from 0 to 300. */
  lemma AxisStrokePieces()
    ensures StrokeSegments(LinePath(0, 0, 300, 0)) == seq(10, i requires 0 <= i < 10 => AxisPiece(i))
  {
    AxisStrokeIsChord();
    var segs := ChordSegments(Point(0.0, 0.0), Point(300.0, 0.0), 10);
    forall i | 0 <= i < 10
      ensures segs[i] == AxisPiece(i)
    {
      AxisChordPiece(i);
    }
  }

  lemma AxisStrokeIsChord()
    ensures StrokeSegments(LinePath(0, 0, 300, 0)) == ChordSegments(Point(0.0, 0.0), Point(300.0, 0.0), 10)
  {
    LineSegments(0, 0, 300, 0);
    assert ChordSqLength(0, 0, 300, 0) == 900 * 10 * 10;
    StepCountOfMultiple(10);
  }

  lemma AxisChordPiece(i: nat)
    requires i < 10
    ensures ChordPiece(Point(0.0, 0.0), Point(300.0, 0.0), 10, i) == AxisPiece(i)
  {
  }

  /** Whether a sample at `x` on the axis reaches piece `i`. */
  lemma AxisReach(x: real, i: nat)
    ensures WithinReach(Point(x, 0.0), AxisPiece(i)) <==>
      Gap(x, 30.0 * i as real, 30.0 * (i + 1) as real) < 50.0
  {
    var g := Gap(x, 30.0 * i as real, 30.0 * (i + 1) as real);
    AxisDistance(x, 30.0 * i as real, 30.0 * (i + 1) as real);
    SquareBelow(g, 50.0);
  }

  lemma SquareBelow(g: real, r: real)
    requires g >= 0.0 && r > 0.0
    ensures g * g < r * r <==> g < r
  {
    assert (r - g) * (r + g) == r * r - g * g;
    if g < r {
      ProductPositive(r - g, r + g);
    } else {
      ProductNonNegative(g - r, g + r);
      assert (g - r) * (g + r) == g * g - r * r;
    }
  }

  /**
   * Samples at x = 30, 60 and 90 (after a pointer-down at the origin,
   * which covers nothing) cover the first five pieces and no others:
   * every piece within 50 units of a sample counts, neighbours included.
   * Five of ten is below 70%, so the gesture fails.
   */
  lemma ThreeSamplesCoverHalf()
    ensures
      var after := CoverStroke(CoverStroke(CoverStroke(
        StrokeSegments(LinePath(0, 0, 300, 0)), Point(30.0, 0.0)), Point(60.0, 0.0)), Point(90.0, 0.0));
      CoveredCount(after) == 5 && !MeetsThreshold(after)
  {
    AxisStrokePieces();
    var segs := StrokeSegments(LinePath(0, 0, 300, 0));
    var s1 := CoverStroke(segs, Point(30.0, 0.0));
    var s2 := CoverStroke(s1, Point(60.0, 0.0));
    var after := CoverStroke(s2, Point(90.0, 0.0));
    forall i | 0 <= i < 10
      ensures after[i].covered <==> i < 5
    {
      ReachedByFirstThree(i);
    }
    FiveOfTen(after);
  }

  /** Ten pieces of which exactly the first five are covered: a count of five, below the threshold. */
  lemma FiveOfTen(segs: seq<Segment>)
    requires |segs| == 10
    requires forall i :: 0 <= i < 10 ==> (segs[i].covered <==> i < 5)
    ensures CoveredCount(segs) == 5 && !MeetsThreshold(segs)
  {
    CoveredCountAppend(segs[..5], segs[5..]);
    assert segs[..5] + segs[5..] == segs;
    CoveredCountFull(segs[..5]);
    CoveredCountZero(segs[5..]);
  }

  /** The pieces covered by samples at x = 30, 60 and 90 are the first five. */
  lemma ReachedByFirstThree(i: nat)
    requires i < 10
    ensures
      var once := CoverSegment(AxisPiece(i), Point(30.0, 0.0));
      CoverSegment(CoverSegment(once, Point(60.0, 0.0)), Point(90.0, 0.0)).covered <==> i < 5
  {
    AxisReach(30.0, i);
    AxisReach(60.0, i);
    AxisReach(90.0, i);
  }

  /** Samples every 60 units, from x = 30 to x = 270, cover all ten pieces: the gesture passes. */
  lemma SparseFullTracePasses()
    ensures
      var after := CoverStroke(CoverStroke(CoverStroke(CoverStroke(CoverStroke(
        StrokeSegments(LinePath(0, 0, 300, 0)),
        Point(30.0, 0.0)), Point(90.0, 0.0)), Point(150.0, 0.0)), Point(210.0, 0.0)), Point(270.0, 0.0));
      CoveredCount(after) == 10 && MeetsThreshold(after)
  {
    AxisStrokePieces();
    var segs := StrokeSegments(LinePath(0, 0, 300, 0));
    var s1 := CoverStroke(segs, Point(30.0, 0.0));
    var s2 := CoverStroke(s1, Point(90.0, 0.0));
    var s3 := CoverStroke(s2, Point(150.0, 0.0));
    var s4 := CoverStroke(s3, Point(210.0, 0.0));
    var after := CoverStroke(s4, Point(270.0, 0.0));
    forall i | 0 <= i < 10
      ensures after[i].covered
    {
      AxisReach(30.0, i);
      AxisReach(90.0, i);
      AxisReach(150.0, i);
      AxisReach(210.0, i);
      AxisReach(270.0, i);
    }
    CoveredCountFull(after);
  }

  /**
   * On a board whose only stroke is "M 0,0 L 300,0", a gesture pressed at
   * the origin and dragged through x = 30, 60 and 90 is rejected and kept
   * as a failed attempt.
   */
  method PartialTraceIsRejected() returns (verdict: Verdict, attempts: nat)
    ensures verdict == Rejected
    ensures attempts == 1
  {
    var board := new Tracer([LinePath(0, 0, 300, 0)]);
    board.StartDrawing(Point(0.0, 0.0));
    board.Draw(Point(30.0, 0.0));
    board.Draw(Point(60.0, 0.0));
    board.Draw(Point(90.0, 0.0));
    ThreeSamplesCoverHalf();
    verdict := board.StopDrawing();
    attempts := |board.attemptedPaths|;
  }

  /**
   * On the same board, a gesture dragged along the whole stroke with
   * samples every 60 units completes the stroke and, the stroke being the
   * only one, the letter.
   */
  method FullTraceCompletesLetter() returns (verdict: Verdict)
    ensures verdict == Accepted(true)
  {
    var board := new Tracer([LinePath(0, 0, 300, 0)]);
    board.StartDrawing(Point(0.0, 0.0));
    board.Draw(Point(30.0, 0.0));
    board.Draw(Point(90.0, 0.0));
    board.Draw(Point(150.0, 0.0));
    board.Draw(Point(210.0, 0.0));
    board.Draw(Point(270.0, 0.0));
    SparseFullTracePasses();
    verdict := board.StopDrawing();
  }

  /**
   * Coverage is kept across gestures: after the rejected gesture through
   * x = 30, 60 and 90, a second gesture through x = 210 and 270 alone
   * brings the stroke to ten covered pieces of ten.
   */
  lemma SecondGestureCompletesCoverage()
    ensures
      var first := CoverStroke(CoverStroke(CoverStroke(
        StrokeSegments(LinePath(0, 0, 300, 0)), Point(30.0, 0.0)), Point(60.0, 0.0)), Point(90.0, 0.0));
      var second := CoverStroke(CoverStroke(first, Point(210.0, 0.0)), Point(270.0, 0.0));
      CoveredCount(second) == 10 && MeetsThreshold(second)
  {
    AxisStrokePieces();
    var segs := StrokeSegments(LinePath(0, 0, 300, 0));
    var s1 := CoverStroke(segs, Point(30.0, 0.0));
    var s2 := CoverStroke(s1, Point(60.0, 0.0));
    var first := CoverStroke(s2, Point(90.0, 0.0));
    var s4 := CoverStroke(first, Point(210.0, 0.0));
    var second := CoverStroke(s4, Point(270.0, 0.0));
    forall i | 0 <= i < 10
      ensures second[i].covered
    {
      AxisReach(30.0, i);
      AxisReach(60.0, i);
      AxisReach(90.0, i);
      AxisReach(210.0, i);
      AxisReach(270.0, i);
    }
    CoveredCountFull(second);
  }

  /**
   * Two gestures that each trace well under 70% of the stroke: the first
   * is rejected, the second passes on the coverage both left behind.
   */
  method TwoPartialTracesPass() returns (first: Verdict, second: Verdict)
    ensures first == Rejected
    ensures second == Accepted(true)
  {
    var board := new Tracer([LinePath(0, 0, 300, 0)]);
    board.StartDrawing(Point(0.0, 0.0));
    board.Draw(Point(30.0, 0.0));
    board.Draw(Point(60.0, 0.0));
    board.Draw(Point(90.0, 0.0));
    ThreeSamplesCoverHalf();
    first := board.StopDrawing();
    board.StartDrawing(Point(180.0, 0.0));
    board.Draw(Point(210.0, 0.0));
    board.Draw(Point(270.0, 0.0));
    SecondGestureCompletesCoverage();
    second := board.StopDrawing();
  }

  /**
   * Once the last stroke is done its coverage stays, so any later gesture
   * of two samples, wherever it is drawn, signals the letter complete again.
   */
  method FinishedLetterSignalsAgain() returns (first: Verdict, again: Verdict)
    ensures first == Accepted(true)
    ensures again == Accepted(true)
  {
    var board := new Tracer([LinePath(0, 0, 300, 0)]);
    board.StartDrawing(Point(0.0, 0.0));
    board.Draw(Point(30.0, 0.0));
    board.Draw(Point(90.0, 0.0));
    board.Draw(Point(150.0, 0.0));
    board.Draw(Point(210.0, 0.0));
    board.Draw(Point(270.0, 0.0));
    SparseFullTracePasses();
    first := board.StopDrawing();
    var far := Point(700.0, 550.0);
    board.StartDrawing(far);
    MeetsThresholdPersists(board.pathSegments[0], far);
    board.Draw(far);
    again := board.StopDrawing();
  }
}
