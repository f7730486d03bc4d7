/**
 * Turning one stroke's path string into the list of short pieces the
 * matcher tracks coverage on.
 *
 * The first four numbers of the path are read as a start point and an end
 * point; the straight chord between them is cut into `ceil(length / 30)`
 * pieces of equal length, all initially uncovered. Every later number of
 * the path (curve and control points) is ignored.
 */
module Segmentation {
  import opened Digits
  import opened Geometry

  datatype Segment = Segment(start: Point, end: Point, covered: bool)

  /** Longest piece, in canvas units, a stroke is cut into. */
  const MaxPieceLength: nat := 30

  /**
   * Number of pieces for a chord whose squared length is `d2`: the least
   * `n` with `30 * n >= sqrt(d2)`, that is `ceil(sqrt(d2) / 30)`.
   */
  function StepCount(d2: nat): (n: nat)
    ensures MaxPieceLength * MaxPieceLength * n * n >= d2
    ensures n == 0 || MaxPieceLength * MaxPieceLength * (n - 1) * (n - 1) < d2
  {
    StepsFrom(d2, 0)
  }

  /** Search for the step count upwards from a candidate `n` known not to overshoot. */
  function StepsFrom(d2: nat, n: nat): (r: nat)
    requires n == 0 || 900 * (n - 1) * (n - 1) < d2
    ensures 900 * r * r >= d2
    ensures r == 0 || 900 * (r - 1) * (r - 1) < d2
    decreases d2 - n
  {
    if 900 * n * n >= d2 then n
    else
      assert n <= n * n;
      StepsFrom(d2, n + 1)
  }

  /** The `i`-th of `n` equal pieces of the chord from `s` to `e`, uncovered. */
  function ChordPiece(s: Point, e: Point, n: nat, i: nat): Segment
    requires i < n
  {
    Segment(Lerp(s, e, i as real / n as real), Lerp(s, e, (i + 1) as real / n as real), false)
  }

  /** The chord from `s` to `e` cut into `n` equal pieces. */
  function ChordSegments(s: Point, e: Point, n: nat): (segs: seq<Segment>)
    ensures |segs| == n
    ensures forall i :: 0 <= i < n ==> !segs[i].covered
    ensures n > 0 ==> segs[0].start == s && segs[n - 1].end == e
    ensures forall i :: 0 <= i < n - 1 ==> segs[i].end == segs[i + 1].start
  {
    seq(n, i requires 0 <= i < n => ChordPiece(s, e, n, i))
  }

  /** Squared length of the chord between two parsed points, in integers. */
  function ChordSqLength(x0: nat, y0: nat, x1: nat, y1: nat): (d2: nat)
  {
    var dx, dy := x1 - x0, y1 - y0;
    SquareIsNatural(dx);
    SquareIsNatural(dy);
    dx * dx + dy * dy
  }

  lemma SquareIsNatural(u: int)
    ensures u * u >= 0
  {
    if u < 0 {
      assert u * u == (-u) * (-u);
    }
  }

  /**
   * The pieces of one stroke: no pieces when the path holds fewer than four
   * numbers, otherwise the chord between the first two coordinate pairs.
   */
  function StrokeSegments(path: string): (segs: seq<Segment>)
    ensures forall i :: 0 <= i < |segs| ==> !segs[i].covered
  {
    var coords := DigitRuns(path);
    if |coords| < 4 then []
    else
      var start := Point(coords[0] as real, coords[1] as real);
      var end := Point(coords[2] as real, coords[3] as real);
      ChordSegments(start, end, StepCount(ChordSqLength(coords[0], coords[1], coords[2], coords[3])))
  }

  /** Builds the pieces one at a time, as the stroke matcher does. */
  method BuildSegments(start: Point, end: Point, steps: nat) returns (segs: seq<Segment>)
    ensures segs == ChordSegments(start, end, steps)
  {
    segs := [];
    var i := 0;
    while i < steps
      invariant 0 <= i <= steps
      invariant |segs| == i
      invariant forall j :: 0 <= j < i ==> segs[j] == ChordPiece(start, end, steps, j)
    {
      var t1 := i as real / steps as real;
      var t2 := (i + 1) as real / steps as real;
      segs := segs + [Segment(Lerp(start, end, t1), Lerp(start, end, t2), false)];
      i := i + 1;
    }
  }

  /** The segmentation of one path string, computed step by step. */
  method ComputeSegments(path: string) returns (segs: seq<Segment>)
    ensures segs == StrokeSegments(path)
  {
    var coords := DigitRuns(path);
    if |coords| < 4 {
      return [];
    }
    var start := Point(coords[0] as real, coords[1] as real);
    var end := Point(coords[2] as real, coords[3] as real);
    var steps := StepCount(ChordSqLength(coords[0], coords[1], coords[2], coords[3]));
    segs := BuildSegments(start, end, steps);
  }

  /** The step count is the only number satisfying its characterisation. */
  lemma StepCountUnique(d2: nat, m: nat)
    requires 900 * m * m >= d2
    requires m == 0 || 900 * (m - 1) * (m - 1) < d2
    ensures StepCount(d2) == m
  {
    var n := StepCount(d2);
    if n < m {
      SquareMonotone(n, m - 1);
    } else if m < n {
      SquareMonotone(m, n - 1);
    }
  }

  lemma SquareMonotone(u: nat, v: nat)
    requires u <= v
    ensures u * u <= v * v
  {
  }

  /** A chord of length zero is cut into no pieces, and any other into at least one. */
  lemma StepCountZero(d2: nat)
    ensures StepCount(d2) == 0 <==> d2 == 0
  {
  }

  /** A chord whose length is an exact multiple `k` of 30 is cut into exactly `k` pieces. */
  lemma StepCountOfMultiple(k: nat)
    ensures StepCount(900 * k * k) == k
  {
    if k > 0 {
      SquareMonotone(k - 1, k);
      assert (k - 1) * (k - 1) < k * k;
    }
    StepCountUnique(900 * k * k, k);
  }

  /** The squared integer length of a chord is zero only when its two ends coincide. */
  lemma ChordSqLengthZero(x0: nat, y0: nat, x1: nat, y1: nat)
    ensures ChordSqLength(x0, y0, x1, y1) == 0 <==> x0 == x1 && y0 == y1
  {
    var dx, dy := x1 - x0, y1 - y0;
    SquareIsNatural(dx);
    SquareIsNatural(dy);
    if dx != 0 {
      SquarePositive(dx);
    }
    if dy != 0 {
      SquarePositive(dy);
    }
  }

  lemma SquarePositive(u: int)
    requires u != 0
    ensures u * u > 0
  {
    if u < 0 {
      assert u * u == (-u) * (-u);
    }
  }

  /**
   * A stroke has no pieces exactly when its path holds fewer than four
   * numbers or its first two coordinate pairs coincide.
   */
  lemma {:induction false} EmptyStroke(path: string)
    ensures StrokeSegments(path) == [] <==>
      var coords := DigitRuns(path);
      |coords| < 4 || (coords[0] == coords[2] && coords[1] == coords[3])
  {
    var coords := DigitRuns(path);
    if |coords| >= 4 {
      StepCountZero(ChordSqLength(coords[0], coords[1], coords[2], coords[3]));
      ChordSqLengthZero(coords[0], coords[1], coords[2], coords[3]);
    }
  }

  /** Only the first four numbers matter: a tail after a separator never changes the pieces. */
  lemma TailIgnored(path: string, tail: string)
    requires |DigitRuns(path)| >= 4
    requires tail == [] || !IsDigit(tail[0])
    ensures StrokeSegments(path + tail) == StrokeSegments(path)
  {
    DigitRunsAppend(path, tail);
  }

  /** A path whose head is "M x0,y0 <cmd> x1,y1" is cut along the chord between those two points. */
  lemma PathHeadSegments(x0: nat, y0: nat, cmd: string, x1: nat, y1: nat, tail: string)
    requires NoDigits(cmd)
    requires tail == [] || !IsDigit(tail[0])
    ensures StrokeSegments(PathHead(x0, y0, cmd, x1, y1) + tail)
         == ChordSegments(Point(x0 as real, y0 as real), Point(x1 as real, y1 as real),
                          StepCount(ChordSqLength(x0, y0, x1, y1)))
  {
    DigitRunsOfPathHead(x0, y0, cmd, x1, y1);
    TailIgnored(PathHead(x0, y0, cmd, x1, y1), tail);
  }

  /** A straight stroke "M x0,y0 L x1,y1" is cut along the chord between its two points. */
  lemma LineSegments(x0: nat, y0: nat, x1: nat, y1: nat)
    ensures StrokeSegments(LinePath(x0, y0, x1, y1))
         == ChordSegments(Point(x0 as real, y0 as real), Point(x1 as real, y1 as real),
                          StepCount(ChordSqLength(x0, y0, x1, y1)))
  {
    DigitRunsOfLinePath(x0, y0, x1, y1);
  }

  /** The integer squared length of a chord is its real squared length. */
  lemma ChordSqLengthIsSqDist(x0: nat, y0: nat, x1: nat, y1: nat)
    ensures ChordSqLength(x0, y0, x1, y1) as real
         == SqDist(Point(x0 as real, y0 as real), Point(x1 as real, y1 as real))
  {
    var dx, dy := x1 - x0, y1 - y0;
    assert (dx * dx) as real == (dx as real) * (dx as real);
    assert (dy * dy) as real == (dy as real) * (dy as real);
    assert (x0 as real - x1 as real) * (x0 as real - x1 as real) == (dx as real) * (dx as real);
    assert (y0 as real - y1 as real) * (y0 as real - y1 as real) == (dy as real) * (dy as real);
  }

  /** Along one axis, consecutive cut points of `n` pieces are `d / n` apart. */
  lemma PieceAxis(a: real, d: real, i: real, n: real)
    requires n > 0.0
    ensures (a + d * (i / n)) - (a + d * ((i + 1.0) / n)) == -(d / n)
  {
    assert (i + 1.0) / n == i / n + 1.0 / n;
    assert d * ((i + 1.0) / n) == d * (i / n) + d * (1.0 / n);
    assert d * (1.0 / n) == d / n;
  }

  lemma ScaledSquare(d: real, n: real)
    requires n > 0.0
    ensures (-(d / n)) * (-(d / n)) * (n * n) == d * d
  {
    var q := d / n;
    assert q * n == d;
    assert (-q) * (-q) * (n * n) == (q * n) * (q * n);
  }

  /** All `n` pieces have the same length: each squared length times `n * n` is the chord's. */
  lemma PieceLength(s: Point, e: Point, n: nat, i: nat)
    requires i < n
    ensures SqDist(ChordPiece(s, e, n, i).start, ChordPiece(s, e, n, i).end) * ((n * n) as real)
         == SqDist(s, e)
  {
    var nr, ir := n as real, i as real;
    var dx, dy := e.x - s.x, e.y - s.y;
    var piece := ChordPiece(s, e, n, i);
    assert (i + 1) as real == ir + 1.0;
    PieceAxis(s.x, dx, ir, nr);
    PieceAxis(s.y, dy, ir, nr);
    assert piece.start.x - piece.end.x == -(dx / nr);
    assert piece.start.y - piece.end.y == -(dy / nr);
    ScaledSquare(dx, nr);
    ScaledSquare(dy, nr);
    assert (n * n) as real == nr * nr;
    assert SqDist(s, e) == dx * dx + dy * dy;
  }

  /** No piece of a stroke is longer than 30 canvas units. */
  lemma PiecesAreShort(path: string, i: nat)
    requires i < |StrokeSegments(path)|
    ensures SqDist(StrokeSegments(path)[i].start, StrokeSegments(path)[i].end)
         <= (MaxPieceLength * MaxPieceLength) as real
  {
    var coords := DigitRuns(path);
    var start := Point(coords[0] as real, coords[1] as real);
    var end := Point(coords[2] as real, coords[3] as real);
    var d2 := ChordSqLength(coords[0], coords[1], coords[2], coords[3]);
    ChordSqLengthIsSqDist(coords[0], coords[1], coords[2], coords[3]);
    ChordPiecesAreShort(start, end, StepCount(d2), d2, i);
  }

  /** Cutting a chord of squared length `d2` into `n` pieces with `900 * n * n >= d2` leaves pieces of at most 30 units. */
  lemma ChordPiecesAreShort(s: Point, e: Point, n: nat, d2: nat, i: nat)
    requires SqDist(s, e) == d2 as real
    requires 900 * n * n >= d2
    requires i < n
    ensures SqDist(ChordSegments(s, e, n)[i].start, ChordSegments(s, e, n)[i].end) <= 900.0
  {
    var piece := ChordPiece(s, e, n, i);
    var len := SqDist(piece.start, piece.end);
    var nn := (n * n) as real;
    assert nn >= 1.0 by { SquareMonotone(1, n); }
    assert d2 as real <= 900.0 * nn by { assert 900 * (n * n) >= d2; }
    assert len * nn == d2 as real by { PieceLength(s, e, n, i); }
    PieceBound(len, nn, d2 as real);
  }

  lemma PieceBound(piece: real, nn: real, d2: real)
    requires nn > 0.0 && piece * nn == d2 && d2 <= 900.0 * nn
    ensures piece <= 900.0
  {
  }
}
