/**
 * Coverage of a stroke's pieces by pointer samples, and the verdict on a
 * finished gesture.
 *
 * A sample covers every still-uncovered piece lying closer than 50 canvas
 * units to it; covered pieces stay covered. A gesture passes when at least
 * one piece is covered and covered pieces make up at least 70% of the
 * stroke.
 */
module Coverage {
  import opened Geometry
  import opened Segmentation

  /** Reach of a pointer sample, in canvas units. */
  const Threshold: real := 50.0

  /** The sample `p` is strictly closer than the threshold to the piece. */
  predicate WithinReach(p: Point, seg: Segment)
    ensures SqDist(p, seg.start) < Threshold * Threshold ==> WithinReach(p, seg)
    ensures SqDist(p, seg.end) < Threshold * Threshold ==> WithinReach(p, seg)
    ensures seg.start == seg.end ==> (WithinReach(p, seg) <==> SqDist(p, seg.start) < Threshold * Threshold)
  {
    NearestOnSegment(p, seg.start, seg.end, 0.0);
    NearestOnSegment(p, seg.start, seg.end, 1.0);
    assert Lerp(seg.start, seg.end, 0.0) == seg.start;
    assert Lerp(seg.start, seg.end, 1.0) == seg.end;
    PointToSegmentSqDist(p, seg.start, seg.end) < Threshold * Threshold
  }

  /** One piece after the sample `p`: covered if it was already, or if `p` reaches it. */
  function CoverSegment(seg: Segment, p: Point): (r: Segment)
    ensures r.start == seg.start && r.end == seg.end
    ensures r.covered <==> seg.covered || WithinReach(p, seg)
  {
    if seg.covered then seg
    else if WithinReach(p, seg) then seg.(covered := true)
    else seg
  }

  /** Every piece of a stroke after the sample `p`. */
  function CoverStroke(segs: seq<Segment>, p: Point): (r: seq<Segment>)
    ensures |r| == |segs|
    ensures forall i :: 0 <= i < |segs| ==> r[i] == CoverSegment(segs[i], p)
  {
    seq(|segs|, i requires 0 <= i < |segs| => CoverSegment(segs[i], p))
  }

  /** Some piece not yet covered is reached by `p`. */
  predicate NewlyCovers(segs: seq<Segment>, p: Point) {
    exists i :: 0 <= i < |segs| && !segs[i].covered && WithinReach(p, segs[i])
  }

  /** Number of covered pieces. */
  function CoveredCount(segs: seq<Segment>): (c: nat)
    ensures c <= |segs|
  {
    if segs == [] then 0
    else CoveredCount(segs[..|segs| - 1]) + (if segs[|segs| - 1].covered then 1 else 0)
  }

  /** At least one piece covered and covered pieces at least 70% of the stroke. */
  predicate MeetsThreshold(segs: seq<Segment>)
    ensures MeetsThreshold(segs) ==> |segs| > 0 && 2 * CoveredCount(segs) > |segs|
    ensures (forall i :: 0 <= i < |segs| ==> segs[i].covered) ==> (MeetsThreshold(segs) <==> |segs| > 0)
  {
    CoveredCountFull(segs);
    CoveredCount(segs) > 0 && 10 * CoveredCount(segs) >= 7 * |segs|
  }

  /** Each piece is covered at least as much after as before: `after` refines `before`. */
  predicate CoverageGrows(before: seq<Segment>, after: seq<Segment>) {
    |before| == |after| &&
    forall i :: 0 <= i < |before| ==>
      after[i].start == before[i].start && after[i].end == before[i].end &&
      (before[i].covered ==> after[i].covered)
  }

  /**
   * A sample reaches a piece exactly when some point of the piece lies
   * strictly within the threshold of it.
   */
  lemma WithinReachIffSomePointClose(p: Point, seg: Segment)
    ensures WithinReach(p, seg) <==>
      exists t :: 0.0 <= t <= 1.0 && SqDist(p, Lerp(seg.start, seg.end, t)) < Threshold * Threshold
  {
    if WithinReach(p, seg) {
      var c := ClampedParam(p, seg.start, seg.end);
      DistanceAttained(p, seg.start, seg.end);
      assert SqDist(p, Lerp(seg.start, seg.end, c)) < Threshold * Threshold;
    }
    if exists t :: 0.0 <= t <= 1.0 && SqDist(p, Lerp(seg.start, seg.end, t)) < Threshold * Threshold {
      var t :| 0.0 <= t <= 1.0 && SqDist(p, Lerp(seg.start, seg.end, t)) < Threshold * Threshold;
      NearestOnSegment(p, seg.start, seg.end, t);
    }
  }

  /** A sample changes the stroke exactly when it reaches a piece not yet covered. */
  lemma CoverStrokeChanges(segs: seq<Segment>, p: Point)
    ensures CoverStroke(segs, p) != segs <==> NewlyCovers(segs, p)
  {
    var r := CoverStroke(segs, p);
    if NewlyCovers(segs, p) {
      var i :| 0 <= i < |segs| && !segs[i].covered && WithinReach(p, segs[i]);
      assert r[i] != segs[i];
    } else {
      assert forall i :: 0 <= i < |segs| ==> r[i] == segs[i];
    }
  }

  /** Coverage never shrinks under a sample. */
  lemma CoverStrokeGrows(segs: seq<Segment>, p: Point)
    ensures CoverageGrows(segs, CoverStroke(segs, p))
  {
  }

  /** Covering more pieces never lowers the count. */
  lemma {:induction false} CoveredCountMonotone(before: seq<Segment>, after: seq<Segment>)
    requires CoverageGrows(before, after)
    ensures CoveredCount(before) <= CoveredCount(after)
    decreases |before|
  {
    if before != [] {
      var k := |before| - 1;
      CoveredCountMonotone(before[..k], after[..k]);
    }
  }

  /** Once a stroke meets the threshold, further samples keep it there. */
  lemma MeetsThresholdPersists(segs: seq<Segment>, p: Point)
    requires MeetsThreshold(segs)
    ensures MeetsThreshold(CoverStroke(segs, p))
  {
    CoverStrokeGrows(segs, p);
    CoveredCountMonotone(segs, CoverStroke(segs, p));
  }

  /** Counting splits over concatenation. */
  lemma {:induction false} CoveredCountAppend(a: seq<Segment>, b: seq<Segment>)
    ensures CoveredCount(a + b) == CoveredCount(a) + CoveredCount(b)
    decreases |b|
  {
    if b == [] {
      assert a + b == a;
    } else {
      var k := |b| - 1;
      assert (a + b)[..|a + b| - 1] == a + b[..k];
      assert (a + b)[|a + b| - 1] == b[k];
      CoveredCountAppend(a, b[..k]);
    }
  }

  /** The count is the whole stroke exactly when every piece is covered. */
  lemma {:induction false} CoveredCountFull(segs: seq<Segment>)
    ensures CoveredCount(segs) == |segs| <==> forall i :: 0 <= i < |segs| ==> segs[i].covered
    decreases |segs|
  {
    if segs != [] {
      var k := |segs| - 1;
      CoveredCountFull(segs[..k]);
      assert forall i :: 0 <= i < k ==> segs[..k][i] == segs[i];
    }
  }

  /** The count is zero exactly when no piece is covered. */
  lemma {:induction false} CoveredCountZero(segs: seq<Segment>)
    ensures CoveredCount(segs) == 0 <==> forall i :: 0 <= i < |segs| ==> !segs[i].covered
    decreases |segs|
  {
    if segs != [] {
      var k := |segs| - 1;
      CoveredCountZero(segs[..k]);
      assert forall i :: 0 <= i < k ==> segs[..k][i] == segs[i];
    }
  }

  /**
   * The integer form of the verdict agrees with the ratio test: a gesture
   * passes exactly when the stroke has pieces and at least 70% of them are
   * covered. In particular a stroke without pieces never passes.
   */
  lemma MeetsThresholdIsRatio(segs: seq<Segment>)
    ensures MeetsThreshold(segs) <==>
      |segs| > 0 && (CoveredCount(segs) as real) / (|segs| as real) >= 0.7
  {
    if |segs| > 0 {
      RatioTest(CoveredCount(segs), |segs|);
    }
  }

  lemma RatioTest(c: nat, n: nat)
    requires n > 0
    ensures (c > 0 && 10 * c >= 7 * n) <==> (c as real) / (n as real) >= 0.7
  {
    DivisionAtLeast(c as real, n as real, 0.7);
  }

  lemma DivisionAtLeast(x: real, y: real, k: real)
    requires y > 0.0
    ensures x / y >= k <==> x >= k * y
  {
    var q := x / y;
    assert q * y == x;
    if q >= k {
      assert q * y >= k * y;
    } else {
      assert q * y < k * y;
    }
  }
}
