/**
 * The tracing board for one letter: its strokes, the pieces of each
 * stroke with their coverage, which strokes are done, which stroke is
 * being traced, and the gesture in progress.
 *
 * Every handler is one atomic step on this state; the pointer samples it
 * receives are already in canvas coordinates.
 */
module LetterDisplay {
  import opened Geometry
  import opened Segmentation
  import opened Coverage

  /** What the end of a gesture decided. */
  datatype Verdict =
    | Ignored                          // fewer than two samples: nothing judged
    | Rejected                         // the gesture is kept as a failed attempt
    | Accepted(letterComplete: bool)   // the stroke is done; `letterComplete` signals the letter

  /** One `false` per stroke. */
  function AllFalse(n: nat): (flags: seq<bool>)
    ensures |flags| == n
    ensures forall i :: 0 <= i < n ==> !flags[i]
  {
    seq(n, _ => false)
  }

  /** The fresh pieces of every stroke, in order. */
  function AllStrokeSegments(paths: seq<string>): (segs: seq<seq<Segment>>)
    ensures |segs| == |paths|
    ensures forall i :: 0 <= i < |paths| ==> segs[i] == StrokeSegments(paths[i])
  {
    seq(|paths|, i requires 0 <= i < |paths| => StrokeSegments(paths[i]))
  }

  class Tracer {
    var strokePaths: seq<string>
    var isDrawing: bool
    var currentPath: seq<Point>
    var attemptedPaths: seq<seq<Point>>
    var currentStrokeIndex: nat
    var completedStrokes: seq<bool>
    var pathSegments: seq<seq<Segment>>

    /**
     * One flag and one piece list per stroke; the index is 0 or names a
     * stroke; every stroke before the current one is done and none after
     * it; each stroke's pieces are its fresh pieces with some covered.
     */
    ghost predicate Valid()
      reads this
    {
      |completedStrokes| == |strokePaths| &&
      |pathSegments| == |strokePaths| &&
      (currentStrokeIndex == 0 || currentStrokeIndex < |strokePaths|) &&
      (forall i :: 0 <= i < currentStrokeIndex ==> completedStrokes[i]) &&
      (forall i :: currentStrokeIndex < i < |completedStrokes| ==> !completedStrokes[i]) &&
      (forall i :: 0 <= i < |pathSegments| ==> CoverageGrows(StrokeSegments(strokePaths[i]), pathSegments[i]))
    }

    /** The board as reset for its strokes: every stroke cut afresh, none done, the first current. */
    ghost predicate IsReset()
      reads this
    {
      pathSegments == AllStrokeSegments(strokePaths) &&
      completedStrokes == AllFalse(|strokePaths|) &&
      currentStrokeIndex == 0
    }

    /** The pieces of the stroke being traced; none when the index names no stroke. */
    function CurrentSegments(): (segs: seq<Segment>)
      reads this
      requires Valid()
      ensures currentStrokeIndex < |strokePaths| ==> segs == pathSegments[currentStrokeIndex]
      ensures currentStrokeIndex >= |strokePaths| ==> segs == []
    {
      if currentStrokeIndex < |pathSegments| then pathSegments[currentStrokeIndex] else []
    }

    /** The board as first shown for `paths`: nothing drawn, nothing done, first stroke current. */
    constructor(paths: seq<string>)
      ensures Valid()
      ensures strokePaths == paths
      ensures pathSegments == AllStrokeSegments(paths)
      ensures completedStrokes == AllFalse(|paths|)
      ensures currentStrokeIndex == 0
      ensures !isDrawing && currentPath == [] && attemptedPaths == []
    {
      isDrawing := false;
      currentPath := [];
      attemptedPaths := [];
      currentStrokeIndex := 0;
      completedStrokes := [];
      pathSegments := [];
      strokePaths := [];
      new;
      ChangeStrokePaths(paths);
    }

    /**
     * A new letter: every stroke is cut afresh, no stroke is done and the
     * first is current. The gesture in progress and the failed attempts
     * are kept.
     */
    method ChangeStrokePaths(paths: seq<string>)
      modifies this
      ensures Valid()
      ensures strokePaths == paths
      ensures pathSegments == AllStrokeSegments(paths)
      ensures completedStrokes == AllFalse(|paths|)
      ensures currentStrokeIndex == 0
      ensures isDrawing == old(isDrawing)
      ensures currentPath == old(currentPath)
      ensures attemptedPaths == old(attemptedPaths)
    {
      var segments: seq<seq<Segment>> := [];
      var i := 0;
      while i < |paths|
        invariant 0 <= i <= |paths|
        invariant |segments| == i
        invariant forall j :: 0 <= j < i ==> segments[j] == StrokeSegments(paths[j])
        invariant unchanged(this)
      {
        var segs := ComputeSegments(paths[i]);
        segments := segments + [segs];
        i := i + 1;
      }
      strokePaths := paths;
      pathSegments := segments;
      completedStrokes := AllFalse(|paths|);
      currentStrokeIndex := 0;
      forall j | 0 <= j < |paths|
        ensures CoverageGrows(StrokeSegments(paths[j]), pathSegments[j])
      {
      }
    }

    /** Pointer down: a new gesture starting at `p`. Coverage is not touched. */
    method StartDrawing(p: Point)
      requires Valid()
      modifies this
      ensures Valid()
      ensures isDrawing && currentPath == [p]
      ensures strokePaths == old(strokePaths) && pathSegments == old(pathSegments)
      ensures completedStrokes == old(completedStrokes)
      ensures currentStrokeIndex == old(currentStrokeIndex)
      ensures attemptedPaths == old(attemptedPaths)
    {
      isDrawing := true;
      currentPath := [p];
    }

    /** Pointer move: outside a gesture nothing happens; inside, `p` covers and is recorded. */
    method Draw(p: Point)
      requires Valid()
      modifies this
      ensures Valid()
      ensures !old(isDrawing) ==>
        currentPath == old(currentPath) && pathSegments == old(pathSegments)
      ensures old(isDrawing) ==>
        currentPath == old(currentPath) + [p] &&
        pathSegments == CoveredBy(old(pathSegments), old(currentStrokeIndex), p)
      ensures isDrawing == old(isDrawing) && strokePaths == old(strokePaths)
      ensures completedStrokes == old(completedStrokes)
      ensures currentStrokeIndex == old(currentStrokeIndex)
      ensures attemptedPaths == old(attemptedPaths)
    {
      if !isDrawing {
        return;
      }
      UpdatePathCoverage(p);
      currentPath := currentPath + [p];
    }

    /**
     * The sample `p` covers every uncovered piece of the current stroke it
     * reaches. The piece lists of the other strokes are left alone, and
     * nothing happens when the index names no stroke.
     */
    method UpdatePathCoverage(p: Point)
      requires Valid()
      modifies this
      ensures Valid()
      ensures pathSegments == CoveredBy(old(pathSegments), old(currentStrokeIndex), p)
      ensures isDrawing == old(isDrawing) && strokePaths == old(strokePaths)
      ensures currentPath == old(currentPath)
      ensures completedStrokes == old(completedStrokes)
      ensures currentStrokeIndex == old(currentStrokeIndex)
      ensures attemptedPaths == old(attemptedPaths)
    {
      if currentStrokeIndex >= |pathSegments| {
        return;
      }
      var segs := pathSegments[currentStrokeIndex];
      var newSegs: seq<Segment> := [];
      var covered := false;
      var i := 0;
      while i < |segs|
        invariant 0 <= i <= |segs|
        invariant newSegs == CoverStroke(segs[..i], p)
        invariant covered <==> NewlyCovers(segs[..i], p)
      {
        var seg := segs[i];
        var next := seg;
        if !seg.covered && WithinReach(p, seg) {
          covered := true;
          next := seg.(covered := true);
        }
        assert segs[..i + 1] == segs[..i] + [seg];
        newSegs := newSegs + [next];
        i := i + 1;
      }
      assert segs[..i] == segs;
      CoverStrokeChanges(segs, p);
      if covered {
        pathSegments := pathSegments[currentStrokeIndex := newSegs];
      } else {
        assert pathSegments == pathSegments[currentStrokeIndex := newSegs];
      }
      CoverageGrowsTransitive(StrokeSegments(strokePaths[currentStrokeIndex]), segs, newSegs, p);
    }

    /**
     * Pointer up. A gesture of fewer than two samples is dropped. Otherwise
     * the current stroke is judged: on a pass it is marked done, the failed
     * attempts are cleared and the next stroke becomes current, or, on the
     * last stroke, the letter is signalled complete when every stroke is
     * done; on a fail the gesture joins the failed attempts. The gesture
     * always ends empty.
     */
    method StopDrawing() returns (verdict: Verdict)
      requires Valid()
      modifies this
      ensures Valid()
      ensures !isDrawing && currentPath == []
      ensures strokePaths == old(strokePaths) && pathSegments == old(pathSegments)
      ensures |old(currentPath)| < 2 ==>
        verdict == Ignored &&
        currentStrokeIndex == old(currentStrokeIndex) &&
        completedStrokes == old(completedStrokes) &&
        attemptedPaths == old(attemptedPaths)
      ensures |old(currentPath)| >= 2 && !MeetsThreshold(old(CurrentSegments())) ==>
        verdict == Rejected &&
        attemptedPaths == old(attemptedPaths) + [old(currentPath)] &&
        currentStrokeIndex == old(currentStrokeIndex) &&
        completedStrokes == old(completedStrokes)
      ensures |old(currentPath)| >= 2 && MeetsThreshold(old(CurrentSegments())) ==>
        old(currentStrokeIndex) < |strokePaths| &&
        completedStrokes == old(completedStrokes)[old(currentStrokeIndex) := true] &&
        attemptedPaths == [] &&
        (old(currentStrokeIndex) < |strokePaths| - 1 ==>
           currentStrokeIndex == old(currentStrokeIndex) + 1 && verdict == Accepted(false)) &&
        (old(currentStrokeIndex) == |strokePaths| - 1 ==>
           currentStrokeIndex == old(currentStrokeIndex) && verdict == Accepted(true))
      ensures verdict == Accepted(true) ==>
        forall i :: 0 <= i < |completedStrokes| ==> completedStrokes[i]
    {
      isDrawing := false;
      if |currentPath| < 2 {
        currentPath := [];
        return Ignored;
      }
      var segs := CurrentSegments();
      var isCorrect := MeetsThreshold(segs);
      if isCorrect {
        var newCompleted := completedStrokes[currentStrokeIndex := true];
        completedStrokes := newCompleted;
        attemptedPaths := [];
        if currentStrokeIndex < |strokePaths| - 1 {
          currentStrokeIndex := currentStrokeIndex + 1;
          verdict := Accepted(false);
        } else {
          var everyDone := forall i | 0 <= i < |newCompleted| :: newCompleted[i];
          verdict := Accepted(everyDone);
        }
      } else {
        attemptedPaths := attemptedPaths + [currentPath];
        verdict := Rejected;
      }
      currentPath := [];
    }
  }

  /** The piece lists after the sample `p` on stroke `index`; unchanged when `index` names no stroke. */
  function CoveredBy(pathSegments: seq<seq<Segment>>, index: nat, p: Point): (r: seq<seq<Segment>>)
    ensures |r| == |pathSegments|
    ensures forall i :: 0 <= i < |r| && i != index ==> r[i] == pathSegments[i]
    ensures index < |r| ==> r[index] == CoverStroke(pathSegments[index], p)
  {
    if index < |pathSegments| then pathSegments[index := CoverStroke(pathSegments[index], p)]
    else pathSegments
  }

  lemma CoverageGrowsTransitive(base: seq<Segment>, segs: seq<Segment>, newSegs: seq<Segment>, p: Point)
    requires CoverageGrows(base, segs)
    requires newSegs == CoverStroke(segs, p)
    ensures CoverageGrows(base, newSegs)
  {
  }
}
