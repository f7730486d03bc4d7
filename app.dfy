/**
 * The page: the session and the tracing board wired together. The board
 * always shows the strokes of the session's current letter; when the
 * letter changes the board is reset for the new strokes; the board's
 * letter-complete signal goes to the session.
 */
module App {
  import opened Geometry
  import opened Coverage
  import opened Home
  import opened LetterDisplay

  class Game {
    const session: Session
    const board: Tracer

    /** Both halves are consistent and the board shows the current letter's strokes. */
    ghost predicate Valid()
      reads this, session, board
    {
      session.Valid() && board.Valid() &&
      board.strokePaths == GetStrokePathsForLetter(session.CurrentLetter())
    }

    /** The page as first shown: letter A, nothing completed, guide and celebration off, a fresh board. */
    constructor()
      ensures Valid() && fresh(session) && fresh(board)
      ensures session.currentLetterIndex == 0 && session.completedLetters == []
      ensures !session.showGuide && !session.showCelebration
      ensures board.strokePaths == GetStrokePathsForLetter('A') && board.IsReset()
      ensures !board.isDrawing && board.currentPath == [] && board.attemptedPaths == []
    {
      var s := new Session();
      var b := new Tracer(GetStrokePathsForLetter(Alphabet[0]));
      session := s;
      board := b;
    }

    /**
     * After the letter index may have moved: reset the board when the
     * letter changed, keeping the gesture in progress and the failed
     * attempts; leave it alone otherwise.
     */
    method FollowLetter(oldIndex: nat)
      requires session.Valid() && board.Valid()
      requires oldIndex <= LastIndex
      requires board.strokePaths == GetStrokePathsForLetter(Alphabet[oldIndex])
      modifies board
      ensures Valid()
      ensures session.currentLetterIndex != oldIndex ==>
        board.IsReset() &&
        board.isDrawing == old(board.isDrawing) &&
        board.currentPath == old(board.currentPath) &&
        board.attemptedPaths == old(board.attemptedPaths)
      ensures session.currentLetterIndex == oldIndex ==> unchanged(board)
    {
      if session.currentLetterIndex != oldIndex {
        board.ChangeStrokePaths(GetStrokePathsForLetter(session.CurrentLetter()));
      }
    }

    /** The back button: the index steps back, and the board is reset exactly when it moved. */
    method Previous()
      requires Valid()
      modifies session, board
      ensures Valid()
      ensures session.currentLetterIndex == PreviousIndex(old(session.currentLetterIndex))
      ensures session.completedLetters == old(session.completedLetters)
      ensures session.showGuide == old(session.showGuide)
      ensures session.showCelebration == old(session.showCelebration)
      ensures session.currentLetterIndex != old(session.currentLetterIndex) ==>
        board.IsReset() &&
        board.isDrawing == old(board.isDrawing) &&
        board.currentPath == old(board.currentPath) &&
        board.attemptedPaths == old(board.attemptedPaths)
      ensures session.currentLetterIndex == old(session.currentLetterIndex) ==> unchanged(board)
    {
      var oldIndex := session.currentLetterIndex;
      session.HandlePrevious();
      FollowLetter(oldIndex);
    }

    /** The forward button: the index steps forward, and the board is reset exactly when it moved. */
    method Next()
      requires Valid()
      modifies session, board
      ensures Valid()
      ensures session.currentLetterIndex == NextIndex(old(session.currentLetterIndex))
      ensures session.completedLetters == old(session.completedLetters)
      ensures session.showGuide == old(session.showGuide)
      ensures session.showCelebration == old(session.showCelebration)
      ensures session.currentLetterIndex != old(session.currentLetterIndex) ==>
        board.IsReset() &&
        board.isDrawing == old(board.isDrawing) &&
        board.currentPath == old(board.currentPath) &&
        board.attemptedPaths == old(board.attemptedPaths)
      ensures session.currentLetterIndex == old(session.currentLetterIndex) ==> unchanged(board)
    {
      var oldIndex := session.currentLetterIndex;
      session.HandleNext();
      FollowLetter(oldIndex);
    }

    /** The guide button: the guide flips; the letter, the record, the celebration and the board stay. */
    method ToggleGuide()
      requires Valid()
      modifies session
      ensures Valid()
      ensures session.showGuide == !old(session.showGuide)
      ensures session.currentLetterIndex == old(session.currentLetterIndex)
      ensures session.completedLetters == old(session.completedLetters)
      ensures session.showCelebration == old(session.showCelebration)
    {
      session.ToggleGuide();
    }

    /** Pointer down on the board: a new gesture; coverage, progress and attempts stay. */
    method PointerDown(p: Point)
      requires Valid()
      modifies board
      ensures Valid()
      ensures board.isDrawing && board.currentPath == [p]
      ensures board.strokePaths == old(board.strokePaths)
      ensures board.pathSegments == old(board.pathSegments)
      ensures board.completedStrokes == old(board.completedStrokes)
      ensures board.currentStrokeIndex == old(board.currentStrokeIndex)
      ensures board.attemptedPaths == old(board.attemptedPaths)
    {
      board.StartDrawing(p);
    }

    /** Pointer move on the board: inside a gesture the sample covers the current stroke and is recorded. */
    method PointerMove(p: Point)
      requires Valid()
      modifies board
      ensures Valid()
      ensures !old(board.isDrawing) ==>
        board.currentPath == old(board.currentPath) && board.pathSegments == old(board.pathSegments)
      ensures old(board.isDrawing) ==>
        board.currentPath == old(board.currentPath) + [p] &&
        board.pathSegments == CoveredBy(old(board.pathSegments), old(board.currentStrokeIndex), p)
      ensures board.isDrawing == old(board.isDrawing)
      ensures board.strokePaths == old(board.strokePaths)
      ensures board.completedStrokes == old(board.completedStrokes)
      ensures board.currentStrokeIndex == old(board.currentStrokeIndex)
      ensures board.attemptedPaths == old(board.attemptedPaths)
    {
      board.Draw(p);
    }

    /**
     * Pointer up: the board judges the gesture; when it signals the letter
     * complete, the session records the letter, and `celebrate` tells
     * whether this was the letter's first completion.
     */
    method PointerUp() returns (verdict: Verdict, celebrate: bool)
      requires Valid()
      modifies session, board
      ensures Valid()
      // the board
      ensures !board.isDrawing && board.currentPath == []
      ensures board.strokePaths == old(board.strokePaths)
      ensures board.pathSegments == old(board.pathSegments)
      ensures |old(board.currentPath)| < 2 ==>
        verdict == Ignored &&
        board.currentStrokeIndex == old(board.currentStrokeIndex) &&
        board.completedStrokes == old(board.completedStrokes) &&
        board.attemptedPaths == old(board.attemptedPaths)
      ensures |old(board.currentPath)| >= 2 && !MeetsThreshold(old(board.CurrentSegments())) ==>
        verdict == Rejected &&
        board.attemptedPaths == old(board.attemptedPaths) + [old(board.currentPath)] &&
        board.currentStrokeIndex == old(board.currentStrokeIndex) &&
        board.completedStrokes == old(board.completedStrokes)
      ensures |old(board.currentPath)| >= 2 && MeetsThreshold(old(board.CurrentSegments())) ==>
        old(board.currentStrokeIndex) < |board.strokePaths| &&
        board.completedStrokes == old(board.completedStrokes)[old(board.currentStrokeIndex) := true] &&
        board.attemptedPaths == [] &&
        (old(board.currentStrokeIndex) < |board.strokePaths| - 1 ==>
           board.currentStrokeIndex == old(board.currentStrokeIndex) + 1 && verdict == Accepted(false)) &&
        (old(board.currentStrokeIndex) == |board.strokePaths| - 1 ==>
           board.currentStrokeIndex == old(board.currentStrokeIndex) && verdict == Accepted(true))
      ensures verdict == Accepted(true) ==>
        forall i :: 0 <= i < |board.completedStrokes| ==> board.completedStrokes[i]
      // the session
      ensures session.currentLetterIndex == old(session.currentLetterIndex)
      ensures session.showGuide == old(session.showGuide)
      ensures verdict == Accepted(true) ==>
        (celebrate <==> old(session.CurrentLetter()) !in old(session.completedLetters)) &&
        (celebrate ==>
           session.completedLetters == old(session.completedLetters) + [old(session.CurrentLetter())] &&
           session.showCelebration) &&
        (!celebrate ==>
           session.completedLetters == old(session.completedLetters) &&
           session.showCelebration == old(session.showCelebration))
      ensures verdict != Accepted(true) ==>
        !celebrate &&
        session.completedLetters == old(session.completedLetters) &&
        session.showCelebration == old(session.showCelebration)
      ensures verdict == Accepted(true) ==> session.CurrentLetter() in session.completedLetters
    {
      verdict := board.StopDrawing();
      celebrate := false;
      if verdict == Accepted(true) {
        celebrate := session.HandleLetterComplete();
      }
    }

    /**
     * The celebration ends: it is hidden, the page moves to the next letter
     * unless at Z, and the board is reset exactly when the letter moved.
     */
    method CelebrationDone()
      requires Valid()
      modifies session, board
      ensures Valid()
      ensures !session.showCelebration
      ensures session.currentLetterIndex == NextIndex(old(session.currentLetterIndex))
      ensures session.completedLetters == old(session.completedLetters)
      ensures session.showGuide == old(session.showGuide)
      ensures session.currentLetterIndex != old(session.currentLetterIndex) ==>
        board.IsReset() &&
        board.isDrawing == old(board.isDrawing) &&
        board.currentPath == old(board.currentPath) &&
        board.attemptedPaths == old(board.attemptedPaths)
      ensures session.currentLetterIndex == old(session.currentLetterIndex) ==> unchanged(board)
    {
      var oldIndex := session.currentLetterIndex;
      session.HandleCelebrationComplete();
      FollowLetter(oldIndex);
    }
  }
}
