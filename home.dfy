/**
 * The game session: the fixed alphabet and its stroke table, which letter
 * is on the board, which letters have been completed, and the guide and
 * celebration switches.
 */
module Home {
  import opened Digits
  import opened Geometry
  import opened Segmentation

  /** The 26 capital letters, in order. */
  const Alphabet: string := "ABCDEFGHIJKLMNOPQRSTUVWXYZ"

  /** Index of the last letter. */
  const LastIndex: nat := 25

  /** The strokes of each letter, in tracing order, as path strings. */
  const LetterPaths: map<char, seq<string>> := map[
    'A' := [
      "M 300,500 L 400,100",
      "M 400,100 L 500,500",
      "M 350,300 L 450,300"],
    'B' := [
      "M 300,100 L 300,500",
      "M 300,100 L 450,100 Q 500,100 500,200" +
        " Q 500,300 300,300",
      "M 300,300 L 450,300 Q 500,300 500,400" +
        " Q 500,500 300,500"],
    'C' := [
      "M 500,150 Q 500,100 450,100 L 350,100" +
        " Q 300,100 300,150 L 300,450" +
        " Q 300,500 350,500 L 450,500" +
        " Q 500,500 500,450"],
    'D' := [
      "M 300,100 L 300,500",
      "M 300,100 L 400,100 Q 500,100 500,250" +
        " L 500,350 Q 500,500 400,500 L 300,500"],
    'E' := [
      "M 500,100 L 300,100",
      "M 300,100 L 300,500",
      "M 300,300 L 450,300",
      "M 300,500 L 500,500"],
    'F' := [
      "M 500,100 L 300,100",
      "M 300,100 L 300,500",
      "M 300,300 L 450,300"],
    'G' := [
      "M 500,150 Q 500,100 450,100 L 350,100" +
        " Q 300,100 300,150 L 300,450" +
        " Q 300,500 350,500 L 450,500" +
        " Q 500,500 500,450 L 500,300 L 400,300"],
    'H' := [
      "M 300,100 L 300,500",
      "M 500,100 L 500,500",
      "M 300,300 L 500,300"],
    'I' := [
      "M 400,100 L 400,500"],
    'J' := [
      "M 500,100 L 500,400 Q 500,500 400,500" +
        " L 350,500 Q 300,500 300,400"],
    'K' := [
      "M 300,100 L 300,500",
      "M 300,300 L 500,100",
      "M 300,300 L 500,500"],
    'L' := [
      "M 300,100 L 300,500",
      "M 300,500 L 500,500"],
    'M' := [
      "M 200,500 L 200,100",
      "M 200,100 L 350,300",
      "M 350,300 L 500,100",
      "M 500,100 L 500,500"],
    'N' := [
      "M 300,500 L 300,100",
      "M 300,100 L 500,500",
      "M 500,500 L 500,100"],
    'O' := [
      "M 400,100 Q 300,100 300,200 L 300,400" +
        " Q 300,500 400,500 Q 500,500 500,400" +
        " L 500,200 Q 500,100 400,100"],
    'P' := [
      "M 300,100 L 300,500",
      "M 300,100 L 450,100 Q 500,100 500,200" +
        " Q 500,300 300,300"],
    'Q' := [
      "M 400,100 Q 300,100 300,200 L 300,400" +
        " Q 300,500 400,500 Q 500,500 500,400" +
        " L 500,200 Q 500,100 400,100",
      "M 400,400 L 500,500"],
    'R' := [
      "M 300,100 L 300,500",
      "M 300,100 L 450,100 Q 500,100 500,200" +
        " Q 500,300 300,300",
      "M 300,300 L 500,500"],
    'S' := [
      "M 500,150 Q 500,100 450,100 L 350,100" +
        " Q 300,100 300,150 Q 300,300 500,300" +
        " Q 500,500 350,500 L 350,500" +
        " Q 300,500 300,450"],
    'T' := [
      "M 300,100 L 500,100",
      "M 400,100 L 400,500"],
    'U' := [
      "M 300,100 L 300,400 Q 300,500 400,500" +
        " Q 500,500 500,400 L 500,100"],
    'V' := [
      "M 300,100 L 400,500",
      "M 400,500 L 500,100"],
    'W' := [
      "M 200,100 L 300,500",
      "M 300,500 L 400,300",
      "M 400,300 L 500,500",
      "M 500,500 L 600,100"],
    'X' := [
      "M 300,100 L 500,500",
      "M 500,100 L 300,500"],
    'Y' := [
      "M 300,100 L 400,300",
      "M 500,100 L 400,300",
      "M 400,300 L 400,500"],
    'Z' := [
      "M 300,100 L 500,100",
      "M 500,100 L 300,500",
      "M 300,500 L 500,500"]
  ]

  /** The strokes of a letter the table does not know. */
  const DefaultStrokePaths: seq<string> := ["M 250,100 L 250,500", "M 250,300 L 450,300"]

  /** The strokes shown for `letter`: its table entry, or the default pattern. */
  function GetStrokePathsForLetter(letter: char): (paths: seq<string>)
    ensures letter in LetterPaths ==> paths == LetterPaths[letter]
    ensures letter !in LetterPaths ==> paths == DefaultStrokePaths
    ensures 1 <= |paths| <= 4
  {
    StrokeCountsInRange();
    if letter in LetterPaths then LetterPaths[letter] else DefaultStrokePaths
  }

  /** Every table entry has between one and four strokes. */
  lemma StrokeCountsInRange()
    ensures forall c :: c in LetterPaths ==> 1 <= |LetterPaths[c]| <= 4
  {
  }

  /** The table has an entry for exactly the letters of the alphabet. */
  lemma TableCoversAlphabet()
    ensures forall c :: c in LetterPaths <==> c in Alphabet
  {
  }

  /** The letter before `i`, staying at the first letter. */
  function PreviousIndex(i: nat): (r: nat)
    ensures r <= i
    ensures r == i <==> i == 0
    ensures i - r <= 1
  {
    if i > 0 then i - 1 else 0
  }

  /** The letter after `i`, staying at the last letter. */
  function NextIndex(i: nat): (r: nat)
    ensures r <= LastIndex
    ensures i <= LastIndex ==> i <= r <= i + 1 && (r == i <==> i == LastIndex)
  {
    if i + 1 < LastIndex then i + 1 else LastIndex
  }

  /** Away from the ends, stepping back and forward undo each other. */
  lemma PreviousNextInverse(i: nat)
    requires i <= LastIndex
    ensures i > 0 ==> NextIndex(PreviousIndex(i)) == i
    ensures i < LastIndex ==> PreviousIndex(NextIndex(i)) == i
  {
  }

  /** No letter appears twice. */
  predicate NoDuplicates(letters: seq<char>) {
    forall i, j :: 0 <= i < j < |letters| ==> letters[i] != letters[j]
  }

  /** A list of distinct letters drawn from `pool` is no longer than `pool`. */
  lemma {:induction false} DistinctLettersBounded(letters: seq<char>, pool: seq<char>)
    requires NoDuplicates(letters)
    requires forall i :: 0 <= i < |letters| ==> letters[i] in pool
    ensures |letters| <= |pool|
    decreases |pool|
  {
    if letters != [] {
      var c := letters[|letters| - 1];
      var k :| 0 <= k < |pool| && pool[k] == c;
      var rest := pool[..k] + pool[k + 1..];
      var init := letters[..|letters| - 1];
      forall i | 0 <= i < |init|
        ensures init[i] in rest
      {
        assert init[i] != c;
        var m :| 0 <= m < |pool| && pool[m] == init[i];
        if m < k {
          assert rest[m] == init[i];
        } else {
          assert rest[m - 1] == init[i];
        }
      }
      DistinctLettersBounded(init, rest);
    }
  }

  class Session {
    var currentLetterIndex: nat
    var completedLetters: seq<char>
    var showGuide: bool
    var showCelebration: bool

    /** The index names a letter; completed letters are distinct letters of the alphabet. */
    ghost predicate Valid()
      reads this
    {
      currentLetterIndex <= LastIndex &&
      NoDuplicates(completedLetters) &&
      forall i :: 0 <= i < |completedLetters| ==> completedLetters[i] in Alphabet
    }

    constructor()
      ensures Valid()
      ensures currentLetterIndex == 0 && completedLetters == []
      ensures !showGuide && !showCelebration
    {
      currentLetterIndex := 0;
      completedLetters := [];
      showGuide := false;
      showCelebration := false;
    }

    /** The letter on the board. */
    function CurrentLetter(): (c: char)
      reads this
      requires Valid()
      ensures c in Alphabet
    {
      Alphabet[currentLetterIndex]
    }

    /** The back button is enabled exactly when pressing it would move. */
    function CanGoPrevious(): (b: bool)
      reads this
      ensures b <==> PreviousIndex(currentLetterIndex) != currentLetterIndex
    {
      currentLetterIndex > 0
    }

    /** The forward button is enabled exactly when pressing it would move. */
    function CanGoNext(): (b: bool)
      reads this
      requires Valid()
      ensures b <==> NextIndex(currentLetterIndex) != currentLetterIndex
    {
      currentLetterIndex < LastIndex
    }

    /** Never more letters completed than the alphabet has. */
    lemma CompletedLettersBounded()
      requires Valid()
      ensures |completedLetters| <= |Alphabet|
    {
      DistinctLettersBounded(completedLetters, Alphabet);
    }

    method HandlePrevious()
      requires Valid()
      modifies this
      ensures Valid()
      ensures currentLetterIndex == PreviousIndex(old(currentLetterIndex))
      ensures completedLetters == old(completedLetters)
      ensures showGuide == old(showGuide) && showCelebration == old(showCelebration)
    {
      currentLetterIndex := PreviousIndex(currentLetterIndex);
    }

    method HandleNext()
      requires Valid()
      modifies this
      ensures Valid()
      ensures currentLetterIndex == NextIndex(old(currentLetterIndex))
      ensures completedLetters == old(completedLetters)
      ensures showGuide == old(showGuide) && showCelebration == old(showCelebration)
    {
      currentLetterIndex := NextIndex(currentLetterIndex);
    }

    /**
     * The board reports the current letter done: the first report appends
     * it and starts the celebration (returned as `celebrate`, where the
     * celebration sound plays); later reports change nothing.
     */
    method HandleLetterComplete() returns (celebrate: bool)
      requires Valid()
      modifies this
      ensures Valid()
      ensures celebrate <==> old(CurrentLetter()) !in old(completedLetters)
      ensures celebrate ==>
        completedLetters == old(completedLetters) + [old(CurrentLetter())] && showCelebration
      ensures !celebrate ==>
        completedLetters == old(completedLetters) && showCelebration == old(showCelebration)
      ensures currentLetterIndex == old(currentLetterIndex) && showGuide == old(showGuide)
      ensures CurrentLetter() in completedLetters
    {
      var letter := CurrentLetter();
      celebrate := letter !in completedLetters;
      if celebrate {
        completedLetters := completedLetters + [letter];
        showCelebration := true;
      }
    }

    /** The celebration ends: it is hidden and the board moves on unless at the last letter. */
    method HandleCelebrationComplete()
      requires Valid()
      modifies this
      ensures Valid()
      ensures !showCelebration
      ensures old(currentLetterIndex) < LastIndex ==> currentLetterIndex == old(currentLetterIndex) + 1
      ensures old(currentLetterIndex) == LastIndex ==> currentLetterIndex == LastIndex
      ensures completedLetters == old(completedLetters) && showGuide == old(showGuide)
    {
      showCelebration := false;
      if currentLetterIndex < LastIndex {
        HandleNext();
      }
    }

    method ToggleGuide()
      requires Valid()
      modifies this
      ensures Valid()
      ensures showGuide == !old(showGuide)
      ensures currentLetterIndex == old(currentLetterIndex)
      ensures completedLetters == old(completedLetters) && showCelebration == old(showCelebration)
    {
      showGuide := !showGuide;
    }
  }

  /**
   * A curved stroke is judged on the chord between its first two points:
   * the single stroke of C, which runs round the letter, is cut into two
   * pieces between (500, 150) and (500, 100).
   */
  lemma CurvedStrokeUsesChord()
    ensures StrokeSegments(GetStrokePathsForLetter('C')[0])
         == ChordSegments(Point(500.0, 150.0), Point(500.0, 100.0), 2)
  {
    var tail := " 450,100 L 350,100" + " Q 300,100 300,150 L 300,450" +
                " Q 300,500 350,500 L 450,500" + " Q 500,500 500,450";
    StrokeOfCSplits(tail);
    PathHeadSegments(500, 150, "Q", 500, 100, tail);
    ChordSteps(500, 150, 500, 100, 2);
  }

  /** The stroke of C is the head "M 500,150 Q 500,100" followed by the rest of its curve. */
  lemma StrokeOfCSplits(tail: string)
    requires tail == " 450,100 L 350,100" + " Q 300,100 300,150 L 300,450" +
                     " Q 300,500 350,500 L 450,500" + " Q 500,500 500,450"
    ensures LetterPaths['C'][0] == PathHead(500, 150, "Q", 500, 100) + tail
    ensures tail[0] == ' '
  {
    var rest := " Q 300,100 300,150 L 300,450" + " Q 300,500 350,500 L 450,500" + " Q 500,500 500,450";
    assert LetterPaths['C'][0] == "M 500,150 Q 500,100 450,100 L 350,100" + rest;
    FirstPieceOfC();
    assert tail == " 450,100 L 350,100" + rest;
  }

  lemma FirstPieceOfC()
    ensures "M 500,150 Q 500,100 450,100 L 350,100" == PathHead(500, 150, "Q", 500, 100) + " 450,100 L 350,100"
  {
    assert "M 500,150 Q 500,100 450,100 L 350,100" == "M 500,150 Q 500,100" + " 450,100 L 350,100";
    HeadOfC();
  }

  lemma HeadOfC()
    ensures "M 500,150 Q 500,100" == PathHead(500, 150, "Q", 500, 100)
  {
    assert Decimal(500) == "500";
    assert Decimal(150) == "150";
    assert Decimal(100) == "100";
  }

  /** The first stroke of A, from (300, 500) to (400, 100), about 412 units long, is cut into 14 pieces. */
  lemma FirstStrokeOfA()
    ensures |StrokeSegments(GetStrokePathsForLetter('A')[0])| == 14
  {
    var path := LetterPaths['A'][0];
    assert path == "M 300,500 L 400,100";
    assert path == PathHead(300, 500, "L", 400, 100) + "";
    PathHeadSegments(300, 500, "L", 400, 100, "");
    ChordSteps(300, 500, 400, 100, 14);
  }

  /** The step count of a chord, from the characterisation of `StepCount`. */
  lemma ChordSteps(x0: nat, y0: nat, x1: nat, y1: nat, n: nat)
    requires 900 * n * n >= ChordSqLength(x0, y0, x1, y1)
    requires n == 0 || 900 * (n - 1) * (n - 1) < ChordSqLength(x0, y0, x1, y1)
    ensures StepCount(ChordSqLength(x0, y0, x1, y1)) == n
  {
    StepCountUnique(ChordSqLength(x0, y0, x1, y1), n);
  }
}
