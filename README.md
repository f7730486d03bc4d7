# Letter tracing: the stroke matcher and the session

This project models, in Dafny, the logic of a children's letter-tracing game:

- **The tracing board** (`src/components/game/LetterDisplay.tsx`). It turns each stroke of a letter, given as an SVG path string, into short pieces. It marks pieces as covered while the child drags a pointer. When the pointer is lifted it decides whether the stroke was traced well enough.
- **The page** (`src/components/home.tsx`). It holds the alphabet and the stroke table. It moves between letters, records completed letters and shows or hides the guide and the celebration.

## Modules

| file | module | what it holds |
|---|---|---|
| `digits.dfy` | `Digits` | Pulls the runs of decimal digits out of a path string, the way the regular expression `[0-9]+` with the `g` flag does. Also builds path strings from numbers, so that the extraction can be shown to give those numbers back. |
| `geometry.dfy` | `Geometry` | Points, and the squared distance from a point to a segment. The nearest point is found by projecting and clamping, as the board does. The module proves that this distance is the minimum over the whole segment. |
| `segmentation.dfy` | `Segmentation` | The pieces of one stroke. The chord between the first two coordinate pairs is cut into `ceil(length / 30)` equal, uncovered pieces. |
| `coverage.dfy` | `Coverage` | How a sample covers pieces (strictly closer than 50 units) and how many are covered. The pass test is at least one covered piece and at least 70% covered. |
| `letter_display.dfy` | `LetterDisplay` | The board as a class: its strokes, pieces, done-flags, current stroke, gesture and failed attempts. The pointer handlers are methods on it. |
| `home.dfy` | `Home` | The alphabet, the stroke table, the letter-stepping functions, and the session as a class with its handlers. |
| `app.dfy` | `App` | The page and the board wired together. The board always shows the current letter's strokes, and its letter-complete signal goes to the session. |
| `scenarios.dfy` | `Scenarios` | Worked examples on a 300-unit straight stroke, proved end to end through the board's methods. |

## Modelling choices

- **Exact real arithmetic.** Coordinates are exact reals.
  - Distances are compared squared: `d < 50` becomes `d² < 2500`.
  - The step count `ceil(hypot / 30)` becomes the least `n` with `900·n² ≥ d²`.
  - The test `covered / total ≥ 0.7` becomes `10·covered ≥ 7·total` with `covered > 0`. `Coverage.MeetsThresholdIsRatio` proves the two forms agree.
- **Atomic handlers.** Each React handler is one atomic method on the state it changes. State setters that React applies later are applied in program order. A handler that reads state reads the value from before its own updates, as the source's closures do.
- **The letter table.** Long entries are written as concatenations of shorter string pieces. The resulting strings are the same characters as the source's table.
- **Resetting the board.** The board's two effects that reset it on new stroke paths are modelled as one method, `LetterDisplay.Tracer.ChangeStrokePaths`. `App.Game.FollowLetter` calls it exactly when the letter index changed. This is because `getStrokePathsForLetter` hands back the table's own array, or a fresh default array for a letter missing from the table, and all 26 letters are in the table.

Behaviour of the code worth knowing, all of it modelled as written:

- **Chord only.** A stroke is judged along the straight chord between the first two coordinate pairs of its path, even when the path goes on with curves. For a path whose second command is a curve, that second pair is the curve's control point. For C, the chord from (500, 150) to (500, 100) gives 2 pieces (`Home.CurvedStrokeUsesChord`).
- **Coverage is never reset** after a rejected gesture.
  - Coverage from failed attempts adds up: two gestures that each fall short can together pass (`Scenarios.TwoPartialTracesPass`).
  - Once the last stroke is done, any later gesture of two or more samples signals the letter complete again (`Scenarios.FinishedLetterSignalsAgain`). The session then records nothing new.
- **The neighbouring pieces count.** A sample covers every piece within 50 units, neighbours included. The pointer-down sample covers nothing. So samples at x = 30, 60 and 90 on a 300-unit stroke cover five pieces of ten, not three (`Scenarios.ThreeSamplesCoverHalf`).
- **Changing letter** resets pieces, done-flags and the current stroke, but keeps the gesture in progress and the failed attempts.
- **The all-done check on the last stroke always holds.** The check that every stroke is done, made after the last stroke is accepted, is always true under the board's invariant. `LetterDisplay.Tracer.StopDrawing` proves that `Accepted(true)` is returned exactly when the last stroke passes.

The proofs are checked with `dafny verify --warn-contradictory-assumptions`; the nonlinear step in `Geometry.ProductZero` relies on the encoding that option selects.

## Model

| member | source | states |
|---|---|---|
| Digits.DigitRuns | src/components/game/LetterDisplay.tsx:44 | One number per maximal run of decimal digits, in order, and never more numbers than characters; what it reads is pinned by Digits.RunLengthIsMaximalRun, Digits.DigitRunsAppend and the round-trip lemmas below |
| Digits.RunLength | src/components/game/LetterDisplay.tsx:44 | The length of the leading digit run never exceeds the string, and it is positive when the string starts with a digit |
| Digits.RunLengthIsMaximalRun | src/components/game/LetterDisplay.tsx:44 | The leading run is all digits and cannot be extended: the character after it is not a digit |
| Digits.DigitRunsAppend | src/components/game/LetterDisplay.tsx:44 | Extracting numbers splits over a concatenation whose second part starts with a non-digit, since the greedy match cannot cross that boundary |
| Digits.DigitRunsOfSpaceSeparated | src/components/game/LetterDisplay.tsx:44 | Numbers written in decimal with separators between them are extracted back exactly, in order |
| Digits.DigitRunsOfPathHead | src/components/game/LetterDisplay.tsx:44 | A path head "M x0,y0 C x1,y1", with a command C that has no digits, yields exactly the numbers x0, y0, x1, y1 |
| Digits.DigitRunsOfLinePath | src/components/game/LetterDisplay.tsx:44 | A straight path "M x0,y0 L x1,y1" yields exactly x0, y0, x1, y1 |
| Digits.SignAndPointAreSeparators | src/components/game/LetterDisplay.tsx:44 | Any non-empty run of non-digits, a minus sign or decimal point included, separates two numbers, and leading non-digits are skipped: such a string yields exactly the two numbers, so "-12.5" yields 12 and 5 |
| Geometry.PointToSegmentSqDist | src/components/game/LetterDisplay.tsx:149-182 | The point-to-segment distance is non-negative, and for a degenerate segment it is the distance to its single point |
| Geometry.DistanceAttained | src/components/game/LetterDisplay.tsx:161-181 | The distance computed is the distance to the clamped projection, a point on the segment |
| Geometry.NearestOnSegment | src/components/game/LetterDisplay.tsx:149-182 | No point of the segment is closer than the computed distance, so the result is the true minimum over the segment |
| Geometry.EndpointDistance | src/components/game/LetterDisplay.tsx:167-172 | A projection before the start or past the end gives the distance to that end point |
| Geometry.InteriorIsPerpendicular | src/components/game/LetterDisplay.tsx:173-176 | A projection inside the segment gives the perpendicular distance to the line: squared distance times squared length equals the squared cross product |
| Geometry.DegenerateSegment | src/components/game/LetterDisplay.tsx:160-163 | A zero squared length, the case where the projection parameter stays at -1, happens only when both ends coincide |
| Segmentation.StepCount | src/components/game/LetterDisplay.tsx:50-51 | The piece count n satisfies 30·n ≥ chord length, and n - 1 pieces would be too few: n is the ceiling of length / 30 |
| Segmentation.StepCountUnique | src/components/game/LetterDisplay.tsx:50-51 | Any number meeting that characterisation is the step count |
| Segmentation.StepCountZero | src/components/game/LetterDisplay.tsx:50-53 | A chord gets no pieces exactly when its length is zero |
| Segmentation.StepCountOfMultiple | src/components/game/LetterDisplay.tsx:50-51 | A chord of exactly 30·k units is cut into exactly k pieces |
| Segmentation.ChordSegments | src/components/game/LetterDisplay.tsx:53-67 | The chord gives n uncovered pieces that start at the chord's start, end at its end, and join end to start |
| Segmentation.BuildSegments | src/components/game/LetterDisplay.tsx:47-67 | The piece-pushing loop produces exactly the chord's n equal pieces |
| Segmentation.StrokeSegments | src/components/game/LetterDisplay.tsx:43-69 | Every piece of a freshly cut stroke is uncovered |
| Segmentation.ComputeSegments | src/components/game/LetterDisplay.tsx:43-69 | Cutting one path string step by step gives exactly the stroke's pieces as `StrokeSegments` defines them |
| Segmentation.EmptyStroke | src/components/game/LetterDisplay.tsx:44-53 | A stroke has no pieces exactly when its path has fewer than four numbers or its first two points coincide |
| Segmentation.TailIgnored | src/components/game/LetterDisplay.tsx:44-49 | Numbers after the first four never change the pieces |
| Segmentation.PathHeadSegments | src/components/game/LetterDisplay.tsx:44-67 | A path starting "M x0,y0 C x1,y1" is cut along the chord from (x0, y0) to (x1, y1), whatever follows |
| Segmentation.LineSegments | src/components/game/LetterDisplay.tsx:44-67 | A straight path "M x0,y0 L x1,y1" is cut along its own line |
| Segmentation.ChordSqLengthIsSqDist | src/components/game/LetterDisplay.tsx:50 | The integer squared length used for the step count equals the squared distance between the parsed points |
| Segmentation.PieceLength | src/components/game/LetterDisplay.tsx:53-64 | Each of the n pieces has 1/n-th of the chord's length |
| Segmentation.PiecesAreShort | src/components/game/LetterDisplay.tsx:50-67 | No piece of any stroke is longer than 30 units |
| Coverage.WithinReach | src/components/game/LetterDisplay.tsx:131-136 | The squared distance from the sample to the piece is below 2500, that is the distance is below 50; a sample within 50 units of either end reaches the piece, and for a piece of one point reach is exactly being within 50 units of that point |
| Coverage.MeetsThreshold | src/components/game/LetterDisplay.tsx:196-200 | At least one piece covered and 10·covered ≥ 7·total; a passing stroke has pieces and more than half of them covered, and a fully covered stroke passes exactly when it has pieces |
| Coverage.CoverSegment | src/components/game/LetterDisplay.tsx:128-141 | A sample keeps a piece's ends and leaves it covered exactly when it was covered or the sample is strictly within 50 units of it |
| Coverage.CoverStroke | src/components/game/LetterDisplay.tsx:127-142 | A sample maps every piece of the stroke independently, keeping the stroke's length |
| Coverage.CoveredCount | src/components/game/LetterDisplay.tsx:196-197 | The covered count never exceeds the number of pieces |
| Coverage.WithinReachIffSomePointClose | src/components/game/LetterDisplay.tsx:131-136 | A sample reaches a piece exactly when some point of the piece is strictly within 50 units |
| Coverage.CoverStrokeChanges | src/components/game/LetterDisplay.tsx:123-146 | A sample changes the stroke exactly when it reaches a piece not yet covered, which is the moment the board stores new pieces |
| Coverage.CoverStrokeGrows | src/components/game/LetterDisplay.tsx:129 | A covered piece stays covered and no piece moves |
| Coverage.CoveredCountMonotone | src/components/game/LetterDisplay.tsx:196-197 | Covering more pieces never lowers the count |
| Coverage.MeetsThresholdPersists | src/components/game/LetterDisplay.tsx:196-200 | Once a stroke passes the test, further samples never make it fail |
| Coverage.CoveredCountAppend | src/components/game/LetterDisplay.tsx:196-197 | Counting splits over concatenation |
| Coverage.CoveredCountFull | src/components/game/LetterDisplay.tsx:196-197 | The count equals the length exactly when every piece is covered |
| Coverage.CoveredCountZero | src/components/game/LetterDisplay.tsx:196-197 | The count is zero exactly when no piece is covered |
| Coverage.MeetsThresholdIsRatio | src/components/game/LetterDisplay.tsx:196-200 | The integer test agrees with the ratio test: there are pieces and at least 70% of them are covered, so a stroke with no pieces never passes |
| LetterDisplay.AllStrokeSegments | src/components/game/LetterDisplay.tsx:43-69 | One piece list per stroke, each the stroke's fresh pieces |
| LetterDisplay.CoveredBy | src/components/game/LetterDisplay.tsx:122-146 | A sample changes only the current stroke's pieces, as one cover pass; with no such stroke nothing changes |
| LetterDisplay.Tracer.constructor | src/components/game/LetterDisplay.tsx:35-76 | The board starts with fresh pieces for every stroke, nothing done, the first stroke current, and no gesture or attempts |
| LetterDisplay.Tracer.CurrentSegments | src/components/game/LetterDisplay.tsx:195-198 | The current stroke's pieces, or none when the index names no stroke |
| LetterDisplay.Tracer.ChangeStrokePaths | src/components/game/LetterDisplay.tsx:42-76 | New strokes: every stroke is cut afresh, none is done, the first is current, and the gesture and failed attempts are kept |
| LetterDisplay.Tracer.StartDrawing | src/components/game/LetterDisplay.tsx:99-109 | Pointer down starts a gesture holding just that sample and leaves coverage alone |
| LetterDisplay.Tracer.Draw | src/components/game/LetterDisplay.tsx:111-118 | Pointer move outside a gesture does nothing; inside one it covers with the sample and appends it |
| LetterDisplay.Tracer.UpdatePathCoverage | src/components/game/LetterDisplay.tsx:120-147 | The sample covers the current stroke's reachable pieces and nothing else; the board's invariant is kept |
| LetterDisplay.Tracer.StopDrawing | src/components/game/LetterDisplay.tsx:187-227 | Pointer up: fewer than two samples are ignored; a pass marks the stroke done, clears attempts and advances, or signals the letter on the last stroke; a fail records the attempt; the gesture ends empty; a letter signal means every stroke is done |
| Home.GetStrokePathsForLetter | src/components/home.tsx:121-129 | The strokes shown are the table entry when the letter has one, otherwise the two-stroke default, and always between one and four |
| Home.StrokeCountsInRange | src/components/home.tsx:10-119 | Every table entry has between one and four strokes |
| Home.TableCoversAlphabet | src/components/home.tsx:8-119 | The table has an entry for exactly the 26 letters |
| Home.PreviousIndex | src/components/home.tsx:139-141 | Stepping back lowers the index by one, except at the first letter, where it stays |
| Home.NextIndex | src/components/home.tsx:143-145 | Stepping forward raises the index by one, except at the last letter, where it stays; it never passes Z |
| Home.PreviousNextInverse | src/components/home.tsx:139-145 | Away from the ends, stepping back and then forward (or forward and then back) returns to the same letter |
| Home.DistinctLettersBounded | src/components/home.tsx:147-153 | A list of distinct letters drawn from the alphabet has at most as many letters as the alphabet |
| Home.Session.constructor | src/components/home.tsx:132-135 | The session starts at A with nothing completed and the guide and celebration hidden |
| Home.Session.CurrentLetter | src/components/home.tsx:137 | The current letter is the alphabet's letter at the index |
| Home.Session.CanGoPrevious | src/components/home.tsx:185 | The back button is enabled exactly when stepping back would move |
| Home.Session.CanGoNext | src/components/home.tsx:186 | The forward button is enabled exactly when stepping forward would move |
| Home.Session.CompletedLettersBounded | src/components/home.tsx:147-153 | At most 26 letters are ever recorded complete |
| Home.Session.HandlePrevious | src/components/home.tsx:139-141 | The index steps back and nothing else changes |
| Home.Session.HandleNext | src/components/home.tsx:143-145 | The index steps forward and nothing else changes |
| Home.Session.HandleLetterComplete | src/components/home.tsx:147-153 | A first completion records the letter once and shows the celebration; a repeat changes nothing |
| Home.Session.HandleCelebrationComplete | src/components/home.tsx:155-160 | The celebration is hidden and the page moves to the next letter unless it is at Z |
| Home.Session.ToggleGuide | src/components/home.tsx:184 | The guide flips and nothing else changes |
| Home.CurvedStrokeUsesChord | src/components/home.tsx:21-23 | The single curved stroke of C is judged on the 2 pieces of the chord from (500, 150) to (500, 100) |
| Home.FirstStrokeOfA | src/components/home.tsx:11-12 | The first stroke of A, about 412 units long, is cut into 14 pieces |
| App.Game.constructor | src/components/home.tsx:131-179 | The page opens at A with nothing completed and the guide and celebration hidden; the board shows A's strokes, each cut afresh, none done, the first current, with no gesture and no failed attempts |
| App.Game.FollowLetter | src/components/home.tsx:174-176 | When the letter changed, the board shows its strokes cut afresh, none done and the first current, keeping the gesture and failed attempts; otherwise the board is untouched |
| App.Game.Previous | src/components/home.tsx:181-182 | The back button steps the index back, keeping the record, the guide and the celebration; the board is reset for the new letter exactly when the index moved and is untouched otherwise |
| App.Game.Next | src/components/home.tsx:181-183 | The forward button steps the index forward, keeping the record, the guide and the celebration; the board is reset for the new letter exactly when the index moved and is untouched otherwise |
| App.Game.ToggleGuide | src/components/home.tsx:184 | The guide button flips the guide; the letter, the record, the celebration and the board stay |
| App.Game.PointerDown | src/components/game/LetterDisplay.tsx:99-109 | A pointer down starts a gesture holding just that sample; the strokes, coverage, done-flags, current stroke and failed attempts stay |
| App.Game.PointerMove | src/components/game/LetterDisplay.tsx:111-118 | A pointer move outside a gesture changes nothing; inside one the sample covers the current stroke's reachable pieces and is appended to the gesture; all else stays |
| App.Game.PointerUp | src/components/home.tsx:174-177 | Pointer up judges the gesture exactly as the board does (ignored under two samples; rejected and kept as an attempt below the threshold; otherwise the stroke is done, attempts are cleared and the next stroke becomes current, or the letter is signalled on the last stroke), and a letter signal means every stroke is done; on that signal the session appends the letter and celebrates exactly when it was not yet recorded, and otherwise the session's record and celebration stay |
| App.Game.CelebrationDone | src/components/home.tsx:190-194 | The celebration's end hides it and moves to the next letter unless at Z, keeping the record and the guide; the board is reset for the new letter exactly when the index moved and is untouched otherwise |
| Scenarios.ThreeSamplesCoverHalf | src/components/game/LetterDisplay.tsx:120-147 | On a 300-unit straight stroke, samples at 30, 60 and 90 cover five of its ten pieces, which is below 70% |
| Scenarios.SparseFullTracePasses | src/components/game/LetterDisplay.tsx:120-147 | Samples every 60 units along the same stroke cover all ten pieces |
| Scenarios.SecondGestureCompletesCoverage | src/components/game/LetterDisplay.tsx:120-147 | After the five-piece gesture, samples at 210 and 270 alone bring the stroke to all ten pieces |
| Scenarios.PartialTraceIsRejected | src/components/game/LetterDisplay.tsx:187-227 | A board with that single stroke rejects the three-sample gesture and keeps it as one failed attempt |
| Scenarios.FullTraceCompletesLetter | src/components/game/LetterDisplay.tsx:187-227 | The same board accepts the sparse full trace and signals the letter complete |
| Scenarios.TwoPartialTracesPass | src/components/game/LetterDisplay.tsx:187-227 | Two short gestures, the first rejected, together pass and complete the letter, since coverage is never reset |
| Scenarios.FinishedLetterSignalsAgain | src/components/game/LetterDisplay.tsx:187-227 | After the letter is complete, a two-sample gesture far from the stroke signals it complete again |

## Left out

- Sounds, the hint message and its timer: `soundPlayer.play` and `setTimeout` only produce sound and visuals. The sound player is not part of this model.
- Converting a mouse or touch event into canvas coordinates (`getRelativeCoordinates`). It depends on the page layout, so the board's handlers take the canvas point directly.
- Rendering: the SVG board, `GuideAnimation`, `ProgressBar`, `NavigationControls` and `CelebrationOverlay`. The overlay's completion callback is an input event, `App.Game.CelebrationDone`.
- The `letter` and `showGuide` inputs of the board only affect what is drawn.
- Floating point. `Math.hypot`, `Math.sqrt` and the divisions are exact here. Near a boundary (a distance of exactly 50, or a length just past a multiple of 30) rounding could tip the source's comparison the other way. Coordinates with more than 15 significant digits, which `Number` cannot hold exactly, are not modelled.
- React's scheduling: batched updates, stale closures between quick events and re-renders are not modelled; each handler is one atomic step.
- The board's reset is modelled as happening exactly when the letter changes (`App.Game.FollowLetter`), not on every new array identity.
- Geometry.PointToSegmentSqDist: compares squared distances, where the source takes a square root and compares the distance with 50. The two agree for exact reals.
