# Portable Tak Notation token, modelled in Dafny

This project models the `Ptn` class of the OpenTak `ptn` package. A `Ptn` is
one Portable Tak Notation (PTN) token, such as `c3`, `Cd3` or `3c3>111`, read
from a string. The class matches the token against one regular expression,
derives its board coordinates, piece type and default counts, and classifies
it as a placement or a movement. It validates the token and records error
strings. It also turns the token into a "moveset": the ordered push/pop stack
operations a board applies to play the token or to undo it.

The model has five modules:

- `Wrappers` (wrappers.dfy) holds `Option` and `Result`.
- `Notation` (notation.dfy) models the text side:
  - the character classes of the pattern;
  - the decimal readings of digit strings;
  - `indexOf`;
  - the recogniser `Recognise`, a function that performs the exact search the
    JavaScript regular expression performs. It picks the leftmost start. The
    optional count and special-piece letter are greedy and are dropped again
    when no square follows them. The movement group, its digit run and the
    star are greedy and optional.
  Its lemmas characterise the result completely. `RecogniseSound` and
  `RecogniseUnique` together show that `Recognise` returns the one leftmost,
  greedy, well-shaped match. `RecogniseFails` shows that it has no result
  exactly when no column letter in the string is followed by a row digit.
- `Moves` (moves.dfy) holds the moveset elements, inversion of push and pop,
  piece counting, and the in-place array reversal that `toUndoMoveset` uses.
- `Tak` (ptn.dfy) holds the class `Ptn`:
  - Every field the constructor writes is a `const`.
  - `errors` is the one mutable field. It is `None` until `IsValid` first
    runs, which matches `undefined` in the source.
  - `Moveset` and `UndoMoveset` are ghost functions that specify what the
    methods `ToMoveset` and `ToUndoMoveset` return.
- `PtnProperties` (properties.dfy) and `PtnExamples` (examples.dfy) prove
  properties about the class. `PtnExamples` works through concrete tokens.
  Some come from the package's tests (`c3`, `Cd3`,
  `3c3>111`, `c3>*`, `3d3`, `3d3+1111`, `9z`). Others (`0d3`, `d3+11`,
  `3c3>12`) were chosen to exercise the defaults and the trajectories.

Two consequences of distribution/ptn.js as written:

- A movement with no count takes the distribution *text* as its count. So
  `d3+11` gets count 11, and it is invalid because 11 is not 1 + 1.
  `DefaultCountRejectsLongDistribution` proves this for every uncounted
  movement with two or more drops.
- A count of `0` is truthy. So `0d3` is neither a placement nor a movement.

## Model

| member | source | states |
|---|---|---|
| Notation.RecogniseSound | distribution/ptn.js:19 | the match found has the pattern's group structure, stands in the notation at its index, took every optional part it could, and starts at the first position where the pattern can match |
| Notation.RecogniseUnique | distribution/ptn.js:19 | any well-shaped greedy match starting where the pattern first can is exactly the match returned |
| Notation.RecogniseFails | distribution/ptn.js:19-23 | there is no match exactly when no column letter a-h/A-H is followed by a row digit 1-8 |
| Notation.GreedyUnique | distribution/ptn.js:19 | two greedy well-shaped matches at the same position are equal |
| Notation.RunEnd | distribution/ptn.js:19 | the distribution run `[1-8]+` is taken maximally |
| Notation.IndexOf | distribution/ptn.js:41 | `indexOf` gives the first position of the character in the string, or -1 exactly when it does not occur |
| Notation.DigitValue | distribution/ptn.js:168 | parsing one digit gives the number that digit denotes |
| Notation.Digits | distribution/ptn.js:166-170 | one number per character of the distribution, each the value of that digit |
| Notation.DigitSumIsSumOfDigits | distribution/ptn.js:180-188 | adding up the digits character by character equals the sum of the parsed digit list |
| Notation.DecimalExceedsDigitSum | distribution/ptn.js:43-45 | a numeral of two or more digits with no leading zero is worth more than its digit sum |
| Moves.CountTotalOfCounts | distribution/ptn.js:99-106 | steps that carry the counts `cs` name `Sum(cs)` pieces in total |
| Moves.ReverseInPlace | distribution/ptn.js:124 | the array ends up holding its old contents in the opposite order |
| Moves.ReversedAt | distribution/ptn.js:124 | element k of the reversal is element n-1-k of the original |
| Tak.Ptn.constructor | distribution/ptn.js:16-50 | the fields are the captured groups with x = row-1, y = the index of the column in "abcdefgh", the piece type, and the movement defaults for count and distribution; the token satisfies the class invariant and `errors` is still unset |
| Tak.Ptn.Parse | distribution/ptn.js:305-307 | fails with "Invalid PTN format" exactly when the notation has no match; otherwise returns a fresh token built from the match |
| Notation.Recognise | distribution/ptn.js:19 | the regular-expression match; RecogniseSound, RecogniseUnique and RecogniseFails state what it returns |
| Tak.Ptn.IsMovement | distribution/ptn.js:215-217 | whether the movement group matched; for a parsed token it implies a count, a distribution and a direction (Tak.Ptn.Parsed, MovementDefaults) |
| Tak.Ptn.IsPlacement | distribution/ptn.js:227-229 | no movement and no count; ValidIff shows a valid token is exactly one of movement and placement |
| Tak.Ptn.StackDistribution | distribution/ptn.js:166-170 | one drop count per distribution digit (Notation.Digits); StackTotalIsSumOfDistribution relates it to the total |
| Tak.Ptn.StackTotal | distribution/ptn.js:180-188 | 1 without a distribution, else the digit sum; StackTotalIsSumOfDistribution and PlacementTrajectory state it |
| Tak.Ptn.IsValidStackDistribution | distribution/ptn.js:199-205 | the count read by `parseInt` equals the stack total; ValidIff and DefaultCountRejectsLongDistribution state its effect |
| Tak.Ptn.DirectionModifier | distribution/ptn.js:270-283 | the per-square offset of the direction; DirectionIsUnitStep states it is one square along one axis, or none |
| Tak.Ptn.RowTrajectory | distribution/ptn.js:255-259 | x plus the row offset times the stack total; PlacementTrajectory and TrajectoryMissesLastDrop state where it lands |
| Tak.Ptn.ColumnTrajectory | distribution/ptn.js:240-244 | y plus the column offset times the stack total; PlacementTrajectory and TrajectoryMissesLastDrop state where it lands |
| Tak.Ptn.Moveset | distribution/ptn.js:72-113 | what `toMoveset` returns; InvalidMoveset, PlacementMoveset, MovementMoveset, LiftBalancesDrops and FlattenOnlyOnLastDrop state its shape |
| Tak.Ptn.Drops | distribution/ptn.js:99-106 | the drops `map` builds from the distribution; MovementMoveset and MovesFollowDirection state each one |
| Tak.Ptn.UndoMoveset | distribution/ptn.js:121-125 | what `toUndoMoveset` returns; UndoInvertsForward and UndoOfInvalid state it |
| Tak.Ptn.ValidationErrors | distribution/ptn.js:142-154 | at most one error is recorded, and none exactly when a movement balances its counts and the token is a movement or a placement |
| Tak.Ptn.IsValid | distribution/ptn.js:142-154 | `errors` is replaced by the list of failed checks, and the answer is whether that list is empty |
| Tak.Ptn.ToMoveset | distribution/ptn.js:72-113 | returns `Moveset(reverse)` and records the validation errors |
| Tak.Ptn.ToUndoMoveset | distribution/ptn.js:121-125 | returns the reverse moveset in reverse order and records the validation errors |
| PtnProperties.ParsedCoordinates | distribution/ptn.js:38-41 | x is the row digit less one, in 0..7; y is the column's index in 0..7, or -1 exactly for an upper-case column; only the special piece "C" makes a capstone |
| PtnProperties.MovementDefaults | distribution/ptn.js:43-48 | a movement ends up with both a count and a distribution; a missing count becomes the distribution's text or "1", and a missing distribution becomes the count's text; nothing else is filled in |
| Tak.Ptn.BuiltIsParsed | distribution/ptn.js:16-50 | every token built from a match satisfies the class invariant |
| PtnProperties.ValidIff | distribution/ptn.js:142-154 | valid exactly when it is a movement whose count equals its digit sum, or it has neither a movement nor a count; a valid token is exactly one of movement and placement |
| PtnProperties.ErrorNamesCheck | distribution/ptn.js:145-151 | an unbalanced movement records the distribution error; a count without a movement records the kind error |
| PtnProperties.Revalidate | distribution/ptn.js:142-154 | calling `isValid` twice gives the same answer and leaves the same error list |
| PtnProperties.DefaultCountRejectsLongDistribution | distribution/ptn.js:43-45 | a movement whose count was copied from a distribution of two or more digits, with no leading zero, is always invalid |
| PtnProperties.StackTotalIsSumOfDistribution | distribution/ptn.js:166-188 | `stackTotal` is the sum of `stackDistribution` |
| PtnProperties.DirectionIsUnitStep | distribution/ptn.js:270-283 | a movement's offset is one square along exactly one axis; any other token's offset is (0, 0) |
| PtnProperties.PlacementTrajectory | distribution/ptn.js:240-259 | a token without a movement has stack total 1, and both trajectories are its own square |
| PtnProperties.InvalidMoveset | distribution/ptn.js:79 | an invalid token's moveset is the single error report |
| PtnProperties.PlacementMoveset | distribution/ptn.js:81-85 | a valid placement is one push at its square with no count, or a pop when reversed |
| PtnProperties.MovementMoveset | distribution/ptn.js:87-112 | a valid movement is a lift of the whole count at its square, followed by one drop per digit; drop i is i squares along the direction and flattens only when it is the last one and the token smashes a wall |
| PtnProperties.MovesetOfMovement | distribution/ptn.js:87-112 | a valid movement's moveset is the lift followed by the drops |
| PtnProperties.LiftBalancesDrops | distribution/ptn.js:87-106 | the lift's count equals the total count of the drops |
| PtnProperties.FlattenOnlyOnLastDrop | distribution/ptn.js:108-110 | a move flattens exactly when it is the last move of a valid wall-smashing movement |
| PtnProperties.MovesFollowDirection | distribution/ptn.js:87-106 | move i of a valid movement is i squares along the direction from the token's square |
| PtnProperties.ReverseFlipsActions | distribution/ptn.js:81-105 | the reverse moveset is the forward one element by element with push and pop swapped |
| PtnProperties.UndoInvertsForward | distribution/ptn.js:122-125 | the undo moveset is the forward moveset backwards with push and pop swapped |
| PtnProperties.UndoOfInvalid | distribution/ptn.js:122-125 | an invalid token's undo moveset is the same single error report |
| PtnProperties.TrajectoryMissesLastDrop | distribution/ptn.js:240-259 | the trajectories give the last drop's square exactly when the stack total equals the number of drops |
| PtnProperties.FinalSquareIsLastMove | distribution/ptn.js:231-259 | `FinalRow`/`FinalColumn` give the square of the last move of every valid token's moveset |
| PtnExamples.NoSquareFails | test/ptn_test.js:58-62 | "9z" does not match |
| PtnExamples.PlacementCaptured | test/ptn_test.js:104-110 | "c3" captures column c, row 3 and nothing else |
| PtnExamples.CapstoneCaptured | test/ptn_test.js:24-35 | "Cd3" captures the special piece C, column d and row 3 |
| PtnExamples.MovementCaptured | test/ptn_test.js:112-124 | "3c3>111" captures count 3, direction >, distribution 111 |
| PtnExamples.SmashCaptured | test/ptn_test.js:126-134 | "c3>*" captures direction > and the star, with no count and no distribution |
| PtnExamples.ZeroCountCaptured | distribution/ptn.js:19 | "0d3" captures the count 0 and no movement |
| PtnExamples.UncountedCaptured | distribution/ptn.js:19 | "d3+11" captures distribution 11 and no count |
| PtnExamples.UncountedMoveCaptured | test/ptn_test.js:238-242 | "3d3" captures count 3 and no movement |
| PtnExamples.OverspreadCaptured | test/ptn_test.js:192-196 | "3d3+1111" captures count 3 and distribution 1111 |
| PtnExamples.UnevenCaptured | distribution/ptn.js:19 | "3c3>12" captures count 3 and distribution 12 |
| PtnExamples.OnC3 | distribution/ptn.js:40-41 | a token on c3 has x = 2 and y = 2 |
| PtnExamples.PlacementToken | test/ptn_test.js:104-110 | "c3" is a placement of an ordinary (non-capstone) piece whose moveset is one push at (2, 2) |
| PtnExamples.CapstoneToken | test/ptn_test.js:232-236 | "Cd3" is a valid capstone placement, at x = 2 and y = 3 in this build |
| PtnExamples.SmashToken | test/ptn_test.js:126-134 | "c3>*" gets count 1 and distribution 1, and its moveset is a pop at (2, 2) then a flattening push at (3, 2) |
| PtnExamples.SmashMoves | distribution/ptn.js:87-112 | the moveset of a one-piece smash east from c3 |
| PtnExamples.MovementToken | test/ptn_test.js:146-158 | "3c3>111" is valid, and its undo moveset pops one piece at rows 5, 4 and 3, then pushes three at row 2 |
| PtnExamples.MovementMoves | distribution/ptn.js:122-125 | the undo moveset of lifting three and dropping one on each of three squares east of c3 |
| PtnExamples.ZeroCountToken | distribution/ptn.js:142-154 | "0d3" is neither kind of token and records the kind error |
| PtnExamples.UncountedToken | distribution/ptn.js:43-45 | "d3+11" gets count "11" and is invalid, with the distribution error as its moveset |
| PtnExamples.UncountedMoveToken | test/ptn_test.js:238-242 | "3d3" is not a placement and records the kind error |
| PtnExamples.OverspreadToken | test/ptn_test.js:245-251 | "3d3+1111" has stack total 4 and records the distribution error |
| PtnExamples.OverspreadCounts | distribution/ptn.js:180-205 | a lift of 3 against drops 1111 totals 4 and fails the distribution check |
| PtnExamples.UnevenTrajectory | distribution/ptn.js:255-259 | "3c3>12" drops its last piece on row 4, but `rowTrajectory` is 5; `FinalRow` is 4 |
| PtnExamples.UnevenMoves | distribution/ptn.js:255-259 | the last drop, row trajectory and final row of lifting three and dropping 1 then 2 east of c3 |

## Left out

- `fromMoveset` and `fromUndoMoveset` (distribution/ptn.js:284-292) are empty stubs that return `undefined`. The model has no inverse of `toMoveset`, and so no parse-after-print round trip.
- The transpiler helpers `_slicedToArray`, `_createClass`, `_toConsumableArray` and `_classCallCheck` (distribution/ptn.js:7-13) are library plumbing. The model uses plain sequence operations and an ordinary class instead.
- The model has no general regular-expression engine. It has only the recogniser for this one pattern, and its case folding covers only the ASCII letters the pattern names.
- A thrown `Error` becomes a `Failure` of `Parse`. The Dafny constructor requires that the notation matches.
- `pieceCount`, `distribution` and the other descriptor fields are `const`. Only the constructor writes them in the source, so nothing is lost.
- `stackDistribution` on a token without a distribution throws in the source. The model returns `None` instead.
- `parseInt` is applied here only to strings of digits, so the model reads them as natural numbers. NaN is modelled only where it matters: a missing count never equals a total.
- Board legality, bounds checking and game rules are outside the class (distribution/ptn.js:134-136). A movement may step off the board, and x, y and the trajectories are unbounded integers.
- The tests expect three things this build does not do, and the model does not encode them:
  - x and y swapped (test/ptn_test.js:19-20);
  - different trajectory values for directional moves (test/ptn_test.js:261-277, 287-303);
  - a `type: 'flat'` field on placement moves (test/ptn_test.js:108, 142).
- Tak.Ptn.Moveset: in the source, the `errors` of an invalid token's moveset is the very array held in `this.errors`. Until the next `isValid`, a push onto one shows in the other. The next `isValid` points `this.errors` at a new array (distribution/ptn.js:143) and leaves the earlier moveset's array alone. The model's lists are values, so it does not capture that sharing.
- Tak.Ptn.ToMoveset: the source's `reverse` parameter defaults to `false` when omitted (distribution/ptn.js:75). The Dafny method always takes the flag, so `toMoveset()` is `ToMoveset(false)`.

## Findings

| source | as written | input that shows it | evidently intended | confidence | as-written member | corrected member |
|---|---|---|---|---|---|---|
| distribution/ptn.js:240-259 | `rowTrajectory` and `columnTrajectory` step `stackTotal` squares, the number of pieces moved | `3c3>12`: the last drop is at row 4, but `rowTrajectory` is 5 | the final square a movement reaches, one square per distribution digit, as the comments at lines 231-233 and 246-248 describe | not executed | PtnProperties.TrajectoryMissesLastDrop, PtnExamples.UnevenTrajectory | Tak.Ptn.FinalRow, Tak.Ptn.FinalColumn, PtnProperties.FinalSquareIsLastMove |
