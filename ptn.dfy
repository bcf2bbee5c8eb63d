/** The `Ptn` class of distribution/ptn.js: one parsed PTN token, its
    classification and validation, and the movesets it stands for.

    Every field except `errors` is written only by the constructor, so they
    are `const` here; `errors` is `undefined` until the first `isValid` call,
    which is `None` here. */
module Tak {
  import opened Wrappers
  import opened Notation
  import opened Moves

  datatype PieceType = Capstone | Piece

  const FormatError := "Invalid PTN format"
  const DistributionError := "PTN does not contain a valid stack distribution"
  const KindError := "PTN is not a movement or placement"

  /** JavaScript truthiness of an optional string group: defined and not
      empty. */
  predicate Truthy(o: Option<string>)
  {
    o.Some? && o.value != ""
  }

  class Ptn {
    const ptn: string
    const pieceCount: Option<string>
    const specialPiece: Option<string>
    const column: string
    const row: string
    const movement: Option<string>
    const direction: Option<string>
    const distribution: Option<string>
    const wallSmash: Option<string>
    const pieceType: PieceType
    const x: int
    const y: int
    var errors: Option<seq<string>>

    /** The fields as the constructor derives them from the match `m`. */
    predicate BuiltFrom(m: Match)
      requires Shaped(m)
    {
      ptn == m.text &&
      specialPiece == m.specialPiece && column == m.column && row == m.row &&
      movement == m.movement && direction == m.direction && wallSmash == m.wallSmash &&
      pieceType == (if m.specialPiece == Some("C") then Capstone else Piece) &&
      x == DecimalValue(m.row) - 1 &&
      y == IndexOf(Files, m.column[0]) &&
      pieceCount == (if Truthy(m.movement) && !Truthy(m.pieceCount)
                     then Some(if Truthy(m.distribution) then m.distribution.value else "1")
                     else m.pieceCount) &&
      distribution == (if Truthy(m.movement) && !Truthy(m.distribution)
                       then Some(if Truthy(pieceCount) then pieceCount.value else "1")
                       else m.distribution)
    }

    /** What holds of every constructed token: counts and distributions are
        numerals, a movement has both, and only a movement has a
        distribution, a direction or a star. */
    predicate Parsed()
    {
      (pieceCount.Some? ==> IsNumeral(pieceCount.value)) &&
      (distribution.Some? ==> IsNumeral(distribution.value)) &&
      (direction.Some? ==> |direction.value| == 1 && IsDirection(direction.value[0])) &&
      (Truthy(movement) ==> pieceCount.Some? && distribution.Some? && direction.Some?) &&
      (!Truthy(movement) ==> distribution.None? && direction.None? && wallSmash.None?)
    }

    /** `new Ptn(notation)` once the match has succeeded (the failing match
        is the `Failure` of `Parse`). */
    constructor (notation: string)
      requires Recognise(notation).Some?
      ensures Shaped(Recognise(notation).value) && BuiltFrom(Recognise(notation).value)
      ensures Parsed() && errors.None?
    {
      var m := Recognise(notation).value;
      RecogniseShaped(notation);
      ptn := m.text;
      specialPiece := m.specialPiece;
      column := m.column;
      row := m.row;
      movement := m.movement;
      direction := m.direction;
      wallSmash := m.wallSmash;
      pieceType := if m.specialPiece == Some("C") then Capstone else Piece;
      x := DecimalValue(m.row) - 1;
      y := IndexOf(Files, m.column[0]);
      var count := m.pieceCount;
      if Truthy(m.movement) && !Truthy(count) {
        count := Some(if Truthy(m.distribution) then m.distribution.value else "1");
      }
      var spread := m.distribution;
      if Truthy(m.movement) && !Truthy(spread) {
        spread := Some(if Truthy(count) then count.value else "1");
      }
      pieceCount := count;
      distribution := spread;
      errors := None;
      new;
      BuiltIsParsed(m);
    }

    /** Every token built from a match satisfies the class invariant. */
    lemma BuiltIsParsed(m: Match)
      requires Shaped(m) && BuiltFrom(m)
      ensures Parsed()
    {
      ShapedGroups(m);
    }

    /** `Ptn.parse(notation)`: the token, or the error the constructor
        throws when the notation does not match. */
    static method Parse(notation: string) returns (r: Result<Ptn, string>)
      ensures r.Failure? <==> Recognise(notation).None?
      ensures r.Failure? ==> r.error == FormatError
      ensures r.Success? ==>
        fresh(r.value) && Shaped(Recognise(notation).value) &&
        r.value.BuiltFrom(Recognise(notation).value) && r.value.Parsed() && r.value.errors.None?
    {
      if Recognise(notation).None? {
        return Failure(FormatError);
      }
      var p := new Ptn(notation);
      return Success(p);
    }

    // -------------------------------------------------------------------------
    // Classification

    predicate IsMovement()
    {
      Truthy(movement)
    }

    predicate IsPlacement()
    {
      !IsMovement() && !Truthy(pieceCount)
    }

    /** The drop counts, one per distribution digit; None when there is no
        distribution, where `stackDistribution` would throw. */
    function StackDistribution(): Option<seq<nat>>
      requires Parsed()
    {
      if distribution.Some? then Some(Digits(distribution.value)) else None
    }

    function StackTotal(): nat
      requires Parsed()
    {
      if !Truthy(distribution) then 1 else DigitSum(distribution.value)
    }

    /** The count read by `parseInt` equals the stack total; a missing count
        reads as NaN, which equals nothing. */
    predicate IsValidStackDistribution()
      requires Parsed()
    {
      if !Truthy(pieceCount) && !Truthy(distribution) then true
      else Truthy(pieceCount) && DecimalValue(pieceCount.value) == StackTotal()
    }

    /** The errors `isValid` records, in the order it records them. */
    function ValidationErrors(): (errs: seq<string>)
      requires Parsed()
      ensures |errs| <= 1
      ensures errs == [] <==> (IsMovement() ==> IsValidStackDistribution()) && (IsMovement() || IsPlacement())
    {
      (if IsMovement() && !IsValidStackDistribution() then [DistributionError] else []) +
      (if !IsMovement() && !IsPlacement() then [KindError] else [])
    }

    /** `isValid()`: resets `errors`, records each failed check, and
        reports whether none failed. */
    method IsValid() returns (valid: bool)
      requires Parsed()
      modifies this`errors
      ensures errors == Some(ValidationErrors())
      ensures valid <==> ValidationErrors() == []
    {
      errors := Some([]);
      if IsMovement() && !IsValidStackDistribution() {
        errors := Some(errors.value + [DistributionError]);
      }
      if !IsMovement() && !IsPlacement() {
        errors := Some(errors.value + [KindError]);
      }
      assert errors.value == ValidationErrors();
      valid := |errors.value| == 0;
    }

    // -------------------------------------------------------------------------
    // Offsets and trajectories

    /** The per-square (x, y) offset of the direction. */
    function DirectionModifier(): (int, int)
    {
      if direction == Some("+") then (0, 1)
      else if direction == Some("-") then (0, -1)
      else if direction == Some(">") then (1, 0)
      else if direction == Some("<") then (-1, 0)
      else (0, 0)
    }

    function RowTrajectory(): int
      requires Parsed()
    {
      x + DirectionModifier().0 * StackTotal()
    }

    function ColumnTrajectory(): int
      requires Parsed()
    {
      y + DirectionModifier().1 * StackTotal()
    }

    /** The row of the last square a movement drops on: one square per
        distribution digit. */
    function FinalRow(): int
      requires Parsed()
    {
      x + DirectionModifier().0 * DropCount()
    }

    /** The column of the last square a movement drops on. */
    function FinalColumn(): int
      requires Parsed()
    {
      y + DirectionModifier().1 * DropCount()
    }

    /** How many squares a movement drops on: one per distribution digit. */
    function DropCount(): nat
      requires Parsed()
    {
      if !Truthy(distribution) then 1 else |distribution.value|
    }

    // -------------------------------------------------------------------------
    // Movesets

    /** The moveset `toMoveset(reverse)` returns. */
    ghost function Moveset(reverse: bool): seq<Move>
      requires Parsed()
    {
      var errs := ValidationErrors();
      if errs != [] then [ErrorReport(errs)]
      else if IsPlacement() then [Step(Drop(reverse), None, x, y, false)]
      else [Step(Lift(reverse), Some(DecimalValue(pieceCount.value)), x, y, false)] + Drops(reverse)
    }

    /** The drops of a movement: one per distribution digit, each one square
        further along the direction, the last one flattening on a smash. */
    ghost function Drops(reverse: bool): seq<Move>
      requires Parsed() && IsMovement()
    {
      var counts := StackDistribution().value;
      var (dx, dy) := DirectionModifier();
      seq(|counts|, i requires 0 <= i < |counts| =>
        Step(Drop(reverse), Some(counts[i]), x + dx * (i + 1), y + dy * (i + 1),
             Truthy(wallSmash) && i == |counts| - 1))
    }

    /** The moveset `toUndoMoveset()` returns. */
    ghost function UndoMoveset(): seq<Move>
      requires Parsed()
    {
      Reversed(Moveset(true))
    }

    /** `toMoveset(reverse)`: validates (recording `errors`), then builds the
        lift and the drops, marking the last drop when a wall is smashed. */
    method ToMoveset(reverse: bool) returns (moves: seq<Move>)
      requires Parsed()
      modifies this`errors
      ensures errors == Some(ValidationErrors())
      ensures moves == Moveset(reverse)
    {
      var valid := IsValid();
      if !valid {
        return [ErrorReport(errors.value)];
      }
      if IsPlacement() {
        return [Step(Drop(reverse), None, x, y, false)];
      }
      var firstMove := Step(Lift(reverse), Some(DecimalValue(pieceCount.value)), x, y, false);
      var (xOffset, yOffset) := DirectionModifier();
      var counts := StackDistribution().value;
      var moveSet := new Move[|counts|](i requires 0 <= i < |counts| =>
        Step(Drop(reverse), Some(counts[i]), x + xOffset * (i + 1), y + yOffset * (i + 1), false));
      if Truthy(wallSmash) {
        moveSet[moveSet.Length - 1] := moveSet[moveSet.Length - 1].(flatten := true);
      }
      assert moveSet[..] == Drops(reverse) by {
        forall i | 0 <= i < |counts|
          ensures moveSet[i] == Drops(reverse)[i]
        {
        }
      }
      moves := [firstMove] + moveSet[..];
    }

    /** `toUndoMoveset()`: the reverse moveset, reversed in place. */
    method ToUndoMoveset() returns (moves: seq<Move>)
      requires Parsed()
      modifies this`errors
      ensures errors == Some(ValidationErrors())
      ensures moves == UndoMoveset()
    {
      var forward := ToMoveset(true);
      var undo := new Move[|forward|](i requires 0 <= i < |forward| => forward[i]);
      assert undo[..] == forward;
      ReverseInPlace(undo);
      moves := undo[..];
    }
  }
}
