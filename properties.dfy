/** What the `Ptn` class guarantees: the fields the constructor derives, the
    validity rule, the shape of the movesets, the undo moveset as the
    inverse of the forward one, and the trajectories. */
module PtnProperties {
  import opened Wrappers
  import opened Notation
  import opened Moves
  import opened Tak

  // ---------------------------------------------------------------------------
  // Construction

  /** `x` is the row digit less one, `y` the index of the column letter in
      "abcdefgh" (-1 for an upper-case letter, which the i flag admits), and
      only an upper-case 'C' makes a capstone. */
  lemma ParsedCoordinates(p: Ptn, m: Match)
    requires Shaped(m) && p.BuiltFrom(m)
    ensures p.x == DigitValue(m.row[0]) - 1 && 0 <= p.x <= 7
    ensures -1 <= p.y <= 7
    ensures p.y == -1 <==> 'A' <= m.column[0] <= 'H'
    ensures p.y >= 0 ==> Files[p.y] == m.column[0]
    ensures p.pieceType == Capstone <==> p.specialPiece == Some("C")
  {
    assert m.row == [m.row[0]] && m.row[..0] == [];
    assert DecimalValue(m.row) == DigitValue(m.row[0]);
    FileIndex(m.column[0]);
  }

  /** After construction a movement has both a count and a distribution: a
      missing count is the distribution's text (or "1"), a missing
      distribution is the count's text. Nothing else is filled in. */
  lemma MovementDefaults(p: Ptn, m: Match)
    requires Shaped(m) && p.BuiltFrom(m)
    ensures p.IsMovement() <==> m.movement.Some?
    ensures p.IsMovement() ==> p.pieceCount.Some? && p.distribution.Some?
    ensures p.IsMovement() && m.pieceCount.None? ==>
      p.pieceCount == Some(if m.distribution.Some? then m.distribution.value else "1")
    ensures p.IsMovement() && m.pieceCount.Some? ==> p.pieceCount == m.pieceCount
    ensures p.IsMovement() && m.distribution.None? ==> p.distribution == p.pieceCount
    ensures p.IsMovement() && m.distribution.Some? ==> p.distribution == m.distribution
    ensures !p.IsMovement() ==> p.pieceCount == m.pieceCount && p.distribution.None?
  {
  }

  // ---------------------------------------------------------------------------
  // Validity

  /** A token is valid exactly when it is a movement whose count equals the
      sum of its distribution digits, or a placement (no movement, no
      count). */
  lemma ValidIff(p: Ptn)
    requires p.Parsed()
    ensures p.ValidationErrors() == [] <==>
      (p.IsMovement() && DecimalValue(p.pieceCount.value) == DigitSum(p.distribution.value)) ||
      (!p.IsMovement() && p.pieceCount.None?)
    ensures p.ValidationErrors() == [] ==> p.IsMovement() != p.IsPlacement()
  {
  }

  /** The error recorded, when there is one, names the failed check. */
  lemma ErrorNamesCheck(p: Ptn)
    requires p.Parsed()
    ensures p.IsMovement() && !p.IsValidStackDistribution() ==> p.ValidationErrors() == [DistributionError]
    ensures !p.IsMovement() && p.pieceCount.Some? ==> p.ValidationErrors() == [KindError]
  {
  }

  /** `isValid` starts again from an empty list on every call, so asking
      twice gives the same answer and the same recorded errors. */
  method Revalidate(p: Ptn) returns (first: bool, second: bool)
    requires p.Parsed()
    modifies p`errors
    ensures first == second
    ensures first <==> p.ValidationErrors() == []
    ensures p.errors == Some(p.ValidationErrors())
  {
    first := p.IsValid();
    second := p.IsValid();
  }

  /** A movement whose count was filled in from a distribution of two or
      more digits is never valid: the count is the distribution read as one
      number, which exceeds the sum of its digits. */
  lemma DefaultCountRejectsLongDistribution(p: Ptn)
    requires p.Parsed() && p.IsMovement() && p.pieceCount == p.distribution
    requires |p.distribution.value| >= 2 && p.distribution.value[0] != '0'
    ensures p.ValidationErrors() == [DistributionError]
  {
    DecimalExceedsDigitSum(p.distribution.value);
  }

  /** `stackTotal` is the sum of `stackDistribution`. */
  lemma StackTotalIsSumOfDistribution(p: Ptn)
    requires p.Parsed() && p.distribution.Some?
    ensures p.StackDistribution().Some?
    ensures p.StackTotal() == Sum(p.StackDistribution().value)
  {
    DigitSumIsSumOfDigits(p.distribution.value);
  }

  // ---------------------------------------------------------------------------
  // Offsets and trajectories

  /** A movement steps one square along exactly one axis; anything else
      does not step. */
  lemma DirectionIsUnitStep(p: Ptn)
    requires p.Parsed()
    ensures var (dx, dy) := p.DirectionModifier();
      (p.IsMovement() ==> (dx == 0) != (dy == 0) && -1 <= dx <= 1 && -1 <= dy <= 1) &&
      (!p.IsMovement() ==> dx == 0 && dy == 0)
  {
    if p.IsMovement() {
      var d := p.direction.value;
      assert d == [d[0]];
    }
  }

  /** A token that is not a movement stays on its own square. */
  lemma PlacementTrajectory(p: Ptn)
    requires p.Parsed() && !p.IsMovement()
    ensures p.StackTotal() == 1
    ensures p.RowTrajectory() == p.x && p.ColumnTrajectory() == p.y
    ensures p.FinalRow() == p.x && p.FinalColumn() == p.y
  {
  }

  // ---------------------------------------------------------------------------
  // Movesets

  /** An invalid token's moveset is the single error report. */
  lemma InvalidMoveset(p: Ptn, reverse: bool)
    requires p.Parsed() && p.ValidationErrors() != []
    ensures p.Moveset(reverse) == [ErrorReport(p.ValidationErrors())]
  {
  }

  /** A valid placement is one step at its square without a count: a push,
      or a pop when reversed. */
  lemma PlacementMoveset(p: Ptn, reverse: bool)
    requires p.Parsed() && p.ValidationErrors() == [] && !p.IsMovement()
    ensures p.Moveset(reverse) == [Step(Drop(reverse), None, p.x, p.y, false)]
  {
  }

  /** A valid movement is a lift of the whole count at its square followed
      by one drop per distribution digit, the i-th one i squares along the
      direction; only the last one flattens, and only on a wall smash. */
  lemma MovementMoveset(p: Ptn, reverse: bool)
    requires p.Parsed() && p.ValidationErrors() == [] && p.IsMovement()
    ensures |p.Moveset(reverse)| == |p.distribution.value| + 1
    ensures p.Moveset(reverse)[0] ==
      Step(Lift(reverse), Some(DecimalValue(p.pieceCount.value)), p.x, p.y, false)
    ensures forall i | 1 <= i <= |p.distribution.value| ::
      p.Moveset(reverse)[i] ==
        Step(Drop(reverse), Some(DigitValue(p.distribution.value[i - 1])),
             p.x + p.DirectionModifier().0 * i, p.y + p.DirectionModifier().1 * i,
             Truthy(p.wallSmash) && i == |p.distribution.value|)
  {
    var ms := p.Moveset(reverse);
    var drops := p.Drops(reverse);
    MovesetOfMovement(p, reverse);
    forall i | 1 <= i <= |p.distribution.value|
      ensures ms[i] == drops[i - 1]
    {
    }
  }

  lemma MovesetOfMovement(p: Ptn, reverse: bool)
    requires p.Parsed() && p.ValidationErrors() == [] && p.IsMovement()
    ensures p.Moveset(reverse) ==
      [Step(Lift(reverse), Some(DecimalValue(p.pieceCount.value)), p.x, p.y, false)] + p.Drops(reverse)
  {
  }

  /** The lift picks up exactly as many pieces as the drops put down. */
  lemma LiftBalancesDrops(p: Ptn, reverse: bool)
    requires p.Parsed() && p.ValidationErrors() == [] && p.IsMovement()
    ensures var ms := p.Moveset(reverse);
      |ms| >= 2 && ms[0].Step? && ms[0].count == Some(CountTotal(ms[1..]))
  {
    var ms, d := p.Moveset(reverse), p.distribution.value;
    MovementMoveset(p, reverse);
    ValidIff(p);
    CountTotalOfCounts(ms[1..], Digits(d));
    DigitSumIsSumOfDigits(d);
  }

  /** `flatten` is set on the last move of a valid wall-smashing movement,
      and on no other move of any moveset. */
  lemma FlattenOnlyOnLastDrop(p: Ptn, reverse: bool)
    requires p.Parsed()
    ensures var ms := p.Moveset(reverse);
      forall i | 0 <= i < |ms| ::
        (ms[i].Step? && ms[i].flatten) <==>
        (p.ValidationErrors() == [] && p.IsMovement() && Truthy(p.wallSmash) && i == |ms| - 1)
  {
    if p.ValidationErrors() == [] && p.IsMovement() {
      MovementMoveset(p, reverse);
    }
  }

  /** The i-th move of a valid movement is i squares along the direction
      from the token's square: each move is one square further than the one
      before it. */
  lemma MovesFollowDirection(p: Ptn, reverse: bool)
    requires p.Parsed() && p.ValidationErrors() == [] && p.IsMovement()
    ensures forall i | 0 <= i < |p.Moveset(reverse)| ::
      p.Moveset(reverse)[i].Step? &&
      p.Moveset(reverse)[i].x == p.x + p.DirectionModifier().0 * i &&
      p.Moveset(reverse)[i].y == p.y + p.DirectionModifier().1 * i
  {
    MovementMoveset(p, reverse);
  }

  /** The reversed moveset is the forward one with push and pop exchanged. */
  lemma ReverseFlipsActions(p: Ptn)
    requires p.Parsed()
    ensures |p.Moveset(true)| == |p.Moveset(false)|
    ensures forall i | 0 <= i < |p.Moveset(false)| :: p.Moveset(true)[i] == Inverted(p.Moveset(false)[i])
  {
    assert Lift(true) == Opposite(Lift(false)) && Drop(true) == Opposite(Drop(false));
    if p.ValidationErrors() == [] && p.IsMovement() {
      var t, f := p.Drops(true), p.Drops(false);
      assert forall i | 0 <= i < |f| :: t[i] == Inverted(f[i]);
    }
  }

  /** The undo moveset is the forward moveset backwards with push and pop
      exchanged: the last drop is undone first and the lift last. */
  lemma UndoInvertsForward(p: Ptn)
    requires p.Parsed()
    ensures var u, f := p.UndoMoveset(), p.Moveset(false);
      |u| == |f| && forall k | 0 <= k < |f| :: u[k] == Inverted(f[|f| - 1 - k])
  {
    ReverseFlipsActions(p);
    ReversedOfInverted(p.Moveset(true), p.Moveset(false));
  }

  /** An invalid token's undo moveset is the same single error report. */
  lemma UndoOfInvalid(p: Ptn)
    requires p.Parsed() && p.ValidationErrors() != []
    ensures p.UndoMoveset() == [ErrorReport(p.ValidationErrors())]
  {
    UndoInvertsForward(p);
  }

  // ---------------------------------------------------------------------------
  // Where a movement ends

  /** `rowTrajectory` and `columnTrajectory` name the square of the last
      drop only when every drop is of one piece: they step `stackTotal`
      squares, while the moveset steps one square per digit. */
  lemma TrajectoryMissesLastDrop(p: Ptn)
    requires p.Parsed() && p.ValidationErrors() == [] && p.IsMovement()
    ensures var ms := p.Moveset(false);
      (p.RowTrajectory() == ms[|ms| - 1].x && p.ColumnTrajectory() == ms[|ms| - 1].y) <==>
      p.StackTotal() == |p.distribution.value|
  {
    var ms, n := p.Moveset(false), |p.distribution.value|;
    MovementMoveset(p, false);
    DirectionIsUnitStep(p);
    assert ms[|ms| - 1].x == p.x + p.DirectionModifier().0 * n;
    assert ms[|ms| - 1].y == p.y + p.DirectionModifier().1 * n;
    UnitStepScales(p.DirectionModifier().0, p.DirectionModifier().1, p.StackTotal(), n);
  }

  /** Scaling a unit step distinguishes distances. */
  lemma UnitStepScales(dx: int, dy: int, a: int, b: int)
    requires (dx == 0) != (dy == 0) && -1 <= dx <= 1 && -1 <= dy <= 1
    ensures (dx * a == dx * b && dy * a == dy * b) <==> a == b
  {
  }

  /** Where every valid token ends: (`FinalRow`, `FinalColumn`) is the
      square of the last move of its moveset. */
  lemma FinalSquareIsLastMove(p: Ptn, reverse: bool)
    requires p.Parsed() && p.ValidationErrors() == []
    ensures var ms := p.Moveset(reverse);
      ms[|ms| - 1].Step? && ms[|ms| - 1].x == p.FinalRow() && ms[|ms| - 1].y == p.FinalColumn()
  {
    if p.IsMovement() {
      MovementMoveset(p, reverse);
    }
  }
}
