/** Worked tokens: what the pattern captures from a few notations, and what
    the `Ptn` built from each capture then says about itself. */
module PtnExamples {
  import opened Wrappers
  import opened Notation
  import opened Moves
  import opened Tak
  import opened PtnProperties

  const PlacementCapture := Match(0, "c3", None, None, "c", "3", None, None, None, None)
  const CapstoneCapture := Match(0, "Cd3", None, Some("C"), "d", "3", None, None, None, None)
  const MovementCapture :=
    Match(0, "3c3>111", Some("3"), None, "c", "3", Some(">111"), Some(">"), Some("111"), None)
  const SmashCapture := Match(0, "c3>*", None, None, "c", "3", Some(">*"), Some(">"), None, Some("*"))
  const ZeroCountCapture := Match(0, "0d3", Some("0"), None, "d", "3", None, None, None, None)
  const UncountedCapture := Match(0, "d3+11", None, None, "d", "3", Some("+11"), Some("+"), Some("11"), None)
  const UncountedMoveCapture := Match(0, "3d3", Some("3"), None, "d", "3", None, None, None, None)
  const OverspreadCapture :=
    Match(0, "3d3+1111", Some("3"), None, "d", "3", Some("+1111"), Some("+"), Some("1111"), None)
  const UnevenCapture := Match(0, "3c3>12", Some("3"), None, "c", "3", Some(">12"), Some(">"), Some("12"), None)

  // ---------------------------------------------------------------------------
  // What the pattern captures

  /** A notation with no square in it does not match. */
  lemma NoSquareFails()
    ensures Recognise("9z").None?
  {
    RecogniseFails("9z");
  }

  lemma PlacementCaptured()
    ensures Recognise("c3") == Some(PlacementCapture) && Shaped(PlacementCapture)
  {
    RecogniseUnique("c3", PlacementCapture);
  }

  lemma CapstoneCaptured()
    ensures Recognise("Cd3") == Some(CapstoneCapture) && Shaped(CapstoneCapture)
  {
    RecogniseUnique("Cd3", CapstoneCapture);
  }

  lemma MovementCaptured()
    ensures Recognise("3c3>111") == Some(MovementCapture) && Shaped(MovementCapture)
  {
    RecogniseUnique("3c3>111", MovementCapture);
  }

  lemma SmashCaptured()
    ensures Recognise("c3>*") == Some(SmashCapture) && Shaped(SmashCapture)
  {
    RecogniseUnique("c3>*", SmashCapture);
  }

  lemma ZeroCountCaptured()
    ensures Recognise("0d3") == Some(ZeroCountCapture) && Shaped(ZeroCountCapture)
  {
    RecogniseUnique("0d3", ZeroCountCapture);
  }

  lemma UncountedCaptured()
    ensures Recognise("d3+11") == Some(UncountedCapture) && Shaped(UncountedCapture)
  {
    RecogniseUnique("d3+11", UncountedCapture);
  }

  lemma UncountedMoveCaptured()
    ensures Recognise("3d3") == Some(UncountedMoveCapture) && Shaped(UncountedMoveCapture)
  {
    RecogniseUnique("3d3", UncountedMoveCapture);
  }

  lemma OverspreadCaptured()
    ensures Recognise("3d3+1111") == Some(OverspreadCapture) && Shaped(OverspreadCapture)
  {
    RecogniseUnique("3d3+1111", OverspreadCapture);
  }

  lemma UnevenCaptured()
    ensures Recognise("3c3>12") == Some(UnevenCapture) && Shaped(UnevenCapture)
  {
    RecogniseUnique("3c3>12", UnevenCapture);
  }

  // ---------------------------------------------------------------------------
  // What the token built from the capture says

  /** A capture on square c3 is row 2, column 2. */
  lemma OnC3(p: Ptn, m: Match)
    requires Shaped(m) && p.BuiltFrom(m) && m.column == "c" && m.row == "3"
    ensures p.Parsed() && p.x == 2 && p.y == 2
  {
    p.BuiltIsParsed(m);
    ParsedCoordinates(p, m);
    assert Files[0] != 'c' && Files[1] != 'c' && Files[2] == 'c';
  }

  /** "c3" is a valid placement of an ordinary piece on row 2, column 2. */
  lemma PlacementToken(p: Ptn)
    requires p.BuiltFrom(PlacementCapture)
    ensures p.Parsed() && p.IsPlacement() && p.pieceType == Piece
    ensures p.x == 2 && p.y == 2
    ensures p.Moveset(false) == [Step(Push, None, 2, 2, false)]
  {
    PlacementCaptured();
    OnC3(p, PlacementCapture);
    PlacementMoves(p);
  }

  lemma PlacementMoves(p: Ptn)
    requires p.Parsed() && p.x == 2 && p.y == 2 && p.pieceCount.None? && p.movement.None?
    ensures p.Moveset(false) == [Step(Push, None, 2, 2, false)]
  {
    PlacementMoveset(p, false);
  }

  /** A capture on square d3 is row 2, column 3. */
  lemma OnD3(p: Ptn, m: Match)
    requires Shaped(m) && p.BuiltFrom(m) && m.column == "d" && m.row == "3"
    ensures p.Parsed() && p.x == 2 && p.y == 3
  {
    p.BuiltIsParsed(m);
    ParsedCoordinates(p, m);
    assert Files[0] != 'd' && Files[1] != 'd' && Files[2] != 'd' && Files[3] == 'd';
  }

  /** "Cd3" places a capstone on row 2, column 3. */
  lemma CapstoneToken(p: Ptn)
    requires p.BuiltFrom(CapstoneCapture)
    ensures p.Parsed() && p.IsPlacement() && p.pieceType == Capstone
    ensures p.x == 2 && p.y == 3
    ensures p.ValidationErrors() == []
  {
    CapstoneCaptured();
    OnD3(p, CapstoneCapture);
  }

  /** "c3>*" moves one piece one square and flattens the wall there. */
  lemma SmashToken(p: Ptn)
    requires p.BuiltFrom(SmashCapture)
    ensures p.Parsed() && p.IsMovement()
    ensures p.pieceCount == Some("1") && p.distribution == Some("1")
    ensures p.Moveset(false) == [Step(Pop, Some(1), 2, 2, false), Step(Push, Some(1), 3, 2, true)]
  {
    SmashCaptured();
    OnC3(p, SmashCapture);
    SmashMoves(p);
  }

  lemma SmashMoves(p: Ptn)
    requires p.Parsed() && p.x == 2 && p.y == 2 && p.movement == Some(">*")
    requires p.direction == Some(">") && p.wallSmash == Some("*")
    requires p.pieceCount == Some("1") && p.distribution == Some("1")
    ensures p.Moveset(false) == [Step(Pop, Some(1), 2, 2, false), Step(Push, Some(1), 3, 2, true)]
  {
    assert "1"[..0] == "";
    assert DecimalValue("1") == 1 == DigitSum("1");
    MovementMoveset(p, false);
    var ms := p.Moveset(false);
    assert ms[0] == Step(Pop, Some(1), 2, 2, false);
    assert ms[1] == Step(Push, Some(1), 3, 2, true);
    assert ms == [ms[0], ms[1]];
  }

  /** "3c3>111" lifts three and drops one on each of three squares; its
      undo moveset takes them back last first. */
  lemma MovementToken(p: Ptn)
    requires p.BuiltFrom(MovementCapture)
    ensures p.Parsed() && p.IsMovement() && p.ValidationErrors() == []
    ensures p.UndoMoveset() ==
      [Step(Pop, Some(1), 5, 2, false), Step(Pop, Some(1), 4, 2, false),
       Step(Pop, Some(1), 3, 2, false), Step(Push, Some(3), 2, 2, false)]
  {
    MovementCaptured();
    OnC3(p, MovementCapture);
    MovementMoves(p);
  }

  lemma MovementMoves(p: Ptn)
    requires p.Parsed() && p.x == 2 && p.y == 2 && p.movement == Some(">111")
    requires p.direction == Some(">") && p.wallSmash == None
    requires p.pieceCount == Some("3") && p.distribution == Some("111")
    ensures p.ValidationErrors() == []
    ensures p.UndoMoveset() ==
      [Step(Pop, Some(1), 5, 2, false), Step(Pop, Some(1), 4, 2, false),
       Step(Pop, Some(1), 3, 2, false), Step(Push, Some(3), 2, 2, false)]
  {
    MovementReverseMoves(p);
    ReversedFour(Step(Push, Some(3), 2, 2, false), Step(Pop, Some(1), 3, 2, false),
                 Step(Pop, Some(1), 4, 2, false), Step(Pop, Some(1), 5, 2, false));
  }

  lemma MovementReverseMoves(p: Ptn)
    requires p.Parsed() && p.x == 2 && p.y == 2 && p.movement == Some(">111")
    requires p.direction == Some(">") && p.wallSmash == None
    requires p.pieceCount == Some("3") && p.distribution == Some("111")
    ensures p.ValidationErrors() == []
    ensures p.Moveset(true) ==
      [Step(Push, Some(3), 2, 2, false), Step(Pop, Some(1), 3, 2, false),
       Step(Pop, Some(1), 4, 2, false), Step(Pop, Some(1), 5, 2, false)]
  {
    assert "111"[..2] == "11" && "11"[..1] == "1" && "1"[..0] == "";
    assert "3"[..0] == "";
    assert DecimalValue("3") == 3 == DigitSum("111");
    MovementMoveset(p, true);
    var f := p.Moveset(true);
    assert f[0] == Step(Push, Some(3), 2, 2, false);
    assert f[1] == Step(Pop, Some(1), 3, 2, false);
    assert f[2] == Step(Pop, Some(1), 4, 2, false);
    assert f[3] == Step(Pop, Some(1), 5, 2, false);
    assert f == [f[0], f[1], f[2], f[3]];
  }

  lemma ReversedFour<T>(a: T, b: T, c: T, d: T)
    ensures Reversed([a, b, c, d]) == [d, c, b, a]
  {
    assert [a][..0] == [];
    assert Reversed([a]) == [a];
    assert [a, b][..1] == [a];
    assert Reversed([a, b]) == [b, a];
    assert [a, b, c][..2] == [a, b];
    assert Reversed([a, b, c]) == [c, b, a];
    assert [a, b, c, d][..3] == [a, b, c];
  }

  /** "0d3" has a count but no movement, so it is neither kind of token. */
  lemma ZeroCountToken(p: Ptn)
    requires p.BuiltFrom(ZeroCountCapture)
    ensures p.Parsed() && !p.IsMovement() && !p.IsPlacement()
    ensures p.ValidationErrors() == [KindError]
  {
    ZeroCountCaptured();
    p.BuiltIsParsed(ZeroCountCapture);
  }

  /** "d3+11" takes the text "11" as its count, which two one-piece drops
      cannot balance. */
  lemma UncountedToken(p: Ptn)
    requires p.BuiltFrom(UncountedCapture)
    ensures p.Parsed() && p.pieceCount == Some("11")
    ensures p.ValidationErrors() == [DistributionError]
    ensures p.Moveset(false) == [ErrorReport([DistributionError])]
  {
    UncountedCaptured();
    p.BuiltIsParsed(UncountedCapture);
    DefaultCountRejectsLongDistribution(p);
  }

  /** "3d3" counts pieces but does not move them: neither kind of token. */
  lemma UncountedMoveToken(p: Ptn)
    requires p.BuiltFrom(UncountedMoveCapture)
    ensures p.Parsed() && !p.IsPlacement()
    ensures p.ValidationErrors() == [KindError]
  {
    UncountedMoveCaptured();
    p.BuiltIsParsed(UncountedMoveCapture);
  }

  /** "3d3+1111" drops four pieces after lifting three. */
  lemma OverspreadToken(p: Ptn)
    requires p.BuiltFrom(OverspreadCapture)
    ensures p.Parsed() && p.IsMovement() && p.StackTotal() == 4
    ensures p.ValidationErrors() == [DistributionError]
  {
    OverspreadCaptured();
    p.BuiltIsParsed(OverspreadCapture);
    OverspreadCounts(p);
  }

  lemma OverspreadCounts(p: Ptn)
    requires p.Parsed() && p.movement == Some("+1111")
    requires p.pieceCount == Some("3") && p.distribution == Some("1111")
    ensures p.StackTotal() == 4
    ensures p.ValidationErrors() == [DistributionError]
  {
    assert "1111"[..3] == "111" && "111"[..2] == "11" && "11"[..1] == "1" && "1"[..0] == "";
    assert "3"[..0] == "";
    assert DecimalValue("3") == 3 && DigitSum("1111") == 4;
  }

  /** "3c3>12" drops its last piece on row 4, but `rowTrajectory` steps
      three squares (the stack total) to row 5. */
  lemma UnevenTrajectory(p: Ptn)
    requires p.BuiltFrom(UnevenCapture)
    ensures p.Parsed() && p.ValidationErrors() == []
    ensures p.Moveset(false)[2] == Step(Push, Some(2), 4, 2, false)
    ensures p.RowTrajectory() == 5
    ensures p.FinalRow() == 4
  {
    UnevenCaptured();
    OnC3(p, UnevenCapture);
    UnevenMoves(p);
  }

  lemma UnevenMoves(p: Ptn)
    requires p.Parsed() && p.x == 2 && p.y == 2 && p.movement == Some(">12")
    requires p.direction == Some(">") && p.wallSmash == None
    requires p.pieceCount == Some("3") && p.distribution == Some("12")
    ensures p.ValidationErrors() == []
    ensures p.Moveset(false)[2] == Step(Push, Some(2), 4, 2, false)
    ensures p.RowTrajectory() == 5
    ensures p.FinalRow() == 4
  {
    assert "12"[..1] == "1" && "1"[..0] == "";
    assert "3"[..0] == "";
    assert DecimalValue("3") == 3 == DigitSum("12");
    MovementMoveset(p, false);
  }
}
