/** The starting position: the text the program reads it from, and that it is well formed. */
module InitialPosition {
  import opened Positions
  import opened Attacks
  import opened MakeMove
  import opened Legality
  import opened Boards
  import opened Text
  import opened Fen

  // The text "rnbqkbnr/pppppppp/8/8/8/8/PPPPPPPP/RNBQKBNR w KQkq - 0 1", row by row and field by field.
  const LOWER_ROWS := "8" + ("/" + ("8" + ("/" + ("PPPPPPPP" + ("/" + "RNBQKBNR")))))
  const ROWS := "rnbqkbnr" + ("/" + ("pppppppp" + ("/" + ("8" + ("/" + ("8" + ("/" + LOWER_ROWS)))))))
  const TEXT := ROWS + " " + ("w" + " " + ("KQkq" + " " + ("-" + " " + ("0" + " " + "1"))))

  function BackRank(file: nat): Kind
    requires file < 8
  {
    [Rook, Knight, Bishop, Queen, King, Bishop, Knight, Rook][file]
  }

  function HomeMan(file: nat, rank: nat): Piece
    requires file < 8 && rank < 8
  {
    if rank == 0 then Man(White, BackRank(file))
    else if rank == 1 then Man(White, Pawn)
    else if rank == 6 then Man(Black, Pawn)
    else if rank == 7 then Man(Black, BackRank(file))
    else Empty
  }

  function HomeSquares(): Squares {
    seq(64, s requires 0 <= s < 64 => HomeMan(File(s), Rank(s)))
  }

  function Initial(): Position {
    WithKey(HomeSquares(), White, Rights(true, true, true, true), NO_SQUARE, 0, 1)
  }

  lemma HomeAt(file: int, rank: int)
    ensures PieceAt(HomeSquares(), file, rank) == if OnBoard(file, rank) then HomeMan(file, rank) else Empty
  {
  }

  // ----- the text -----

  function RowSymbols(rank: nat): (row: string)
    requires rank < 8
    ensures |row| == 8
  {
    var symbol := (file: nat) requires file < 8 => PieceSymbol(HomeMan(file, rank));
    [symbol(0), symbol(1), symbol(2), symbol(3), symbol(4), symbol(5), symbol(6), symbol(7)]
  }

  lemma RowSymbolAt(rank: nat, file: nat)
    requires rank < 8 && file < 8
    ensures RowSymbols(rank)[file] == PieceSymbol(HomeMan(file, rank))
  {
    hide HomeMan, PieceSymbol;
  }

  lemma {:induction false} FullRow(rank: nat, file: nat)
    requires rank in {0, 1, 6, 7} && file <= 8
    ensures RowText(HomeSquares(), rank, file, 0) == RowSymbols(rank)[file..]
    decreases 8 - file
  {
    hide RowSymbols, PieceSymbol, HomeSquares;
    if file < 8 {
      HomeAt(file, rank);
      RowSymbolAt(rank, file);
      FullRow(rank, file + 1);
      var piece := HomeSquares()[SquareAt(file, rank)];
      assert RowText(HomeSquares(), rank, file, 0) == EmptyRun(0) + [PieceSymbol(piece)] + RowSymbols(rank)[file + 1..];
    }
  }

  lemma {:induction false} EmptyRow(rank: nat, file: nat)
    requires 2 <= rank < 6 && file <= 8
    ensures RowText(HomeSquares(), rank, file, file) == "8"
    decreases 8 - file
  {
    if file < 8 {
      HomeAt(file, rank);
      EmptyRow(rank, file + 1);
    }
  }

  lemma RowTexts()
    ensures RowText(HomeSquares(), 7, 0, 0) == "rnbqkbnr" && RowText(HomeSquares(), 6, 0, 0) == "pppppppp"
    ensures RowText(HomeSquares(), 1, 0, 0) == "PPPPPPPP" && RowText(HomeSquares(), 0, 0, 0) == "RNBQKBNR"
  {
    FullRow(7, 0);
    FullRow(6, 0);
    FullRow(1, 0);
    FullRow(0, 0);
    hide RowText;
    assert RowSymbols(7) == "rnbqkbnr";
    assert RowSymbols(6) == "pppppppp";
    assert RowSymbols(1) == "PPPPPPPP";
    assert RowSymbols(0) == "RNBQKBNR";
  }

  lemma BoardTextStep(squares: Squares, rank: nat)
    requires rank < 8
    ensures BoardText(squares, rank) ==
            RowText(squares, rank, 0, 0) + if rank == 0 then "" else "/" + BoardText(squares, rank - 1)
  {
  }

  lemma LowerRowsText()
    ensures BoardText(HomeSquares(), 3) == LOWER_ROWS
  {
    hide BoardText, RowText, HomeSquares;
    var squares := HomeSquares();
    RowTexts();
    EmptyRow(2, 0);
    EmptyRow(3, 0);
    BoardTextStep(squares, 0);
    assert BoardText(squares, 0) == "RNBQKBNR";
    BoardTextStep(squares, 1);
    BoardTextStep(squares, 2);
    BoardTextStep(squares, 3);
  }

  lemma RowsText()
    ensures BoardText(HomeSquares(), 7) == ROWS
  {
    hide BoardText, RowText, HomeSquares;
    var squares := HomeSquares();
    LowerRowsText();
    RowTexts();
    EmptyRow(4, 0);
    EmptyRow(5, 0);
    BoardTextStep(squares, 4);
    BoardTextStep(squares, 5);
    BoardTextStep(squares, 6);
    BoardTextStep(squares, 7);
  }

  lemma HomeKings()
    ensures OneKingEach(HomeSquares())
    ensures KingSquare(HomeSquares(), White) == 4 && KingSquare(HomeSquares(), Black) == 60
  {
    assert OnlyKing(HomeSquares(), White, 4);
    assert OnlyKing(HomeSquares(), Black, 60);
    OnlyKingFound(HomeSquares(), White, 4);
    OnlyKingFound(HomeSquares(), Black, 60);
  }

  lemma InitialFields()
    ensures RightsText(Rights(true, true, true, true)) == "KQkq"
    ensures NatText(0) == "0" && NatText(1) == "1" && EnPassantText(NO_SQUARE) == "-" && SideText(White) == "w"
  {
  }

  lemma InitialText()
    ensures ToFen(Initial()) == TEXT
  {
    hide BoardText, HomeSquares, PositionKey, RightsText, NatText, EnPassantText, SideText;
    RowsText();
    InitialFields();
  }

  /** The program's initial board is this position. */
  lemma InitialFromText()
    ensures FromFen(TEXT) == Ok(Initial())
  {
    hide BoardText, HomeSquares, FromFen, ToFen, KingSquare, PositionKey;
    HomeKings();
    InitialText();
    FenRoundTrip(Initial());
  }

  // ----- well-formedness -----

  lemma HomeNeighbour(file: int, rank: int)
    requires 3 <= file <= 5 && 6 <= rank <= 8
    ensures PieceAt(HomeSquares(), file, rank) != Empty ==> PieceAt(HomeSquares(), file, rank).color == Black
    ensures rank < 8 ==> PieceAt(HomeSquares(), file, rank) != Empty
  {
    HomeAt(file, rank);
    hide HomeSquares;
  }

  lemma HomePawnsAway(deltaFile: int)
    requires deltaFile in {-1, 1}
    ensures !PawnHit(HomeSquares(), 60, White, deltaFile)
  {
    hide HomeSquares, PieceAt;
    HomeNeighbour(4 + deltaFile, 6);
  }

  lemma NoWhiteAbove(file: int, rank: int)
    requires rank >= 2
    ensures PieceAt(HomeSquares(), file, rank) == Empty || PieceAt(HomeSquares(), file, rank).color == Black
  {
    HomeAt(file, rank);
    hide HomeSquares, PieceAt, BackRank;
  }

  lemma HomeKnightsAway(jump: Dir)
    ensures !KnightHit(HomeSquares(), 60, White, jump)
  {
    hide HomeSquares, PieceAt;
    NoWhiteAbove(4 + KnightFile(jump), 7 + KnightRank(jump));
  }

  lemma HomeLinesBlocked(dir: Dir, k: nat)
    ensures !RayHit(HomeSquares(), 60, White, dir, k)
  {
    hide HomeSquares, PieceAt;
    var squares := HomeSquares();
    var file, rank := 4 + StepFile(dir, 1), 7 + StepRank(dir, 1);
    HomeNeighbour(file, rank);
    if rank < 8 {
      assert k > 1 && OpenRay(squares, 4, 7, dir, k) ==> Vacant(squares, 4, 7, dir, 1);
    } else {
      HomeAt(4 + StepFile(dir, k), 7 + StepRank(dir, k));
    }
  }

  lemma HomeKingSafe()
    ensures !InCheck(HomeSquares(), Black)
  {
    hide Attacked;
    var squares := HomeSquares();
    HomeKings();
    HomePawnsAway(-1);
    HomePawnsAway(1);
    forall jump: Dir
      ensures !KnightHit(squares, 60, White, jump)
    {
      HomeKnightsAway(jump);
    }
    forall dir: Dir, k: nat
      ensures !RayHit(squares, 60, White, dir, k)
    {
      HomeLinesBlocked(dir, k);
    }
    hide *;
    NothingVisible(squares, 60, White);
  }

  lemma InitialWellFormed()
    ensures WellFormed(Initial())
  {
    hide InCheck, PositionKey;
    HomeKings();
    HomeKingSafe();
  }
}
