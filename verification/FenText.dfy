/** Reading and writing position text on a mutable board: the rank, file and empty-run counters of the
    program's loops, proved against the recursive readings of `Fen`. */
module FenText {
  import opened Positions
  import opened MakeMove
  import opened Boards
  import opened Text
  import opened Fen

  // ----- steps of the loops -----

  lemma {:induction false} PlaceStep(text: string, i: nat, rank: nat, file: nat, squares: Squares)
    requires i < |text| && rank < 8 && file <= 8
    ensures Place(text[i..], rank, file, squares) ==
            if text[i] == '/' then
              if file != 8 || rank == 0 then Err(Rows) else Place(text[i + 1..], rank - 1, 0, squares)
            else if IsDigit(text[i]) then
              if DigitValue(text[i]) < 1 || DigitValue(text[i]) > 8 || file + DigitValue(text[i]) > 8 then Err(EmptyCount)
              else Place(text[i + 1..], rank, file + DigitValue(text[i]), squares)
            else if PieceFromSymbol(text[i]) == Empty || file >= 8 then Err(Placement)
            else Place(text[i + 1..], rank, file + 1, squares[SquareAt(file, rank) := PieceFromSymbol(text[i])])
  {
    assert text[i..][1..] == text[i + 1..];
  }

  lemma {:induction false} AddRightsStep(text: string, i: nat, rights: Rights)
    requires i < |text|
    ensures AddRights(text[i..], rights) ==
            match text[i]
            case 'K' => AddRights(text[i + 1..], rights.(whiteKing := true))
            case 'Q' => AddRights(text[i + 1..], rights.(whiteQueen := true))
            case 'k' => AddRights(text[i + 1..], rights.(blackKing := true))
            case 'q' => AddRights(text[i + 1..], rights.(blackQueen := true))
            case _ => Err(CastlingRights)
  {
    assert text[i..][1..] == text[i + 1..];
  }

  // ----- reading -----

  /** The placement field, written square by square into the board's array. */
  method PlaceMen(text: string, squares: array<Piece>) returns (fault: Option<Fault>)
    requires squares.Length == 64
    modifies squares
    ensures Place(text, 7, 0, old(squares[..])) == if fault.None? then Ok(squares[..]) else Err(fault.value)
  {
    hide Place, PieceFromSymbol;
    ghost var goal := Place(text, 7, 0, squares[..]);
    var rank, file := 7, 0;
    assert text[0..] == text;
    for i := 0 to |text|
      invariant 0 <= rank < 8 && 0 <= file <= 8
      invariant Place(text[i..], rank, file, squares[..]) == goal
    {
      ghost var board := squares[..];
      PlaceStep(text, i, rank, file, board);
      if text[i] == '/' {
        if file != 8 || rank == 0 {
          return Some(Rows);
        }
        rank, file := rank - 1, 0;
      } else if IsDigit(text[i]) {
        var empty := DigitValue(text[i]);
        if empty < 1 || empty > 8 || file + empty > 8 {
          return Some(EmptyCount);
        }
        file := file + empty;
      } else {
        var piece := PieceFromSymbol(text[i]);
        if piece == Empty || file >= 8 {
          return Some(Placement);
        }
        squares[SquareAt(file, rank)] := piece;
        assert squares[..] == board[SquareAt(file, rank) := piece];
        file := file + 1;
      }
    }
    PlaceAll(rank, file, squares[..]);
    assert text[|text|..] == "";
    return if rank != 0 || file != 8 then Some(Incomplete) else None;
  }

  lemma {:induction false} PlaceAll(rank: nat, file: nat, squares: Squares)
    requires rank < 8 && file <= 8
    ensures Place("", rank, file, squares) == if rank != 0 || file != 8 then Err(Incomplete) else Ok(squares)
  {
  }

  method ReadRights(text: string) returns (rights: Parsed<Rights>)
    ensures rights == ParseRights(text)
  {
    var found := Rights(false, false, false, false);
    if text != "-" {
      assert text[0..] == text;
      for i := 0 to |text|
        invariant AddRights(text[i..], found) == ParseRights(text)
      {
        AddRightsStep(text, i, found);
        match text[i]
        case 'K' => found := found.(whiteKing := true);
        case 'Q' => found := found.(whiteQueen := true);
        case 'k' => found := found.(blackKing := true);
        case 'q' => found := found.(blackQueen := true);
        case _ => return Err(CastlingRights);
      }
      assert text[|text|..] == "";
    }
    return Ok(found);
  }

  /** A whole position read into a board, or the first fault of the text. */
  method ReadFen(text: string) returns (fault: Option<Fault>, board: Board)
    ensures fresh(board) && fresh(board.squares) && board.Valid()
    ensures FromFen(text) == if fault.None? then Ok(board.Pos()) else Err(fault.value)
  {
    hide Place, ParseRights, ParseEnPassant, ParseNumber, KingSquare, PositionKey, Words;
    board := new Board(WithKey(NoMen(), White, Rights(false, false, false, false), NO_SQUARE, 0, 1));
    var fields := ReadWords(text);
    if |fields| != 6 {
      return Some(FieldCount), board;
    }
    fault := PlaceMen(fields[0], board.squares);
    if fault.Some? {
      return;
    }
    ghost var squares := board.squares[..];
    var side := ParseSide(fields[1]);
    if side.Err? {
      return Some(side.fault), board;
    }
    var rights := ReadRights(fields[2]);
    if rights.Err? {
      return Some(rights.fault), board;
    }
    var enPassant := ParseEnPassant(fields[3]);
    if enPassant.Err? {
      return Some(enPassant.fault), board;
    }
    var halfmove := ParseNumber(fields[4], HalfmoveClock);
    if halfmove.Err? {
      return Some(halfmove.fault), board;
    }
    var fullmove := ParseNumber(fields[5], FullmoveNumber);
    if fullmove.Err? {
      return Some(fullmove.fault), board;
    }
    if fullmove.value == 0 {
      return Some(ZeroFullmove), board;
    }
    board.side, board.rights, board.enPassant := side.value, rights.value, enPassant.value;
    board.halfmove, board.fullmove := halfmove.value, fullmove.value;
    assert board.squares[..] == squares;
    fault := FinishBoard(board);
  }

  /** The last checks and the key of a board whose other fields are read. */
  method FinishBoard(board: Board) returns (fault: Option<Fault>)
    requires board.Valid()
    modifies board
    ensures board.Valid() && board.squares[..] == old(board.squares[..])
    ensures
      var p := old(board.Pos());
      var complete := KingSquare(p.squares, White) != NO_SQUARE && KingSquare(p.squares, Black) != NO_SQUARE;
      && (complete ==> fault == None && board.Pos() == WithKey(p.squares, p.side, p.rights, p.enPassant, p.halfmove, p.fullmove))
      && (!complete ==> fault == Some(MissingKing))
  {
    hide KingSquare, PositionKey;
    var white := board.KingSquareOf(White);
    var black := board.KingSquareOf(Black);
    if white == NO_SQUARE || black == NO_SQUARE {
      return Some(MissingKing);
    }
    board.hash := board.ComputeHash();
    board.history := [board.hash];
    return None;
  }

  // ----- writing -----

  lemma RowTextStep(squares: Squares, rank: nat, file: nat, empty: nat)
    requires rank < 8 && empty <= file <= 8
    ensures RowText(squares, rank, file, empty) ==
            if file == 8 then EmptyRun(empty)
            else if squares[SquareAt(file, rank)] == Empty then RowText(squares, rank, file + 1, empty + 1)
            else EmptyRun(empty) + [PieceSymbol(squares[SquareAt(file, rank)])] + RowText(squares, rank, file + 1, 0)
  {
  }

  method WriteRow(board: Board, rank: nat, output: string) returns (text: string)
    requires board.Valid() && rank < 8
    ensures text == output + RowText(board.squares[..], rank, 0, 0)
  {
    hide RowText, PieceSymbol, EmptyRun;
    ghost var squares := board.squares[..];
    text := output;
    var empty := 0;
    for file := 0 to 8
      invariant 0 <= empty <= file
      invariant text + RowText(squares, rank, file, empty) == output + RowText(squares, rank, 0, 0)
    {
      RowTextStep(squares, rank, file, empty);
      var piece := board.squares[SquareAt(file, rank)];
      assert piece == squares[SquareAt(file, rank)];
      if piece == Empty {
        empty := empty + 1;
      } else {
        ghost var rest := RowText(squares, rank, file + 1, 0);
        Concat4(text, EmptyRun(empty), [PieceSymbol(piece)], rest);
        text := text + EmptyRun(empty) + [PieceSymbol(piece)];
        empty := 0;
      }
    }
    RowTextStep(squares, rank, 8, empty);
    text := text + EmptyRun(empty);
  }

  method WriteFen(board: Board) returns (text: string)
    requires board.Valid()
    ensures text == ToFen(board.Pos())
  {
    hide RowText;
    ghost var squares := board.squares[..];
    text := "";
    var rank := 8;
    while rank > 0
      invariant 0 <= rank <= 8
      invariant rank > 0 ==> text + BoardText(squares, rank - 1) == BoardText(squares, 7)
      invariant rank == 0 ==> text == BoardText(squares, 7)
    {
      rank := rank - 1;
      ghost var before := text;
      text := WriteRow(board, rank, text);
      if rank != 0 {
        Concat4(before, RowText(squares, rank, 0, 0), "/", BoardText(squares, rank - 1));
        text := text + "/";
      }
    }
    text := WriteRest(board, text);
  }

  /** The five fields after the placement. */
  method WriteRest(board: Board, output: string) returns (text: string)
    requires board.Valid()
    ensures text == output + " " + (SideText(board.side) + " " + (RightsText(board.rights) + " " +
                    (EnPassantText(board.enPassant) + " " + (NatText(board.halfmove) + " " + NatText(board.fullmove)))))
  {
    hide *;
    text := output + " " + SideText(board.side) + " ";
    text := text + RightsText(board.rights);
    text := text + " " + EnPassantText(board.enPassant) + " ";
    text := text + NatText(board.halfmove) + " " + NatText(board.fullmove);
  }
}
