/** Forsyth-Edwards Notation: section 16.1 of the PGN Specification and Implementation Guide, as the
    program reads and writes it. */
module Fen {
  import opened Positions
  import opened MakeMove
  import opened Text
  import San

  // ----- pieces -----

  function KindSymbol(kind: Kind): char {
    match kind
    case Pawn => 'p'
    case Knight => 'n'
    case Bishop => 'b'
    case Rook => 'r'
    case Queen => 'q'
    case King => 'k'
  }

  function Upper(c: char): char {
    if 'a' <= c <= 'z' then (c as int - 32) as char else c
  }

  function Lower(c: char): char {
    if 'A' <= c <= 'Z' then (c as int + 32) as char else c
  }

  function PieceSymbol(piece: Piece): char {
    match piece
    case Empty => ' '
    case Man(color, kind) => if color.White? then Upper(KindSymbol(kind)) else KindSymbol(kind)
  }

  function PieceFromSymbol(symbol: char): Piece {
    var color := if 'A' <= symbol <= 'Z' then White else Black;
    match Lower(symbol)
    case 'p' => Man(color, Pawn)
    case 'n' => Man(color, Knight)
    case 'b' => Man(color, Bishop)
    case 'r' => Man(color, Rook)
    case 'q' => Man(color, Queen)
    case 'k' => Man(color, King)
    case _ => Empty
  }

  // ----- writing -----

  function EmptyRun(empty: nat): string
    requires empty <= 8
  {
    if empty == 0 then "" else [DigitChar(empty)]
  }

  /** One rank from a file on, with the length of the run of empty squares just before it. */
  function RowText(squares: Squares, rank: nat, file: nat, empty: nat): string
    requires rank < 8 && empty <= file <= 8
    decreases 8 - file
  {
    if file == 8 then EmptyRun(empty)
    else
      var piece := squares[SquareAt(file, rank)];
      if piece == Empty then RowText(squares, rank, file + 1, empty + 1)
      else EmptyRun(empty) + [PieceSymbol(piece)] + RowText(squares, rank, file + 1, 0)
  }

  function BoardText(squares: Squares, rank: nat): string
    requires rank < 8
  {
    RowText(squares, rank, 0, 0) + if rank == 0 then "" else "/" + BoardText(squares, rank - 1)
  }

  function SideText(side: Color): string {
    if side.White? then "w" else "b"
  }

  function Letter(letter: char, present: bool): string {
    if present then [letter] else ""
  }

  function RightsText(rights: Rights): string {
    if rights == Rights(false, false, false, false) then "-"
    else Letter('K', rights.whiteKing) + Letter('Q', rights.whiteQueen) +
         Letter('k', rights.blackKing) + Letter('q', rights.blackQueen)
  }

  function EnPassantText(enPassant: nat): string {
    if enPassant >= NO_SQUARE then "-" else San.SquareName(enPassant)
  }

  function ToFen(p: Position): string {
    BoardText(p.squares, 7) + " " + (SideText(p.side) + " " + (RightsText(p.rights) + " " +
    (EnPassantText(p.enPassant) + " " + (NatText(p.halfmove) + " " + NatText(p.fullmove)))))
  }

  // ----- reading -----

  function NoMen(): Squares {
    seq(64, _ => Empty)
  }

  function Place(text: string, rank: nat, file: nat, squares: Squares): Parsed<Squares>
    requires rank < 8 && file <= 8
  {
    if text == "" then
      if rank != 0 || file != 8 then Err(Incomplete) else Ok(squares)
    else if text[0] == '/' then
      if file != 8 || rank == 0 then Err(Rows) else Place(text[1..], rank - 1, 0, squares)
    else if IsDigit(text[0]) then
      var empty := DigitValue(text[0]);
      if empty < 1 || empty > 8 || file + empty > 8 then Err(EmptyCount)
      else Place(text[1..], rank, file + empty, squares)
    else
      var piece := PieceFromSymbol(text[0]);
      if piece == Empty || file >= 8 then Err(Placement)
      else Place(text[1..], rank, file + 1, squares[SquareAt(file, rank) := piece])
  }

  function ParseSide(text: string): Parsed<Color> {
    if text == "w" then Ok(White) else if text == "b" then Ok(Black) else Err(SideToMove)
  }

  function AddRights(text: string, rights: Rights): Parsed<Rights> {
    if text == "" then Ok(rights)
    else
      match text[0]
      case 'K' => AddRights(text[1..], rights.(whiteKing := true))
      case 'Q' => AddRights(text[1..], rights.(whiteQueen := true))
      case 'k' => AddRights(text[1..], rights.(blackKing := true))
      case 'q' => AddRights(text[1..], rights.(blackQueen := true))
      case _ => Err(CastlingRights)
  }

  function ParseRights(text: string): Parsed<Rights> {
    if text == "-" then Ok(Rights(false, false, false, false))
    else AddRights(text, Rights(false, false, false, false))
  }

  function ParseSquare(text: string): Parsed<nat> {
    if |text| != 2 || !('a' <= text[0] <= 'h') || !('1' <= text[1] <= '8') then Err(EnPassantSquare)
    else Ok(SquareAt(text[0] as int - 'a' as int, text[1] as int - '1' as int))
  }

  function ParseEnPassant(text: string): Parsed<nat> {
    if text == "-" then Ok(NO_SQUARE) else ParseSquare(text)
  }

  function ParseNumber(text: string, fault: Fault): Parsed<nat> {
    if text == "" || !(forall c :: c in text ==> IsDigit(c)) then Err(fault)
    else if NatValue(text) > 65535 then Err(fault)
    else Ok(NatValue(text))
  }

  function WithKey(squares: Squares, side: Color, rights: Rights, enPassant: nat, halfmove: nat, fullmove: nat): Position {
    var key := PositionKey(squares, side, rights, enPassant);
    Position(squares, side, rights, enPassant, halfmove, fullmove, key, [key])
  }

  function FromFields(fields: seq<string>): Parsed<Position> {
    if |fields| != 6 then Err(FieldCount)
    else
      var squares :- Place(fields[0], 7, 0, NoMen());
      var side :- ParseSide(fields[1]);
      var rights :- ParseRights(fields[2]);
      var enPassant :- ParseEnPassant(fields[3]);
      var halfmove :- ParseNumber(fields[4], HalfmoveClock);
      var fullmove :- ParseNumber(fields[5], FullmoveNumber);
      if fullmove == 0 then Err(ZeroFullmove)
      else if KingSquare(squares, White) == NO_SQUARE || KingSquare(squares, Black) == NO_SQUARE then Err(MissingKing)
      else Ok(WithKey(squares, side, rights, enPassant, halfmove, fullmove))
  }

  function FromFen(text: string): Parsed<Position> {
    FromFields(Words(text))
  }

  // ----- one rank and the whole board read back -----

  /** The board filled down to a rank and, on it, up to a file; the rest empty. */
  function Filled(squares: Squares, rank: nat, file: nat): Squares {
    seq(64, s requires 0 <= s < 64 => if Rank(s) > rank || (Rank(s) == rank && File(s) < file) then squares[s] else Empty)
  }

  lemma SymbolRoundTrip(piece: Piece)
    requires piece.Man?
    ensures PieceFromSymbol(PieceSymbol(piece)) == piece
    ensures PieceSymbol(piece) != '/' && !IsDigit(PieceSymbol(piece)) && !IsSpace(PieceSymbol(piece))
  {
  }

  lemma FilledGrows(squares: Squares, rank: nat, file: nat)
    requires rank < 8 && file < 8
    ensures Filled(squares, rank, file)[SquareAt(file, rank) := squares[SquareAt(file, rank)]] == Filled(squares, rank, file + 1)
  {
    var square := SquareAt(file, rank);
    var grown := Filled(squares, rank, file)[square := squares[square]];
    forall s | 0 <= s < 64
      ensures grown[s] == Filled(squares, rank, file + 1)[s]
    {
      if Rank(s) == rank && File(s) == file {
        SquareOfCoordinates(s);
      }
    }
  }

  lemma FilledRow(squares: Squares, rank: nat)
    requires 0 < rank < 8
    ensures Filled(squares, rank, 8) == Filled(squares, rank - 1, 0)
  {
  }

  lemma PlaceRun(empty: nat, rest: string, rank: nat, file: nat, squares: Squares)
    requires empty <= file <= 8 && rank < 8
    ensures Place(EmptyRun(empty) + rest, rank, file - empty, squares) == Place(rest, rank, file, squares)
  {
    if empty == 0 {
      assert EmptyRun(0) + rest == rest;
    } else {
      assert (EmptyRun(empty) + rest)[1..] == rest;
    }
  }

  lemma {:induction false} RowReadsBack(squares: Squares, rank: nat, file: nat, empty: nat, rest: string)
    requires rank < 8 && empty <= file <= 8
    ensures Place(RowText(squares, rank, file, empty) + rest, rank, file - empty, Filled(squares, rank, file)) ==
            Place(rest, rank, 8, Filled(squares, rank, 8))
    decreases 8 - file
  {
    hide Filled, PieceSymbol, PieceFromSymbol, EmptyRun, SquareAt;
    if file == 8 {
      PlaceRun(empty, rest, rank, 8, Filled(squares, rank, 8));
    } else {
      var piece := squares[SquareAt(file, rank)];
      FilledGrows(squares, rank, file);
      if piece == Empty {
        RowReadsBack(squares, rank, file + 1, empty + 1, rest);
        FilledKeepsEmpty(squares, rank, file);
      } else {
        var tail := RowText(squares, rank, file + 1, 0) + rest;
        var symbol := [PieceSymbol(piece)];
        assert RowText(squares, rank, file, empty) + rest == EmptyRun(empty) + (symbol + tail);
        PlaceRun(empty, symbol + tail, rank, file, Filled(squares, rank, file));
        SymbolRoundTrip(piece);
        assert (symbol + tail)[1..] == tail && (symbol + tail)[0] == PieceSymbol(piece);
        RowReadsBack(squares, rank, file + 1, 0, rest);
      }
    }
  }

  lemma FilledKeepsEmpty(squares: Squares, rank: nat, file: nat)
    requires rank < 8 && file < 8 && squares[SquareAt(file, rank)] == Empty
    ensures Filled(squares, rank, file + 1) == Filled(squares, rank, file)
  {
    FilledGrows(squares, rank, file);
    assert Filled(squares, rank, file)[SquareAt(file, rank)] == Empty;
  }

  lemma {:induction false} BoardReadsBack(squares: Squares, rank: nat)
    requires rank < 8
    ensures Place(BoardText(squares, rank), rank, 0, Filled(squares, rank, 0)) == Ok(squares)
  {
    hide RowText, Place, PieceFromSymbol;
    if rank == 0 {
      RowReadsBack(squares, 0, 0, 0, "");
      assert Filled(squares, 0, 8) == squares;
      PlaceEnd(squares);
    } else {
      var rest := "/" + BoardText(squares, rank - 1);
      RowReadsBack(squares, rank, 0, 0, rest);
      FilledRow(squares, rank);
      BoardReadsBack(squares, rank - 1);
      PlaceSlash(BoardText(squares, rank - 1), rank, Filled(squares, rank, 8));
    }
  }

  lemma {:induction false} PlaceEnd(squares: Squares)
    ensures Place("", 0, 8, squares) == Ok(squares)
  {
  }

  lemma {:induction false} PlaceSlash(rest: string, rank: nat, squares: Squares)
    requires 0 < rank < 8
    ensures Place("/" + rest, rank, 8, squares) == Place(rest, rank - 1, 0, squares)
  {
    assert ("/" + rest)[1..] == rest;
  }

  // ----- the other fields read back -----

  lemma RightsLetters(rights: Rights)
    requires rights != Rights(false, false, false, false)
    ensures RightsText(rights) == Letter('K', rights.whiteKing) + (Letter('Q', rights.whiteQueen) +
                                  (Letter('k', rights.blackKing) + (Letter('q', rights.blackQueen) + "")))
    ensures forall c :: c in RightsText(rights) ==> c in "KQkq"
    ensures RightsText(rights) != ""
  {
  }

  lemma RightsReadBack(rights: Rights)
    ensures ParseRights(RightsText(rights)) == Ok(rights)
    ensures NoSpace(RightsText(rights)) && RightsText(rights) != ""
  {
    var none := Rights(false, false, false, false);
    if rights == none {
      RightsWord("-");
    } else {
      hide AddRights, NoSpace, Letter;
      var text := RightsText(rights);
      RightsLetters(rights);
      hide RightsText;
      RightsWord(text);
      assert text != "-" by {
        assert text == "-" ==> '-' in text;
      }
      var b, c, d := Letter('Q', rights.whiteQueen), Letter('k', rights.blackKing), Letter('q', rights.blackQueen);
      AddOne('K', rights.whiteKing, b + (c + (d + "")), none);
      AddOne('Q', rights.whiteQueen, c + (d + ""), none.(whiteKing := rights.whiteKing));
      AddOne('k', rights.blackKing, d + "", none.(whiteKing := rights.whiteKing, whiteQueen := rights.whiteQueen));
      AddOne('q', rights.blackQueen, "", rights.(blackQueen := false));
      AddNone(rights);
    }
  }

  lemma RightsWord(text: string)
    requires forall c :: c in text ==> c in "KQkq-"
    ensures NoSpace(text)
  {
  }

  lemma {:induction false} AddNone(rights: Rights)
    ensures AddRights("", rights) == Ok(rights)
  {
  }

  lemma {:induction false} AddOne(letter: char, present: bool, rest: string, rights: Rights)
    requires letter in "KQkq"
    ensures
      var text := Letter(letter, present) + rest;
      var more := match letter
                  case 'K' => rights.(whiteKing := true)
                  case 'Q' => rights.(whiteQueen := true)
                  case 'k' => rights.(blackKing := true)
                  case _ => rights.(blackQueen := true);
      AddRights(text, rights) == AddRights(rest, if present then more else rights)
  {
    if present {
      assert ([letter] + rest)[1..] == rest;
    } else {
      assert "" + rest == rest;
    }
  }

  lemma EnPassantReadsBack(enPassant: nat)
    requires enPassant <= 64
    ensures ParseEnPassant(EnPassantText(enPassant)) == Ok(enPassant)
    ensures NoSpace(EnPassantText(enPassant)) && EnPassantText(enPassant) != ""
  {
    if enPassant < 64 {
      NameCharacters(File(enPassant));
      NameCharacters(Rank(enPassant));
      SquareOfCoordinates(enPassant);
    }
  }

  lemma NameCharacters(index: nat)
    requires index < 8
    ensures San.FILE_NAMES[index] as int == 'a' as int + index && San.RANK_NAMES[index] as int == '1' as int + index
  {
  }

  lemma {:induction false} NumberReadsBack(n: nat, fault: Fault)
    requires n < 0x1_0000
    ensures ParseNumber(NatText(n), fault) == Ok(n)
    ensures NoSpace(NatText(n)) && NatText(n) != ""
  {
    NatRoundTrip(n);
    NatTextIsWord(n);
  }

  lemma {:induction false} RowTextPlain(squares: Squares, rank: nat, file: nat, empty: nat)
    requires rank < 8 && empty <= file <= 8
    ensures NoSpace(RowText(squares, rank, file, empty)) && (file == 0 || empty > 0 ==> RowText(squares, rank, file, empty) != "")
    decreases 8 - file
  {
    hide PieceSymbol;
    if file < 8 {
      var piece := squares[SquareAt(file, rank)];
      if piece == Empty {
        RowTextPlain(squares, rank, file + 1, empty + 1);
      } else {
        RowTextPlain(squares, rank, file + 1, 0);
        SymbolRoundTrip(piece);
      }
    }
  }

  lemma {:induction false} BoardTextPlain(squares: Squares, rank: nat)
    requires rank < 8
    ensures NoSpace(BoardText(squares, rank)) && BoardText(squares, rank) != ""
  {
    hide RowText, NoSpace;
    RowTextPlain(squares, rank, 0, 0);
    if rank > 0 {
      BoardTextPlain(squares, rank - 1);
      SlashJoins(RowText(squares, rank, 0, 0), BoardText(squares, rank - 1));
    } else {
      assert RowText(squares, 0, 0, 0) + "" == RowText(squares, 0, 0, 0);
    }
  }

  lemma SlashJoins(row: string, rest: string)
    requires NoSpace(row) && NoSpace(rest)
    ensures NoSpace(row + ("/" + rest))
  {
  }

  // ----- the round trip -----

  lemma SixWords(a: string, b: string, c: string, d: string, e: string, f: string)
    requires NoSpace(a) && NoSpace(b) && NoSpace(c) && NoSpace(d) && NoSpace(e) && NoSpace(f)
    requires a != "" && b != "" && c != "" && d != "" && e != "" && f != ""
    ensures Words(a + " " + (b + " " + (c + " " + (d + " " + (e + " " + f))))) == [a, b, c, d, e, f]
  {
    hide Words, NoSpace;
    LastWord(f);
    WordThenSpace(e, ' ', f);
    WordThenSpace(d, ' ', e + " " + f);
    WordThenSpace(c, ' ', d + " " + (e + " " + f));
    WordThenSpace(b, ' ', c + " " + (d + " " + (e + " " + f)));
    WordThenSpace(a, ' ', b + " " + (c + " " + (d + " " + (e + " " + f))));
  }

  /** What a position keeps when written: everything but its key history. */
  function Restarted(p: Position): Position {
    WithKey(p.squares, p.side, p.rights, p.enPassant, p.halfmove, p.fullmove)
  }

  predicate Writable(p: Position) {
    && KingSquare(p.squares, White) != NO_SQUARE && KingSquare(p.squares, Black) != NO_SQUARE
    && p.enPassant <= 64 && p.halfmove < 0x1_0000 && 0 < p.fullmove < 0x1_0000
  }

  /** Reading the text of a position restores its squares, side, rights, en-passant square and clocks. */
  lemma FenRoundTrip(p: Position)
    requires Writable(p)
    ensures FromFen(ToFen(p)) == Ok(Restarted(p))
  {
    hide BoardText, RightsText, EnPassantText, NatText, Place, ParseRights, ParseEnPassant, ParseNumber, KingSquare,
         PositionKey, Words, NoSpace;
    BoardTextPlain(p.squares, 7);
    RightsReadBack(p.rights);
    EnPassantReadsBack(p.enPassant);
    NumberReadsBack(p.halfmove, HalfmoveClock);
    NumberReadsBack(p.fullmove, FullmoveNumber);
    assert NoSpace(SideText(p.side)) by {
      SideWord(p.side);
    }
    SixWords(BoardText(p.squares, 7), SideText(p.side), RightsText(p.rights), EnPassantText(p.enPassant),
             NatText(p.halfmove), NatText(p.fullmove));
    BoardReadsBack(p.squares, 7);
    assert Filled(p.squares, 7, 0) == NoMen() by {
      NothingFilled(p.squares);
    }
  }

  lemma SideWord(side: Color)
    ensures NoSpace(SideText(side))
  {
  }

  lemma NothingFilled(squares: Squares)
    ensures Filled(squares, 7, 0) == NoMen()
  {
  }

  lemma ParsedWritable(text: string)
    requires FromFen(text).Ok?
    ensures Writable(FromFen(text).value) && Restarted(FromFen(text).value) == FromFen(text).value
  {
    hide Place, ParseRights, KingSquare, PositionKey, Words, NatValue;
  }

  /** Rewriting accepted text is stable: the position read from the rewritten text is the same one. */
  lemma FenIdempotent(text: string)
    requires FromFen(text).Ok?
    ensures FromFen(ToFen(FromFen(text).value)) == FromFen(text)
  {
    hide FromFen, ToFen, KingSquare, Restarted;
    ParsedWritable(text);
    FenRoundTrip(FromFen(text).value);
  }
}
