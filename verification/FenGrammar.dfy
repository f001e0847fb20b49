/** Which texts are read as which positions: Forsyth-Edwards notation told by its rows, letters and numbers. */
module FenGrammar {
  import opened Positions
  import opened Text
  import opened MakeMove
  import opened Fen

  /** The man a letter stands for: capitals for White. */
  function ManOf(c: char): Option<Piece> {
    match c
    case 'P' => Some(Man(White, Pawn))
    case 'N' => Some(Man(White, Knight))
    case 'B' => Some(Man(White, Bishop))
    case 'R' => Some(Man(White, Rook))
    case 'Q' => Some(Man(White, Queen))
    case 'K' => Some(Man(White, King))
    case 'p' => Some(Man(Black, Pawn))
    case 'n' => Some(Man(Black, Knight))
    case 'b' => Some(Man(Black, Bishop))
    case 'r' => Some(Man(Black, Rook))
    case 'q' => Some(Man(Black, Queen))
    case 'k' => Some(Man(Black, King))
    case _ => None
  }

  lemma ManOfExact(c: char)
    requires !IsDigit(c)
    ensures PieceFromSymbol(c) == if ManOf(c).Some? then ManOf(c).value else Empty
    ensures ManOf(c).Some? ==> ManOf(c).value != Empty
  {
  }

  predicate IsCount(c: char) {
    '1' <= c <= '8'
  }

  function Count(c: char): nat
    requires IsCount(c)
  {
    c as int - '0' as int
  }

  predicate NoMenOn(squares: Squares, rank: nat, file: nat, end: nat) {
    forall s :: 0 <= s < 64 && s / 8 == rank && file <= s % 8 < end ==> squares[s] == Empty
  }

  /** A row from a file on: letters for men, digits for so many empty squares, eight squares in all. */
  predicate RowSays(row: string, rank: nat, file: nat, squares: Squares)
    requires rank < 8
  {
    if row == "" then file == 8
    else if IsCount(row[0]) then
      && file + Count(row[0]) <= 8 && NoMenOn(squares, rank, file, file + Count(row[0]))
      && RowSays(row[1..], rank, file + Count(row[0]), squares)
    else
      file < 8 && Some(squares[rank * 8 + file]) == ManOf(row[0]) && RowSays(row[1..], rank, file + 1, squares)
  }

  /** The rows between the slashes. */
  function Rows(text: string): (rows: seq<string>)
    ensures rows != []
  {
    if text == "" then [""]
    else
      var rows := Rows(text[1..]);
      if text[0] == '/' then [""] + rows else [[text[0]] + rows[0]] + rows[1..]
  }

  /** Rows from a rank down to the first one, the first of them from a file on. */
  predicate RowsSay(rows: seq<string>, rank: nat, file: nat, squares: Squares)
    requires rank < 8
  {
    && rows != [] && RowSays(rows[0], rank, file, squares)
    && if rank == 0 then |rows| == 1 else RowsSay(rows[1..], rank - 1, 0, squares)
  }

  /** Squares before a place in reading order: higher ranks, and lower files of its rank. */
  predicate Read(square: nat, rank: nat, file: nat) {
    square / 8 > rank || (square / 8 == rank && square % 8 < file)
  }

  predicate SameRead(a: Squares, b: Squares, rank: nat, file: nat) {
    forall s :: 0 <= s < 64 && Read(s, rank, file) ==> a[s] == b[s]
  }

  predicate RestEmpty(a: Squares, rank: nat, file: nat) {
    forall s :: 0 <= s < 64 && !Read(s, rank, file) ==> a[s] == Empty
  }

  lemma RowsStep(text: string, rank: nat, file: nat, squares: Squares)
    requires text != "" && rank < 8
    ensures
      var c, rest := text[0], Rows(text[1..]);
      RowsSay(Rows(text), rank, file, squares) <==>
        if c == '/' then file == 8 && rank > 0 && RowsSay(rest, rank - 1, 0, squares)
        else if IsCount(c) then
          file + Count(c) <= 8 && NoMenOn(squares, rank, file, file + Count(c)) && RowsSay(rest, rank, file + Count(c), squares)
        else file < 8 && Some(squares[rank * 8 + file]) == ManOf(c) && RowsSay(rest, rank, file + 1, squares)
  {
    var c, rest := text[0], Rows(text[1..]);
    hide NoMenOn, ManOf;
    if c == '/' {
      assert ([""] + rest)[1..] == rest;
    } else {
      var first := [c] + rest[0];
      assert first[1..] == rest[0] && ([first] + rest[1..])[1..] == rest[1..];
    }
  }

  lemma SkipKeeps(placed: Squares, squares: Squares, rank: nat, file: nat, count: nat)
    requires rank < 8 && file + count <= 8 && RestEmpty(placed, rank, file)
    ensures RestEmpty(placed, rank, file + count)
    ensures SameRead(placed, squares, rank, file + count) <==>
            SameRead(placed, squares, rank, file) && NoMenOn(squares, rank, file, file + count)
  {
  }

  lemma ReadNext(s: nat, rank: nat, file: nat)
    requires file < 8
    ensures Read(s, rank, file + 1) <==> Read(s, rank, file) || s == rank * 8 + file
    ensures !Read(rank * 8 + file, rank, file)
  {
  }

  lemma PlaceKeeps(placed: Squares, squares: Squares, rank: nat, file: nat, man: Piece)
    requires rank < 8 && file < 8 && RestEmpty(placed, rank, file)
    ensures
      var next := placed[rank * 8 + file := man];
      && RestEmpty(next, rank, file + 1)
      && (SameRead(next, squares, rank, file + 1) <==> SameRead(placed, squares, rank, file) && squares[rank * 8 + file] == man)
  {
    forall s | 0 <= s < 64
      ensures Read(s, rank, file + 1) <==> Read(s, rank, file) || s == rank * 8 + file
    {
      ReadNext(s, rank, file);
    }
    ReadNext(rank * 8 + file, rank, file);
    hide Read;
  }

  lemma NextRow(placed: Squares, squares: Squares, rank: nat)
    requires 0 < rank < 8 && RestEmpty(placed, rank, 8)
    ensures RestEmpty(placed, rank - 1, 0) && (SameRead(placed, squares, rank - 1, 0) <==> SameRead(placed, squares, rank, 8))
  {
    assert forall s :: 0 <= s < 64 ==> (Read(s, rank - 1, 0) <==> Read(s, rank, 8));
    hide Read;
  }

  lemma AllRead(placed: Squares, squares: Squares)
    requires SameRead(placed, squares, 0, 8)
    ensures placed == squares
  {
    assert forall s :: 0 <= s < 64 ==> Read(s, 0, 8);
    assert forall s :: 0 <= s < 64 ==> placed[s] == squares[s];
  }

  lemma SameIfEqual(squares: Squares, rank: nat, file: nat)
    ensures SameRead(squares, squares, rank, file)
  {
  }

  lemma PlaceEnds(rank: nat, file: nat, placed: Squares, squares: Squares)
    requires rank < 8 && file <= 8
    ensures Place("", rank, file, placed) == Ok(squares) <==>
            RowsSay(Rows(""), rank, file, squares) && SameRead(placed, squares, rank, file)
  {
    assert Rows("") == [""] && [""][1..] == [];
    if rank == 0 && file == 8 && SameRead(placed, squares, 0, 8) {
      AllRead(placed, squares);
    }
    SameIfEqual(squares, 0, 8);
    hide SameRead;
  }

  /** What is read of the rows from a place on: the squares told there, beside those read before. */
  lemma {:induction false} PlaceExact(text: string, rank: nat, file: nat, placed: Squares, squares: Squares)
    requires rank < 8 && file <= 8 && RestEmpty(placed, rank, file)
    ensures Place(text, rank, file, placed) == Ok(squares) <==>
            RowsSay(Rows(text), rank, file, squares) && SameRead(placed, squares, rank, file)
    decreases |text|
  {
    hide SameRead, RestEmpty, NoMenOn, ManOf, PieceFromSymbol;
    if text == "" {
      PlaceEnds(rank, file, placed, squares);
    } else {
      var c := text[0];
      RowsStep(text, rank, file, squares);
      hide RowsSay, Rows;
      if c == '/' {
        if file == 8 && rank > 0 {
          NextRow(placed, squares, rank);
          PlaceExact(text[1..], rank - 1, 0, placed, squares);
        }
      } else if IsDigit(c) {
        DigitPlaced(text, rank, file, placed, squares);
        if IsCount(c) && file + Count(c) <= 8 {
          SkipKeeps(placed, squares, rank, file, Count(c));
          PlaceExact(text[1..], rank, file + Count(c), placed, squares);
        }
      } else {
        ManOfExact(c);
        if ManOf(c).Some? && file < 8 {
          PlaceKeeps(placed, squares, rank, file, ManOf(c).value);
          PlaceExact(text[1..], rank, file + 1, placed[rank * 8 + file := ManOf(c).value], squares);
        }
      }
    }
  }

  lemma DigitPlaced(text: string, rank: nat, file: nat, placed: Squares, squares: Squares)
    requires text != "" && IsDigit(text[0]) && rank < 8 && file <= 8
    ensures ManOf(text[0]).None?
    ensures
      Place(text, rank, file, placed) ==
        if IsCount(text[0]) && file + Count(text[0]) <= 8 then Place(text[1..], rank, file + Count(text[0]), placed) else Err(EmptyCount)
  {
  }

  // ----- the other fields -----

  predicate RightsSay(text: string, rights: Rights) {
    if text == "-" then !rights.whiteKing && !rights.whiteQueen && !rights.blackKing && !rights.blackQueen
    else
      && (forall c :: c in text ==> c == 'K' || c == 'Q' || c == 'k' || c == 'q')
      && (rights.whiteKing <==> 'K' in text) && (rights.whiteQueen <==> 'Q' in text)
      && (rights.blackKing <==> 'k' in text) && (rights.blackQueen <==> 'q' in text)
  }

  predicate Adds(text: string, before: Rights, after: Rights) {
    && (forall c :: c in text ==> c == 'K' || c == 'Q' || c == 'k' || c == 'q')
    && (after.whiteKing <==> before.whiteKing || 'K' in text) && (after.whiteQueen <==> before.whiteQueen || 'Q' in text)
    && (after.blackKing <==> before.blackKing || 'k' in text) && (after.blackQueen <==> before.blackQueen || 'q' in text)
  }

  lemma {:induction false} AddRightsExact(text: string, before: Rights, after: Rights)
    ensures AddRights(text, before) == Ok(after) <==> Adds(text, before, after)
  {
    if text == "" {
      assert after == Rights(after.whiteKing, after.whiteQueen, after.blackKing, after.blackQueen);
    } else {
      var c := text[0];
      assert c in text && forall x :: x in text <==> x == c || x in text[1..];
      if c == 'K' || c == 'Q' || c == 'k' || c == 'q' {
        var next := if c == 'K' then before.(whiteKing := true) else if c == 'Q' then before.(whiteQueen := true)
                    else if c == 'k' then before.(blackKing := true) else before.(blackQueen := true);
        AddRightsExact(text[1..], next, after);
      }
    }
  }

  lemma RightsExact(text: string, rights: Rights)
    ensures ParseRights(text) == Ok(rights) <==> RightsSay(text, rights)
  {
    AddRightsExact(text, Rights(false, false, false, false), rights);
    hide AddRights;
    assert rights == Rights(rights.whiteKing, rights.whiteQueen, rights.blackKing, rights.blackQueen);
  }

  predicate SideSays(text: string, side: Color) {
    (text == "w" && side == White) || (text == "b" && side == Black)
  }

  predicate EnPassantSays(text: string, square: nat) {
    if text == "-" then square == 64
    else
      && square < 64 && |text| == 2 && text[0] as int == 'a' as int + square % 8 && text[1] as int == '1' as int + square / 8
  }

  predicate NumberSays(text: string, n: nat) {
    text != "" && (forall c :: c in text ==> '0' <= c <= '9') && NatValue(text) == n && n < 65536
  }

  lemma SideExact(text: string, side: Color)
    ensures ParseSide(text) == Ok(side) <==> SideSays(text, side)
  {
  }

  lemma EnPassantExact(text: string, square: nat)
    ensures ParseEnPassant(text) == Ok(square) <==> EnPassantSays(text, square)
  {
    if text != "-" && |text| == 2 && 'a' <= text[0] <= 'h' && '1' <= text[1] <= '8' {
      var file, rank := text[0] as int - 'a' as int, text[1] as int - '1' as int;
      assert (rank * 8 + file) % 8 == file && (rank * 8 + file) / 8 == rank;
    }
  }

  lemma NumberExact(text: string, n: nat, fault: Fault)
    ensures ParseNumber(text, fault) == Ok(n) <==> NumberSays(text, n)
  {
    hide NatValue;
  }

  // ----- the whole text -----

  predicate HasKing(squares: Squares, color: Color) {
    exists s :: 0 <= s < 64 && squares[s] == Man(color, King)
  }

  /** The six fields tell the position, which has a king of each colour and a move number from one. */
  predicate Says(fields: seq<string>, p: Position) {
    && |fields| == 6 && RowsSay(Rows(fields[0]), 7, 0, p.squares) && SideSays(fields[1], p.side) && RightsSay(fields[2], p.rights)
    && EnPassantSays(fields[3], p.enPassant) && NumberSays(fields[4], p.halfmove) && NumberSays(fields[5], p.fullmove)
    && p.fullmove > 0 && HasKing(p.squares, White) && HasKing(p.squares, Black)
  }

  lemma KingExact(squares: Squares, color: Color)
    ensures KingSquare(squares, color) == NO_SQUARE <==> !HasKing(squares, color)
  {
  }

  lemma NothingRead(squares: Squares)
    ensures RestEmpty(NoMen(), 7, 0) && SameRead(NoMen(), squares, 7, 0)
  {
  }

  lemma FieldsRead(fields: seq<string>, p: Position)
    requires |fields| == 6
    ensures Says(fields, p) <==>
            && Place(fields[0], 7, 0, NoMen()) == Ok(p.squares) && ParseSide(fields[1]) == Ok(p.side) && ParseRights(fields[2]) == Ok(p.rights)
            && ParseEnPassant(fields[3]) == Ok(p.enPassant) && ParseNumber(fields[4], HalfmoveClock) == Ok(p.halfmove)
            && ParseNumber(fields[5], FullmoveNumber) == Ok(p.fullmove) && p.fullmove > 0
            && KingSquare(p.squares, White) != NO_SQUARE && KingSquare(p.squares, Black) != NO_SQUARE
  {
    NothingRead(p.squares);
    PlaceExact(fields[0], 7, 0, NoMen(), p.squares);
    RightsExact(fields[2], p.rights);
    SideExact(fields[1], p.side);
    EnPassantExact(fields[3], p.enPassant);
    NumberExact(fields[4], p.halfmove, HalfmoveClock);
    NumberExact(fields[5], p.fullmove, FullmoveNumber);
    KingExact(p.squares, White);
    KingExact(p.squares, Black);
    hide Place, RowsSay, RightsSay, SideSays, EnPassantSays, NumberSays, HasKing, ParseSide, ParseRights, ParseEnPassant, ParseNumber,
         KingSquare, NoMen;
  }

  /** A text is read as a position exactly if its words tell it; the history holds the key of the position alone. */
  lemma FenExact(text: string, p: Position)
    ensures FromFen(text) == Ok(p) <==>
            && Says(Words(text), p) && p.hash == PositionKey(p.squares, p.side, p.rights, p.enPassant) && p.history == [p.hash]
  {
    var fields := Words(text);
    hide Words, Says, Place, ParseSide, ParseRights, ParseEnPassant, ParseNumber, KingSquare, NoMen, PositionKey;
    if |fields| == 6 {
      FieldsRead(fields, p);
      assert p == Position(p.squares, p.side, p.rights, p.enPassant, p.halfmove, p.fullmove, p.hash, p.history);
    } else {
      SixSaid(fields, p);
    }
  }

  lemma SixSaid(fields: seq<string>, p: Position)
    ensures Says(fields, p) ==> |fields| == 6
  {
  }
}
