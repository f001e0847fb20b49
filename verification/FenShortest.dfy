/** The text written for a position is a shortest one: whatever text is read as the position is no shorter. */
module FenShortest {
  import opened Positions
  import opened Text
  import opened Fen
  import opened FenGrammar

  // ----- the board -----

  /** The rows from a place on as they are written, after some empty squares before it. */
  function RestText(squares: Squares, rank: nat, file: nat, empty: nat): string
    requires rank < 8 && empty <= file <= 8
  {
    RowText(squares, rank, file, empty) + if rank == 0 then "" else "/" + BoardText(squares, rank - 1)
  }

  function Pending(empty: nat): nat {
    if empty == 0 then 0 else 1
  }

  lemma RowAtEnd(squares: Squares, rank: nat, empty: nat)
    requires rank < 8 && empty <= 8
    ensures |RowText(squares, rank, 8, empty)| == Pending(empty)
  {
  }

  lemma RowEnds(squares: Squares, rank: nat, empty: nat)
    requires rank < 8 && empty <= 8
    ensures |RestText(squares, rank, 8, empty)| ==
            Pending(empty) + if rank == 0 then 0 else 1 + |RestText(squares, rank - 1, 0, 0)|
  {
    RowAtEnd(squares, rank, empty);
    if rank > 0 {
      BoardIs(squares, rank - 1);
    }
    hide RowText, BoardText;
  }

  lemma BoardIs(squares: Squares, rank: nat)
    requires rank < 8
    ensures BoardText(squares, rank) == RestText(squares, rank, 0, 0)
  {
    hide RowText;
  }

  lemma EmptyPassed(squares: Squares, rank: nat, file: nat, empty: nat)
    requires rank < 8 && empty <= file < 8 && squares[rank * 8 + file] == Empty
    ensures RestText(squares, rank, file, empty) == RestText(squares, rank, file + 1, empty + 1)
  {
    hide BoardText;
    assert SquareAt(file, rank) == rank * 8 + file;
  }

  lemma EmptyThere(squares: Squares, rank: nat, file: nat, end: nat)
    requires rank < 8 && file < end <= 8 && NoMenOn(squares, rank, file, end)
    ensures squares[rank * 8 + file] == Empty && NoMenOn(squares, rank, file + 1, end)
  {
    assert (rank * 8 + file) / 8 == rank && (rank * 8 + file) % 8 == file;
  }

  lemma {:induction false} RunPassed(squares: Squares, rank: nat, file: nat, count: nat, empty: nat)
    requires rank < 8 && empty <= file && file + count <= 8 && NoMenOn(squares, rank, file, file + count)
    ensures RestText(squares, rank, file, empty) == RestText(squares, rank, file + count, empty + count)
    decreases count
  {
    hide RestText, NoMenOn;
    if count > 0 {
      EmptyThere(squares, rank, file, file + count);
      EmptyPassed(squares, rank, file, empty);
      RunPassed(squares, rank, file + 1, count - 1, empty + 1);
    }
  }

  lemma ManPassed(squares: Squares, rank: nat, file: nat, empty: nat)
    requires rank < 8 && empty <= file < 8 && squares[rank * 8 + file] != Empty
    ensures |RestText(squares, rank, file, empty)| == Pending(empty) + 1 + |RestText(squares, rank, file + 1, 0)|
  {
    hide BoardText;
    assert SquareAt(file, rank) == rank * 8 + file;
  }

  lemma {:induction false} RowsShort(text: string, rank: nat, file: nat, empty: nat, squares: Squares)
    requires rank < 8 && empty <= file <= 8 && RowsSay(FenGrammar.Rows(text), rank, file, squares)
    ensures |RestText(squares, rank, file, empty)| <= |text| + Pending(empty)
    decreases |text|
  {
    hide RestText, NoMenOn, ManOf;
    if text == "" {
      assert file == 8 && rank == 0;
      RowEnds(squares, rank, empty);
    } else {
      var c := text[0];
      RowsStep(text, rank, file, squares);
      hide RowsSay, FenGrammar.Rows;
      if c == '/' {
        RowEnds(squares, rank, empty);
        RowsShort(text[1..], rank - 1, 0, 0, squares);
      } else if IsCount(c) {
        RunPassed(squares, rank, file, Count(c), empty);
        RowsShort(text[1..], rank, file + Count(c), empty + Count(c), squares);
      } else {
        ManThere(c);
        ManPassed(squares, rank, file, empty);
        RowsShort(text[1..], rank, file + 1, 0, squares);
      }
    }
  }

  lemma ManThere(c: char)
    ensures ManOf(c).Some? ==> ManOf(c).value != Empty
  {
  }

  // ----- the other fields -----

  function Held(rights: Rights): nat {
    (if rights.whiteKing then 1 else 0) + (if rights.whiteQueen then 1 else 0) + (if rights.blackKing then 1 else 0)
    + if rights.blackQueen then 1 else 0
  }

  lemma {:induction false} RightsAdded(text: string, before: Rights, after: Rights)
    requires AddRights(text, before) == Ok(after)
    ensures Held(after) <= Held(before) + |text|
    decreases |text|
  {
    if text != "" {
      var next := match text[0]
        case 'K' => before.(whiteKing := true)
        case 'Q' => before.(whiteQueen := true)
        case 'k' => before.(blackKing := true)
        case _ => before.(blackQueen := true);
      RightsAdded(text[1..], next, after);
    }
  }

  lemma RightsShort(text: string, rights: Rights)
    requires ParseRights(text) == Ok(rights) && text != ""
    ensures |RightsText(rights)| <= |text|
  {
    if text != "-" {
      RightsAdded(text, Rights(false, false, false, false), rights);
    }
  }

  lemma {:induction false} NumberShort(digits: string)
    requires digits != "" && forall c :: c in digits ==> IsDigit(c)
    ensures |NatText(NatValue(digits))| <= |digits|
    decreases |digits|
  {
    var front, last := digits[..|digits| - 1], digits[|digits| - 1];
    assert last in digits && forall c :: c in front ==> c in digits;
    var n := NatValue(front);
    assert NatValue(digits) == n * 10 + DigitValue(last) && DigitValue(last) < 10;
    if |digits| > 1 {
      NumberShort(front);
      hide NatValue, DigitValue;
      Tenths(n, NatValue(digits));
    } else {
      assert front == "";
    }
  }

  lemma Tenths(n: nat, value: nat)
    requires 10 * n <= value < 10 * n + 10
    ensures |NatText(value)| <= |NatText(n)| + 1
  {
    assert value / 10 == n;
  }

  // ----- the whole text -----

  /** The size of words each followed by a blank. */
  function WordsSize(words: seq<string>): nat {
    if words == [] then 0 else |words[0]| + 1 + WordsSize(words[1..])
  }

  lemma {:induction false} SplitSize(text: string, word: string)
    ensures WordsSize(Split(text, word)) <= |word| + |text| + 1
    ensures "" !in Split(text, word)
    decreases |text|
  {
    assert [] + Split(if text == "" then "" else text[1..], "") == Split(if text == "" then "" else text[1..], "");
    assert word != "" ==> WordsSize([word]) == |word| + 1 by {
      assert [word][1..] == [];
    }
    if text == "" {
    } else if IsSpace(text[0]) {
      SplitSize(text[1..], "");
      assert word != "" ==> ([word] + Split(text[1..], ""))[1..] == Split(text[1..], "");
    } else {
      SplitSize(text[1..], word + [text[0]]);
    }
  }

  lemma SixSize(words: seq<string>)
    requires |words| == 6
    ensures WordsSize(words) == |words[0]| + |words[1]| + |words[2]| + |words[3]| + |words[4]| + |words[5]| + 6
  {
    var a, b, c, d := words[1..], words[2..], words[3..], words[4..];
    var last := words[5..];
    assert a[1..] == b && b[1..] == c && c[1..] == d && d[1..] == last && last[1..] == [];
    assert WordsSize(last) == |words[5]| + 1;
    assert WordsSize(c) == |words[3]| + 1 + WordsSize(d);
    assert WordsSize(b) == |words[2]| + 1 + WordsSize(c);
    assert WordsSize(a) == |words[1]| + 1 + WordsSize(b);
  }

  /** Whatever is read as a position is no shorter than the text written for it. */
  lemma FenTextShortest(text: string, p: Position)
    requires FromFen(text) == Ok(p)
    ensures |ToFen(p)| <= |text|
  {
    hide FromFen, ToFen, Says, Split, WordsSize;
    FenExact(text, p);
    var fields := Words(text);
    SixSaid(fields, p);
    SplitSize(text, "");
    SixSize(fields);
    FieldsShort(fields, p);
  }

  lemma FieldsShort(fields: seq<string>, p: Position)
    requires |fields| == 6 && Says(fields, p) && "" !in fields
    ensures |ToFen(p)| <= |fields[0]| + |fields[1]| + |fields[2]| + |fields[3]| + |fields[4]| + |fields[5]| + 5
  {
    RowsShort(fields[0], 7, 0, 0, p.squares);
    BoardIs(p.squares, 7);
    RightsExact(fields[2], p.rights);
    RightsShort(fields[2], p.rights);
    NumberShort(fields[4]);
    NumberShort(fields[5]);
    hide RestText, RowsSay, FenGrammar.Rows, BoardText, RightsText, RightsSay, NatText, NatValue, ParseRights, HasKing;
  }

  /** The place of a castling letter among K, Q, k, q. */
  function PlaceOf(letter: char): nat {
    if letter == 'K' then 0 else if letter == 'Q' then 1 else if letter == 'k' then 2 else 3
  }

  /** The castling letters stand in the order K, Q, k, q. */
  lemma RightsInOrder(rights: Rights, i: nat, j: nat)
    requires i < j < |RightsText(rights)|
    ensures PlaceOf(RightsText(rights)[i]) < PlaceOf(RightsText(rights)[j])
  {
  }
}
