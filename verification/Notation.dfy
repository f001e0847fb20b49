/** What the notation of a move says, character by character: the man, where it comes from if that must be told,
    the capture, the target, the promotion, and check or mate. */
module Notation {
  import opened Positions
  import opened MoveGen
  import opened MakeMove
  import opened Legality
  import opened PerftSpec
  import opened Rulebook
  import opened San
  import opened Text

  predicate EndsIn(text: string, c: char) {
    text != "" && text[|text| - 1] == c
  }

  function FileLetter(square: nat): char
    requires square < 64
  {
    ('a' as int + square % 8) as char
  }

  function RankDigit(square: nat): char
    requires square < 64
  {
    ('1' as int + square / 8) as char
  }

  lemma NameIs(square: nat)
    requires square < 64
    ensures SquareName(square) == [FileLetter(square), RankDigit(square)]
  {
  }

  // ----- check and mate -----

  lemma MarkIs(next: Position)
    ensures CheckMark(next) in {"", "+", "#"}
    ensures CheckMark(next) == "#" <==> InCheck(next.squares, next.side) && !exists reply :: IsLegal(next, reply)
    ensures CheckMark(next) == "+" <==> InCheck(next.squares, next.side) && exists reply :: IsLegal(next, reply)
  {
    hide IsLegal, InCheck;
    var replies := LegalMovesOf(next);
    if replies != [] {
      assert replies[0] in replies && IsLegal(next, replies[0]);
    }
    forall reply
      ensures IsLegal(next, reply) <==> reply in replies
    {
      LegalMovesExact(next, reply);
    }
    hide LegalMovesOf;
  }

  lemma PlainEnd(body: string, mark: string)
    requires Plain(body) && mark in {"", "+", "#"}
    ensures EndsIn(body + mark, '#') <==> mark == "#"
    ensures EndsIn(body + mark, '+') <==> mark == "+"
  {
    if body != "" {
      assert body[|body| - 1] in body;
      AlphabetPlain(body[|body| - 1]);
    }
  }

  /** The text ends in '#' exactly at mate, and in '+' exactly at a check that can be answered. */
  lemma MarksExact(p: Position, m: Move)
    requires Playable(p, m)
    ensures
      var next := Play(p, m);
      && (EndsIn(ToSan(p, m), '#') <==> InCheck(next.squares, next.side) && !exists reply :: IsLegal(next, reply))
      && (EndsIn(ToSan(p, m), '+') <==> InCheck(next.squares, next.side) && exists reply :: IsLegal(next, reply))
  {
    BodyPlain(p, m);
    MarkIs(Play(p, m));
    hide Body, Play, IsLegal, InCheck, CheckMark, Plain, Playable;
    PlainEnd(Body(p, m), CheckMark(Play(p, m)));
  }

  /** The text without its mark. */
  function Unmarked(text: string): string {
    if EndsIn(text, '#') || EndsIn(text, '+') then text[..|text| - 1] else text
  }

  lemma PlainUnmarked(body: string, mark: string)
    requires Plain(body) && mark in {"", "+", "#"}
    ensures Unmarked(body + mark) == body
  {
    PlainEnd(body, mark);
    hide Plain;
    assert (body + mark)[..|body|] == body;
  }

  lemma UnmarkedIs(p: Position, m: Move)
    requires Playable(p, m)
    ensures Unmarked(ToSan(p, m)) == Body(p, m)
  {
    BodyPlain(p, m);
    MarkIs(Play(p, m));
    hide Body, Play, IsLegal, InCheck, CheckMark, Plain, Playable, Unmarked;
    PlainUnmarked(Body(p, m), CheckMark(Play(p, m)));
  }

  // ----- castling -----

  predicate KingLeaps(p: Position, m: Move, across: int)
    requires m.from < 64
  {
    p.squares[m.from].Man? && p.squares[m.from].kind.King? && Across(m.from, m.to) == across
  }

  lemma CastleAcross(p: Position, m: Move)
    requires IsPseudoLegal(p, m)
    ensures m.flags.kingCastle <==> KingLeaps(p, m, 2)
    ensures m.flags.queenCastle <==> KingLeaps(p, m, -2)
  {
    MoveFacts(p, m);
    if p.squares[m.from].kind.King? {
      CastleRuleExact(p, m, p.side);
      PieceRuleExact(p, m, p.side);
    }
    hide InCheck, Threatened, IsPieceMove, IsCastle, PawnRule, IsPawnMove;
  }

  lemma NotCastleText(p: Position, m: Move)
    requires Playable(p, m) && !m.flags.kingCastle && !m.flags.queenCastle
    ensures Body(p, m) != "" && Body(p, m)[0] != 'O'
  {
    NameIs(m.to);
    NameIs(m.from);
    var letter := KindLetter(p.squares[m.from].kind);
    var take := if m.flags.capture then "x" else "";
    hide Disambiguation, SquareName;
    if letter != "" {
      assert Body(p, m)[0] == letter[0];
    } else if m.flags.capture {
      assert Body(p, m)[0] == SquareName(m.from)[0];
    } else {
      assert Body(p, m)[0] == SquareName(m.to)[0];
    }
  }

  /** "O-O" is written exactly when the king goes two files towards the h file, "O-O-O" two towards the a file. */
  lemma CastleTextExact(p: Position, m: Move)
    requires IsPseudoLegal(p, m) && Playable(p, m)
    ensures Unmarked(ToSan(p, m)) == "O-O" <==> KingLeaps(p, m, 2)
    ensures Unmarked(ToSan(p, m)) == "O-O-O" <==> KingLeaps(p, m, -2)
  {
    UnmarkedIs(p, m);
    CastleAcross(p, m);
    if !m.flags.kingCastle && !m.flags.queenCastle {
      NotCastleText(p, m);
    }
    hide IsPseudoLegal, ToSan, Playable, KingLeaps, Unmarked;
  }

  // ----- other moves -----

  /** Another legal move of a like man to the same square. */
  ghost predicate Alike(p: Position, m: Move, other: Move)
    requires m.from < 64
  {
    IsLegal(p, other) && other.to == m.to && other.from != m.from && p.squares[other.from] == p.squares[m.from]
  }

  function PieceLetter(kind: Kind): string {
    match kind
    case Knight => "N"
    case Bishop => "B"
    case Rook => "R"
    case Queen => "Q"
    case King => "K"
    case Pawn => ""
  }

  /** The shortest origin that tells the man apart: nothing without a like move; the file if no like man comes from
      it; else the rank if none comes from that; else both. */
  ghost predicate Distinguishes(p: Position, m: Move, origin: string)
    requires m.from < 64
  {
    && (origin == "" <==> !exists other :: Alike(p, m, other))
    && (origin != "" ==>
          var byFile := exists other :: Alike(p, m, other) && other.from % 8 == m.from % 8;
          var byRank := exists other :: Alike(p, m, other) && other.from / 8 == m.from / 8;
          origin == if !byFile then [FileLetter(m.from)] else if !byRank then [RankDigit(m.from)]
                    else [FileLetter(m.from), RankDigit(m.from)])
  }

  lemma DistinguishesExact(p: Position, m: Move)
    requires m.from < 64 && m.to < 64
    ensures Distinguishes(p, m, Disambiguation(p, m))
  {
    NameIs(m.from);
    hide IsLegal, SquareName, FileLetter, RankDigit;
    forall other
      ensures Alike(p, m, other) <==> IsRival(p, m, other)
    {
    }
    hide Alike, IsRival;
  }

  lemma PieceLetters(kind: Kind)
    ensures KindLetter(kind) == PieceLetter(kind)
  {
  }

  lemma PieceParts(p: Position, m: Move)
    requires Playable(p, m) && !p.squares[m.from].kind.Pawn? && !IsCastleFlagged(m) && !m.flags.promotion
    ensures Body(p, m) ==
            PieceLetter(p.squares[m.from].kind) + Disambiguation(p, m) + (if m.flags.capture then "x" else "") +
            [FileLetter(m.to), RankDigit(m.to)]
  {
    NameIs(m.to);
    PieceLetters(p.squares[m.from].kind);
    hide Disambiguation, SquareName, FileLetter, RankDigit, KindLetter, PieceLetter;
    var text := PieceLetter(p.squares[m.from].kind) + Disambiguation(p, m) + (if m.flags.capture then "x" else "") +
                [FileLetter(m.to), RankDigit(m.to)];
    assert text + "" == text;
  }

  lemma PieceFlags(p: Position, m: Move)
    requires IsPseudoLegal(p, m) && !p.squares[m.from].kind.Pawn? && !KingLeaps(p, m, 2) && !KingLeaps(p, m, -2)
    ensures !IsCastleFlagged(m) && !m.flags.promotion && (m.flags.capture <==> p.squares[m.to].Man?)
  {
    CastleAcross(p, m);
    CaptureFlagExact(p, m);
    MoveFacts(p, m);
    hide IsPseudoLegal, CastleRule, PawnRule, KingLeaps;
  }

  /** A man other than a pawn: its letter, the shortest origin that tells it apart, "x" at a capture, the target. */
  lemma PieceTextExact(p: Position, m: Move) returns (origin: string)
    requires IsPseudoLegal(p, m) && Playable(p, m) && !p.squares[m.from].kind.Pawn?
    requires !KingLeaps(p, m, 2) && !KingLeaps(p, m, -2)
    ensures Distinguishes(p, m, origin)
    ensures Unmarked(ToSan(p, m)) ==
            PieceLetter(p.squares[m.from].kind) + origin + (if p.squares[m.to].Man? then "x" else "") +
            [FileLetter(m.to), RankDigit(m.to)]
  {
    origin := Disambiguation(p, m);
    DistinguishesExact(p, m);
    UnmarkedIs(p, m);
    PieceFlags(p, m);
    PieceParts(p, m);
    hide *;
  }

  lemma PawnParts(p: Position, m: Move)
    requires Playable(p, m) && p.squares[m.from].kind.Pawn? && !IsCastleFlagged(m) && (m.flags.promotion <==> m.promotion.Some?)
    ensures Body(p, m) ==
            (if m.flags.capture then [FileLetter(m.from), 'x'] else "") + [FileLetter(m.to), RankDigit(m.to)] +
            (if m.promotion.Some? then "=" + PieceLetter(m.promotion.value) else "")
  {
    NameIs(m.from);
    NameIs(m.to);
    if m.promotion.Some? {
      PieceLetters(m.promotion.value);
    }
    assert KindLetter(Pawn) == "";
    hide Disambiguation, SquareName, FileLetter, RankDigit, KindLetter, PieceLetter;
    assert "" + Origin(p, m) + (if m.flags.capture then "x" else "") == if m.flags.capture then [FileLetter(m.from), 'x'] else "";
  }

  lemma PawnFlags(p: Position, m: Move)
    requires IsPseudoLegal(p, m) && p.squares[m.from].kind.Pawn?
    ensures !IsCastleFlagged(m) && (m.flags.promotion <==> m.promotion.Some?)
    ensures m.flags.capture <==> Across(m.from, m.to) != 0
  {
    MoveFacts(p, m);
    hide IsPseudoLegal, PawnGoes, Across, Up, CastleRule;
  }

  /** A pawn: at a capture its file and "x"; the target; "=" and the new man's letter if it promotes. */
  lemma PawnTextExact(p: Position, m: Move)
    requires IsPseudoLegal(p, m) && Playable(p, m) && p.squares[m.from].kind.Pawn?
    ensures Unmarked(ToSan(p, m)) ==
            (if Across(m.from, m.to) != 0 then [FileLetter(m.from), 'x'] else "") + [FileLetter(m.to), RankDigit(m.to)] +
            (if m.promotion.Some? then "=" + PieceLetter(m.promotion.value) else "")
  {
    UnmarkedIs(p, m);
    PawnFlags(p, m);
    PawnParts(p, m);
    hide *;
  }

  // ----- what reading overlooks -----

  lemma {:induction false} MarksTrimmed(body: string, marks: string)
    requires Plain(body) && forall c :: c in marks ==> c in "!?+#"
    ensures TrimMarks(body + marks) == body
    decreases |marks|
  {
    if marks == "" {
      assert body + marks == body;
      if body != "" {
        assert body[|body| - 1] in body;
        AlphabetPlain(body[|body| - 1]);
      }
    } else {
      var n := |marks| - 1;
      assert marks[n] in marks;
      assert (body + marks)[..|body + marks| - 1] == body + marks[..n];
      MarksTrimmed(body, marks[..n]);
    }
  }

  lemma {:induction false} MarkedNormal(body: string, marks: string)
    requires Plain(body) && forall c :: c in marks ==> c in "!?+#"
    ensures Normalize(body + marks) == body
  {
    forall c | c in body + marks
      ensures !IsSpace(c) && c != '0'
    {
      if c in body {
        AlphabetPlain(c);
      }
    }
    SqueezePlain(body + marks);
    MarksTrimmed(body, marks);
    forall c | c in body
      ensures c != '.'
    {
      AlphabetPlain(c);
    }
    NoNoteWithoutStop(body, 0);
  }

  /** A legal move is read whatever marks of check and comment follow its notation. */
  lemma AnnotatedReads(p: Position, m: Move, marks: string)
    requires IsLegal(p, m) && forall c :: c in marks ==> c in "!?+#"
    ensures ParseSan(p, Unmarked(ToSan(p, m)) + marks) == Some(m)
  {
    UnmarkedIs(p, m);
    BodyPlain(p, m);
    NormalizedSan(p, m);
    hide Body, Plain, Normalize, ToSan, Unmarked, IsPseudoLegal, InCheck, ParseSan;
    MarkedNormal(Body(p, m), marks);
    ParseSanExact(p, Unmarked(ToSan(p, m)) + marks, m);
  }

  lemma {:induction false} SqueezeConcat(a: string, b: string)
    ensures Squeeze(a + b) == Squeeze(a) + Squeeze(b)
    decreases |b|
  {
    if b == "" {
      assert a + b == a;
    } else {
      assert (a + b)[..|a + b| - 1] == a + b[..|b| - 1];
      SqueezeConcat(a, b[..|b| - 1]);
    }
  }

  lemma {:induction false} NoteFound(body: string, start: nat)
    requires Plain(body) && start <= |body|
    ensures FindEnPassantNote(body + "e.p.", start) == |body|
    decreases |body| - start
  {
    var text := body + "e.p.";
    if start == |body| {
      assert text[start..start + 4] == "e.p.";
    } else {
      if start + 1 < |body| {
        assert body[start + 1] in body;
        AlphabetPlain(body[start + 1]);
      }
      assert text[start..start + 4][1] == text[start + 1] != '.';
      NoteFound(body, start + 1);
    }
  }

  lemma {:induction false} BlankSqueezed(note: string)
    requires forall c :: c in note ==> !IsSpace(c) && c != '0'
    ensures Squeeze(" " + note) == note
  {
    OneSqueezed(' ');
    SqueezeConcat(" ", note);
    SqueezePlain(note);
    hide Squeeze;
    assert "" + note == note;
  }

  lemma UnmarkedKept(text: string)
    requires text != "" ==> !IsMark(text[|text| - 1])
    ensures TrimMarks(text) == text
  {
  }

  lemma NoteCharacters()
    ensures forall c :: c in "e.p." ==> !IsSpace(c) && c != '0'
    ensures " e.p." == " " + "e.p."
  {
  }

  lemma NotedNormal(body: string)
    requires Plain(body)
    ensures Normalize(body + " e.p.") == body
  {
    forall c | c in body
      ensures !IsSpace(c) && c != '0'
    {
      AlphabetPlain(c);
    }
    NoteCharacters();
    SqueezePlain(body);
    BlankSqueezed("e.p.");
    SqueezeConcat(body, " e.p.");
    var text := body + "e.p.";
    assert text[|text| - 1] == '.' && text[..|body|] == body;
    UnmarkedKept(text);
    NoteFound(body, 0);
    hide Plain, Squeeze, TrimMarks, FindEnPassantNote;
  }

  /** And with the note that a pawn was taken in passing. */
  lemma NotedReads(p: Position, m: Move)
    requires IsLegal(p, m)
    ensures ParseSan(p, Unmarked(ToSan(p, m)) + " e.p.") == Some(m)
  {
    UnmarkedIs(p, m);
    BodyPlain(p, m);
    NormalizedSan(p, m);
    hide Body, Plain, Normalize, ToSan, Unmarked, IsPseudoLegal, InCheck, ParseSan;
    NotedNormal(Body(p, m));
    ParseSanExact(p, Unmarked(ToSan(p, m)) + " e.p.", m);
  }

  lemma {:induction false} OneSqueezed(c: char)
    ensures Squeeze([c]) == if IsSpace(c) then "" else if c == '0' then "O" else [c]
  {
    var text := [c];
    assert text[|text| - 1] == c && text[..|text| - 1] == "";
    assert Squeeze("") == "";
  }

  lemma {:induction false} ZeroSqueezed(text: string)
    ensures Squeeze(text + "-0") == Squeeze(text) + "-O" && Squeeze("0") == "O"
  {
    SqueezeConcat(text, "-0");
    SqueezeConcat("-", "0");
    OneSqueezed('-');
    OneSqueezed('0');
    hide Squeeze;
    assert "-" + "0" == "-0" && "-" + "O" == "-O";
  }

  lemma OsKept(text: string)
    requires text == "O-O" || text == "O-O-O"
    ensures TrimMarks(text) == text && '.' !in text
  {
  }

  /** Castling may be written with zeros. */
  lemma ZerosRead()
    ensures Normalize("0-0") == "O-O" && Normalize("0-0-0") == "O-O-O"
  {
    hide Squeeze, TrimMarks;
    ZeroSqueezed("0");
    ZeroSqueezed("0-0");
    assert "0" + "-0" == "0-0" && "0-0" + "-0" == "0-0-0" && "O" + "-O" == "O-O" && "O-O" + "-O" == "O-O-O";
    OsKept("O-O");
    OsKept("O-O-O");
    NoNoteWithoutStop("O-O", 0);
    NoNoteWithoutStop("O-O-O", 0);
  }
}
