/** Standard Algebraic Notation: section 8.2.3 of the PGN Specification and Implementation Guide, as
    the program writes and reads it. */
module San {
  import opened Positions
  import opened MoveGen
  import opened MakeMove
  import opened Legality
  import opened PerftSpec
  import opened Text

  const FILE_NAMES := "abcdefgh"
  const RANK_NAMES := "12345678"

  function SquareName(square: nat): (name: string)
    requires square < 64
    ensures |name| == 2 && name[0] == FILE_NAMES[File(square)] && name[1] == RANK_NAMES[Rank(square)]
  {
    [FILE_NAMES[File(square)], RANK_NAMES[Rank(square)]]
  }

  function KindLetter(kind: Kind): string {
    match kind
    case Pawn => ""
    case Knight => "N"
    case Bishop => "B"
    case Rook => "R"
    case Queen => "Q"
    case King => "K"
  }

  // ----- writing -----

  /** Another legal move of a like man, from elsewhere, to the same square. */
  ghost predicate IsRival(p: Position, m: Move, rival: Move)
    requires m.from < 64
  {
    IsLegal(p, rival) && rival.from != m.from && rival.to == m.to && p.squares[rival.from] == p.squares[m.from]
  }

  /** Section 8.2.3.4: nothing, else the file, else the rank, else the whole square. */
  ghost function Disambiguation(p: Position, m: Move): string
    requires m.from < 64
  {
    if !exists rival :: IsRival(p, m, rival) then ""
    else if !exists rival :: IsRival(p, m, rival) && File(rival.from) == File(m.from) then [SquareName(m.from)[0]]
    else if !exists rival :: IsRival(p, m, rival) && Rank(rival.from) == Rank(m.from) then [SquareName(m.from)[1]]
    else SquareName(m.from)
  }

  ghost function Origin(p: Position, m: Move): string
    requires m.from < 64 && p.squares[m.from].Man?
  {
    if !p.squares[m.from].kind.Pawn? then Disambiguation(p, m)
    else if m.flags.capture then [SquareName(m.from)[0]]
    else ""
  }

  function PromotionText(m: Move): string {
    if m.flags.promotion && m.promotion.Some? then "=" + KindLetter(m.promotion.value) else ""
  }

  /** The notation without its check mark. */
  ghost function Body(p: Position, m: Move): string
    requires m.from < 64 && m.to < 64 && p.squares[m.from].Man?
  {
    if m.flags.kingCastle then "O-O"
    else if m.flags.queenCastle then "O-O-O"
    else KindLetter(p.squares[m.from].kind) + Origin(p, m) + (if m.flags.capture then "x" else "") +
         SquareName(m.to) + PromotionText(m)
  }

  ghost function CheckMark(next: Position): string {
    if !InCheck(next.squares, next.side) then ""
    else if LegalMovesOf(next) == [] then "#"
    else "+"
  }

  ghost function ToSan(p: Position, m: Move): string
    requires Playable(p, m)
  {
    Body(p, m) + CheckMark(Play(p, m))
  }

  // ----- reading -----

  /** Drops white space and reads a zero as the letter O. */
  function Squeeze(text: string): string {
    if text == [] then []
    else
      var last := text[|text| - 1];
      Squeeze(text[..|text| - 1]) + if IsSpace(last) then "" else if last == '0' then "O" else [last]
  }

  predicate IsMark(c: char) {
    c == '!' || c == '?' || c == '+' || c == '#'
  }

  function TrimMarks(text: string): string {
    if text != [] && IsMark(text[|text| - 1]) then TrimMarks(text[..|text| - 1]) else text
  }

  /** The first place at or after `start` where "e.p." occurs, or the length. */
  function FindEnPassantNote(text: string, start: nat): (index: nat)
    requires start <= |text|
    ensures start <= index <= |text|
    ensures index < |text| ==> index + 4 <= |text| && text[index..index + 4] == "e.p."
    decreases |text| - start
  {
    if start + 4 > |text| then |text|
    else if text[start..start + 4] == "e.p." then start
    else FindEnPassantNote(text, start + 1)
  }

  function Normalize(text: string): string {
    var trimmed := TrimMarks(Squeeze(text));
    trimmed[..FindEnPassantNote(trimmed, 0)]
  }

  /** The first legal move whose normalised notation is the normalised text. */
  ghost function FirstMatch(p: Position, moves: seq<Move>, expected: string): Option<Move>
    requires AllLegal(p, moves)
  {
    if moves == [] then None
    else
      assert moves[0] in moves;
      if Normalize(ToSan(p, moves[0])) == expected then Some(moves[0])
      else FirstMatch(p, moves[1..], expected)
  }

  ghost function ParseSan(p: Position, text: string): Option<Move> {
    FirstMatch(p, LegalMovesOf(p), Normalize(text))
  }

  // ----- normalising a written move drops exactly the check mark -----

  const ALPHABET := "abcdefgh12345678NBRQKxO-="

  /** Text over the characters of notation without its check mark. */
  predicate Plain(text: string) {
    forall c :: c in text ==> c in ALPHABET
  }

  lemma AlphabetPlain(c: char)
    requires c in ALPHABET
    ensures !IsSpace(c) && c != '0' && c != '.' && !IsMark(c)
  {
  }

  lemma {:induction false} SqueezePlain(text: string)
    requires forall c :: c in text ==> !IsSpace(c) && c != '0'
    ensures Squeeze(text) == text
  {
    if text != [] {
      SqueezePlain(text[..|text| - 1]);
    }
  }

  lemma {:induction false} NoNoteWithoutStop(text: string, start: nat)
    requires start <= |text| && '.' !in text
    ensures FindEnPassantNote(text, start) == |text|
    decreases |text| - start
  {
    if start + 4 <= |text| {
      assert text[start..start + 4][1] == text[start + 1];
      NoNoteWithoutStop(text, start + 1);
    }
  }

  lemma NormalizeMarked(body: string, mark: string)
    requires Plain(body) && mark in {"", "+", "#"}
    ensures Normalize(body + mark) == body
  {
    forall c | c in body
      ensures !IsSpace(c) && c != '0' && c != '.' && !IsMark(c)
    {
      AlphabetPlain(c);
    }
    hide Plain;
    SqueezePlain(body + mark);
    assert TrimMarks(body) == body;
    if mark != "" {
      assert (body + mark)[..|body|] == body;
    } else {
      assert body + mark == body;
    }
    NoNoteWithoutStop(body, 0);
  }

  lemma NamesPlain(square: nat)
    requires square < 64
    ensures Plain(SquareName(square)) && Plain([SquareName(square)[0]]) && Plain([SquareName(square)[1]])
    ensures SquareName(square)[0] in FILE_NAMES && SquareName(square)[1] in RANK_NAMES
  {
  }

  lemma LettersPlain(kind: Kind)
    ensures Plain(KindLetter(kind)) && Plain("=" + KindLetter(kind))
  {
  }

  lemma PlainConcat(a: string, b: string)
    requires Plain(a) && Plain(b)
    ensures Plain(a + b)
  {
  }

  lemma OriginPlain(p: Position, m: Move)
    requires m.from < 64 && p.squares[m.from].Man?
    ensures Plain(Origin(p, m))
  {
    assert Plain("");
    hide IsRival, SquareName, Plain;
    NamesPlain(m.from);
  }

  lemma BodyPlain(p: Position, m: Move)
    requires m.from < 64 && m.to < 64 && p.squares[m.from].Man?
    ensures Plain(Body(p, m))
  {
    assert Plain("O-O") && Plain("O-O-O") && Plain("x") && Plain("");
    hide SquareName, KindLetter, Plain, Origin;
    OriginPlain(p, m);
    NamesPlain(m.to);
    LettersPlain(p.squares[m.from].kind);
    if m.promotion.Some? {
      LettersPlain(m.promotion.value);
    }
    var letter, origin := KindLetter(p.squares[m.from].kind), Origin(p, m);
    var take := if m.flags.capture then "x" else "";
    PlainConcat(letter, origin);
    PlainConcat(letter + origin, take);
    PlainConcat(letter + origin + take, SquareName(m.to));
    PlainConcat(letter + origin + take + SquareName(m.to), PromotionText(m));
  }

  lemma NormalizedSan(p: Position, m: Move)
    requires Playable(p, m)
    ensures Normalize(ToSan(p, m)) == Body(p, m)
  {
    BodyPlain(p, m);
    hide Body, InCheck, LegalMovesOf, Normalize, Playable, Play;
    NormalizeMarked(Body(p, m), CheckMark(Play(p, m)));
  }

  // ----- the body determines the move -----

  lemma SquareNameInjective(a: nat, b: nat)
    requires a < 64 && b < 64 && SquareName(a) == SquareName(b)
    ensures a == b
  {
    CharacterIndex(FILE_NAMES, File(a), File(b));
    CharacterIndex(RANK_NAMES, Rank(a), Rank(b));
  }

  lemma CharacterIndex(names: string, i: nat, j: nat)
    requires (names == FILE_NAMES || names == RANK_NAMES) && i < 8 && j < 8 && names[i] == names[j]
    ensures i == j
  {
  }

  lemma LetterInjective(a: Kind, b: Kind)
    requires KindLetter(a) == KindLetter(b)
    ensures a == b
  {
  }

  predicate IsCastleFlagged(m: Move) {
    m.flags.kingCastle || m.flags.queenCastle
  }

  /** The kind of man a notation's first character announces; none for castling. */
  function Announced(first: char): Option<Kind> {
    match first
    case 'O' => None
    case 'N' => Some(Knight)
    case 'B' => Some(Bishop)
    case 'R' => Some(Rook)
    case 'Q' => Some(Queen)
    case 'K' => Some(King)
    case _ => Some(Pawn)
  }

  lemma FilesAnnouncePawns(file: nat)
    requires file < 8
    ensures Announced(FILE_NAMES[file]) == Some(Pawn) && FILE_NAMES[file] >= 'A'
  {
  }

  /** Only pawns promote, to the square's end rank; only kings castle. */
  lemma PromotionFlags(p: Position, m: Move)
    requires IsPseudoLegal(p, m)
    ensures m.flags.promotion ==> p.squares[m.from].kind.Pawn? && m.promotion.Some? && m.promotion.value in PROMOTIONS
    ensures !m.flags.promotion ==> m.promotion == None
    ensures IsCastleFlagged(m) ==> p.squares[m.from].kind.King?
  {
    hide InCheck, Attacked, CanCastleKing, CanCastleQueen, Reaches;
  }

  /** A piece move is its letter, its disambiguation, an optional x and the target. */
  lemma PieceBody(p: Position, m: Move)
    requires IsPseudoLegal(p, m) && !p.squares[m.from].kind.Pawn? && !IsCastleFlagged(m)
    ensures
      var origin := Disambiguation(p, m);
      var take := if m.flags.capture then "x" else "";
      var body := Body(p, m);
      && body == KindLetter(p.squares[m.from].kind) + origin + take + SquareName(m.to)
      && |body| == 3 + |origin| + |take|
      && body[|body| - 2..] == SquareName(m.to)
      && body[1..1 + |origin|] == origin
      && m.flags == PlainFlags(p.squares[m.to]) && m.promotion == None
  {
    PromotionFlags(p, m);
    assert IsPieceMove(p, m, p.side);
    hide IsPseudoLegal, Disambiguation, SquareName, PlainFlags;
    var take := if m.flags.capture then "x" else "";
    var letter := KindLetter(p.squares[m.from].kind);
    FourParts(letter, Disambiguation(p, m), take, SquareName(m.to));
  }

  lemma FourParts(letter: string, origin: string, take: string, target: string)
    requires |letter| == 1 && |target| == 2
    ensures
      var body := letter + origin + take + target;
      && body + "" == body && |body| == 3 + |origin| + |take|
      && body[|body| - 2..] == target && body[1..1 + |origin|] == origin
  {
  }

  lemma NamesApart(i: nat, j: nat)
    requires i < 8 && j < 8
    ensures FILE_NAMES[i] != RANK_NAMES[j]
  {
  }

  /** The disambiguations of two rivals are different texts. */
  lemma RivalsDiffer(p: Position, m: Move, n: Move)
    requires IsLegal(p, m) && IsLegal(p, n) && m.to == n.to && p.squares[m.from] == p.squares[n.from] && m.from != n.from
    ensures Disambiguation(p, m) != Disambiguation(p, n)
  {
    assert IsRival(p, m, n) && IsRival(p, n, m);
    DisambiguationTells(p, m, n);
    DisambiguationTells(p, n, m);
    hide IsLegal, IsRival, Disambiguation, SquareName, File, Rank;
    NamesApart(File(m.from), Rank(n.from));
    NamesApart(File(n.from), Rank(m.from));
    if SquareName(m.from) == SquareName(n.from) {
      SquareNameInjective(m.from, n.from);
    }
    if FILE_NAMES[File(m.from)] == FILE_NAMES[File(n.from)] {
      CharacterIndex(FILE_NAMES, File(m.from), File(n.from));
    }
    if RANK_NAMES[Rank(m.from)] == RANK_NAMES[Rank(n.from)] {
      CharacterIndex(RANK_NAMES, Rank(m.from), Rank(n.from));
    }
  }

  /** A disambiguation is one or two characters, and no rival shares what it names. */
  lemma DisambiguationTells(p: Position, m: Move, rival: Move)
    requires m.from < 64 && rival.from < 64 && IsRival(p, m, rival)
    ensures
      var text := Disambiguation(p, m);
      || (text == [FILE_NAMES[File(m.from)]] && File(rival.from) != File(m.from))
      || (text == [RANK_NAMES[Rank(m.from)]] && Rank(rival.from) != Rank(m.from))
      || text == SquareName(m.from)
  {
    hide IsRival;
  }

  lemma PieceBodyInjective(p: Position, m: Move, n: Move)
    requires IsLegal(p, m) && IsLegal(p, n) && !IsCastleFlagged(m) && !IsCastleFlagged(n)
    requires !p.squares[m.from].kind.Pawn? && p.squares[m.from].kind == p.squares[n.from].kind
    requires Body(p, m) == Body(p, n)
    ensures m == n
  {
    PieceBody(p, m);
    PieceBody(p, n);
    assert p.squares[m.from] == p.squares[n.from];
    hide IsLegal, Body, Disambiguation, SquareName;
    SquareNameInjective(m.to, n.to);
    if m.from != n.from {
      RivalsDiffer(p, m, n);
    }
  }

  /** A pawn move is an optional file and x, the target, and an optional promotion. */
  lemma PawnBody(p: Position, m: Move)
    requires IsPseudoLegal(p, m) && p.squares[m.from].kind.Pawn?
    ensures
      var promotion := PromotionText(m);
      var body := Body(p, m);
      && body == (if m.flags.capture then [SquareName(m.from)[0], 'x'] else "") + SquareName(m.to) + promotion
      && (m.flags.capture ==> body[1] == 'x')
      && (!m.flags.capture ==> body[1] == SquareName(m.to)[1])
      && (m.flags.promotion ==> |body| >= 4 && body[|body| - 2] == '=' && promotion == body[|body| - 2..] &&
                                body[|body| - 4..|body| - 2] == SquareName(m.to))
      && (!m.flags.promotion ==> body[|body| - 2..] == SquareName(m.to) && body[|body| - 2] != '=')
  {
    PromotionFlags(p, m);
    assert !IsCastleFlagged(m);
    hide IsPseudoLegal;
    NamesPlain(m.to);
    var take := if m.flags.capture then [SquareName(m.from)[0], 'x'] else "";
    var promotion := PromotionText(m);
    assert m.flags.promotion ==> |promotion| == 2 && promotion[0] == '=';
    assert !m.flags.promotion ==> promotion == "";
    var body := take + SquareName(m.to) + promotion;
    assert Body(p, m) == body;
  }

  /** A pawn's source follows from its target, whether it captures, and then its file. */
  lemma PawnSource(p: Position, m: Move, n: Move)
    requires IsPseudoLegal(p, m) && IsPseudoLegal(p, n)
    requires p.squares[m.from].kind.Pawn? && p.squares[n.from].kind.Pawn?
    requires m.to == n.to && m.promotion == n.promotion && m.flags.capture == n.flags.capture
    requires m.flags.capture ==> File(m.from) == File(n.from)
    ensures m == n
  {
    assert IsPawnMove(p, m, p.side) && IsPawnMove(p, n, p.side);
    PawnGeometry(p, m);
    PawnGeometry(p, n);
    SquareOfCoordinates(m.from);
    SquareOfCoordinates(n.from);
  }

  lemma PawnGeometry(p: Position, m: Move)
    requires IsPseudoLegal(p, m) && p.squares[m.from].kind.Pawn?
    ensures !m.flags.capture ==> File(m.from) == File(m.to)
    ensures !m.flags.double ==> Rank(m.from) == Rank(m.to) - Forward(p.side)
    ensures m.flags.double ==>
              !m.flags.capture && Rank(m.from) == StartRank(p.side) && Rank(m.to) == Rank(m.from) + 2 * Forward(p.side) &&
              PieceAt(p.squares, File(m.to), Rank(m.to) - Forward(p.side)) == Empty
    ensures PieceAt(p.squares, File(m.from), Rank(m.from)) == Man(p.side, Pawn)
  {
  }

  lemma PromotionTextInjective(m: Move, n: Move)
    requires PromotionText(m) == PromotionText(n)
    requires m.flags.promotion ==> m.promotion.Some? && m.promotion.value in PROMOTIONS
    requires n.flags.promotion ==> n.promotion.Some? && n.promotion.value in PROMOTIONS
    requires !m.flags.promotion ==> m.promotion == None
    requires !n.flags.promotion ==> n.promotion == None
    ensures m.promotion == n.promotion
  {
    if m.flags.promotion && n.flags.promotion {
      assert PromotionText(m)[1..] == KindLetter(m.promotion.value);
      assert PromotionText(n)[1..] == KindLetter(n.promotion.value);
      LetterInjective(m.promotion.value, n.promotion.value);
    }
  }

  lemma PawnBodyInjective(p: Position, m: Move, n: Move)
    requires IsPseudoLegal(p, m) && IsPseudoLegal(p, n)
    requires p.squares[m.from].kind.Pawn? && p.squares[n.from].kind.Pawn?
    requires Body(p, m) == Body(p, n)
    ensures m == n
  {
    PawnBody(p, m);
    PawnBody(p, n);
    PromotionFlags(p, m);
    PromotionFlags(p, n);
    hide IsPseudoLegal, Body, KindLetter, File, Rank;
    assert m.flags.promotion == n.flags.promotion;
    SquareNameInjective(m.to, n.to);
    PromotionTextInjective(m, n);
    NamesPlain(m.to);
    RankNotTake(m.to);
    assert m.flags.capture == n.flags.capture;
    if m.flags.capture {
      assert Body(p, m)[0] == FILE_NAMES[File(m.from)] && Body(p, n)[0] == FILE_NAMES[File(n.from)];
      CharacterIndex(FILE_NAMES, File(m.from), File(n.from));
    }
    PawnSource(p, m, n);
  }

  lemma RankNotTake(square: nat)
    requires square < 64
    ensures SquareName(square)[1] != 'x'
  {
  }

  /** Castling on a given side is one move. */
  lemma CastleUnique(p: Position, m: Move, n: Move)
    requires IsPseudoLegal(p, m) && IsPseudoLegal(p, n) && IsCastleFlagged(m) && IsCastleFlagged(n)
    requires m.flags.kingCastle == n.flags.kingCastle
    ensures m == n
  {
    hide InCheck, Attacked, Reaches, CanCastleKing, CanCastleQueen;
    assert IsCastle(p, m, p.side) && IsCastle(p, n, p.side);
  }

  lemma LettersAnnounce(kind: Kind)
    requires !kind.Pawn?
    ensures |KindLetter(kind)| == 1 && Announced(KindLetter(kind)[0]) == Some(kind) && KindLetter(kind)[0] >= 'A'
  {
  }

  /** The first character tells castling, the kind of man, or a pawn move. */
  lemma FirstCharacter(p: Position, m: Move)
    requires IsPseudoLegal(p, m)
    ensures |Body(p, m)| >= 2
    ensures Announced(Body(p, m)[0]) == if IsCastleFlagged(m) then None else Some(p.squares[m.from].kind)
    ensures Body(p, m)[0] >= 'A'
  {
    var kind := p.squares[m.from].kind;
    PromotionFlags(p, m);
    if kind.Pawn? {
      PawnBody(p, m);
      FilesAnnouncePawns(File(m.from));
      FilesAnnouncePawns(File(m.to));
      hide IsPseudoLegal, Body, Announced, PromotionText, File, Rank;
    } else if !IsCastleFlagged(m) {
      PieceBody(p, m);
      LettersAnnounce(kind);
      hide IsPseudoLegal, Body, Announced, Disambiguation, KindLetter;
    } else {
      hide IsPseudoLegal;
    }
  }

  lemma CastleBodies(p: Position, m: Move, n: Move)
    requires m.from < 64 && m.to < 64 && p.squares[m.from].Man? && n.from < 64 && n.to < 64 && p.squares[n.from].Man?
    requires IsCastleFlagged(m) && IsCastleFlagged(n) && Body(p, m) == Body(p, n)
    ensures m.flags.kingCastle == n.flags.kingCastle
  {
    assert |"O-O"| != |"O-O-O"|;
  }

  lemma BodyInjective(p: Position, m: Move, n: Move)
    requires IsLegal(p, m) && IsLegal(p, n) && Body(p, m) == Body(p, n)
    ensures m == n
  {
    FirstCharacter(p, m);
    FirstCharacter(p, n);
    hide IsPseudoLegal, InCheck, Body, Announced, Playable, SquaresAfter;
    if IsCastleFlagged(m) {
      CastleBodies(p, m, n);
      CastleUnique(p, m, n);
    } else if p.squares[m.from].kind.Pawn? {
      PawnBodyInjective(p, m, n);
    } else {
      PieceBodyInjective(p, m, n);
    }
  }

  /** No two legal moves of a position share their normalised notation. */
  lemma SanInjective(p: Position, m: Move, n: Move)
    requires IsLegal(p, m) && IsLegal(p, n) && Normalize(ToSan(p, m)) == Normalize(ToSan(p, n))
    ensures m == n
  {
    hide IsPseudoLegal, InCheck, Body, Normalize, ToSan;
    NormalizedSan(p, m);
    NormalizedSan(p, n);
    BodyInjective(p, m, n);
  }

  // ----- reading back what was written -----

  lemma {:induction false} FirstMatchFinds(p: Position, moves: seq<Move>, m: Move)
    requires AllLegal(p, moves) && m in moves
    ensures FirstMatch(p, moves, Normalize(ToSan(p, m))) == Some(m)
  {
    hide IsPseudoLegal, InCheck, Normalize, ToSan;
    assert moves[0] in moves;
    if Normalize(ToSan(p, moves[0])) == Normalize(ToSan(p, m)) {
      SanInjective(p, moves[0], m);
    } else {
      FirstMatchFinds(p, moves[1..], m);
    }
  }

  /** Reading the notation of a legal move returns that move. */
  lemma SanRoundTrip(p: Position, m: Move)
    requires IsLegal(p, m)
    ensures ParseSan(p, ToSan(p, m)) == Some(m)
  {
    LegalMovesExact(p, m);
    FirstMatchFinds(p, LegalMovesOf(p), m);
  }

  lemma {:induction false} FirstMatchExact(p: Position, moves: seq<Move>, expected: string)
    requires AllLegal(p, moves)
    ensures
      match FirstMatch(p, moves, expected)
      case Some(m) => m in moves && Normalize(ToSan(p, m)) == expected
      case None => forall m :: m in moves ==> Normalize(ToSan(p, m)) != expected
  {
    hide IsPseudoLegal, InCheck, Normalize, ToSan;
    if moves != [] {
      assert moves[0] in moves;
      FirstMatchExact(p, moves[1..], expected);
    }
  }

  /** Reading accepts a text exactly when it is, up to normalisation, the notation of a legal move. */
  lemma ParseSanExact(p: Position, text: string, m: Move)
    ensures ParseSan(p, text) == Some(m) <==> IsLegal(p, m) && Normalize(ToSan(p, m)) == Normalize(text)
  {
    hide IsPseudoLegal, InCheck, Normalize, ToSan, LegalMovesOf;
    LegalMovesExact(p, m);
    FirstMatchExact(p, LegalMovesOf(p), Normalize(text));
    if IsLegal(p, m) && ParseSan(p, text).Some? {
      LegalMovesExact(p, ParseSan(p, text).value);
      if Normalize(ToSan(p, m)) == Normalize(text) {
        SanInjective(p, m, ParseSan(p, text).value);
      }
    }
  }
}
