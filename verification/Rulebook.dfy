/** The rules of chess in files, ranks and named squares, without the tables and helpers of the generators:
    what a man bears on, which moves there are and how they are flagged, and what each leaves behind. */
module Rulebook {
  import opened Positions
  import opened MoveGen
  import opened Legality

  // ----- what a man bears on -----

  function Across(from: nat, to: nat): int {
    to % 8 - from % 8
  }

  function Up(from: nat, to: nat): int {
    to / 8 - from / 8
  }

  function Size(n: int): nat {
    if n < 0 then -n else n
  }

  function Sign(n: int): int {
    if n < 0 then -1 else if n > 0 then 1 else 0
  }

  /** The square so many king steps from one towards another. */
  function Towards(from: nat, to: nat, steps: nat): int {
    from + steps * (8 * Sign(Up(from, to)) + Sign(Across(from, to)))
  }

  function Steps(from: nat, to: nat): nat {
    if Size(Across(from, to)) > Size(Up(from, to)) then Size(Across(from, to)) else Size(Up(from, to))
  }

  predicate OnLine(from: nat, to: nat) {
    from != to && (Across(from, to) == 0 || Up(from, to) == 0)
  }

  predicate OnDiagonal(from: nat, to: nat) {
    from != to && Size(Across(from, to)) == Size(Up(from, to))
  }

  /** Nothing stands between two squares of a line or diagonal. */
  predicate Clear(squares: Squares, from: nat, to: nat)
    requires from < 64 && to < 64
  {
    forall steps :: 0 < steps < Steps(from, to) ==>
                     0 <= Towards(from, to, steps) < 64 && squares[Towards(from, to, steps)] == Empty
  }

  predicate Bears(squares: Squares, from: nat, to: nat)
    requires from < 64 && to < 64 && squares[from].Man?
  {
    match squares[from].kind
    case Pawn => Size(Across(from, to)) == 1 && Up(from, to) == if squares[from].color.White? then 1 else -1
    case Knight => Size(Across(from, to)) * Size(Up(from, to)) == 2
    case Bishop => OnDiagonal(from, to) && Clear(squares, from, to)
    case Rook => OnLine(from, to) && Clear(squares, from, to)
    case Queen => (OnLine(from, to) || OnDiagonal(from, to)) && Clear(squares, from, to)
    case King => Steps(from, to) == 1
  }

  lemma KnightBears(from: nat, to: nat)
    requires from < 64 && to < 64
    ensures (exists jump: Dir :: Jumps(from, to, jump)) <==> Size(Across(from, to)) * Size(Up(from, to)) == 2
  {
    var x, y := Across(from, to), Up(from, to);
    if Size(x) * Size(y) == 2 {
      ProductTwo(Size(x), Size(y));
      var jump: Dir := if x == 1 && y == 2 then 0 else if x == 2 && y == 1 then 1 else if x == 2 && y == -1 then 2
                       else if x == 1 && y == -2 then 3 else if x == -1 && y == -2 then 4 else if x == -2 && y == -1 then 5
                       else if x == -2 && y == 1 then 6 else 7;
      assert Jumps(from, to, jump);
    }
  }

  lemma ProductTwo(a: nat, b: nat)
    requires a * b == 2 && a < 8 && b < 8
    ensures (a == 1 && b == 2) || (a == 2 && b == 1)
  {
  }

  lemma KingBears(from: nat, to: nat)
    requires from < 64 && to < 64
    ensures (exists dir: Dir :: Adjoins(from, to, dir)) <==> Steps(from, to) == 1
  {
    var x, y := Across(from, to), Up(from, to);
    if Steps(from, to) == 1 {
      assert Adjoins(from, to, DirTo(x, y));
    }
  }

  /** The table's direction for a displacement. */
  function DirTo(x: int, y: int): Dir {
    if y == 0 then if x > 0 then 0 else 1
    else if x == 0 then if y > 0 then 2 else 3
    else if x > 0 then if y > 0 then 4 else 5
    else if y > 0 then 6 else 7
  }

  lemma SlideIs(squares: Squares, from: nat, to: nat, dir: Dir, distance: nat)
    requires from < 64 && to < 64 && Slides(squares, from, to, dir, distance)
    ensures Steps(from, to) == distance && from != to && (if Diagonal(dir) then OnDiagonal(from, to) else OnLine(from, to))
    ensures Sign(Across(from, to)) == StepFile(dir, 1) && Sign(Up(from, to)) == StepRank(dir, 1)
  {
  }

  lemma DirIs(from: nat, to: nat)
    requires from < 64 && to < 64 && (OnLine(from, to) || OnDiagonal(from, to))
    ensures var dir, distance := DirTo(Across(from, to), Up(from, to)), Steps(from, to);
            && (Diagonal(dir) <==> OnDiagonal(from, to)) && (OnDiagonal(from, to) <==> !OnLine(from, to)) && 0 < distance < 8
            && File(to) == File(from) + StepFile(dir, distance) && Rank(to) == Rank(from) + StepRank(dir, distance)
            && Sign(Across(from, to)) == StepFile(dir, 1) && Sign(Up(from, to)) == StepRank(dir, 1)
  {
  }

  lemma StepScales(dir: Dir, step: nat)
    ensures StepFile(dir, step) == step * StepFile(dir, 1) && StepRank(dir, step) == step * StepRank(dir, 1)
    ensures -1 <= StepFile(dir, 1) <= 1 && -1 <= StepRank(dir, 1) <= 1
  {
  }

  lemma TowardsIs(from: nat, to: nat, step: nat, x: int, y: int)
    requires x == Sign(Across(from, to)) && y == Sign(Up(from, to))
    ensures Towards(from, to, step) == (from / 8 + step * y) * 8 + (from % 8 + step * x)
  {
    hide Sign, Across, Up;
    assert step * (8 * y + x) == step * y * 8 + step * x;
  }

  lemma WithinBoard(from: nat, to: nat, step: nat)
    requires from < 64 && to < 64 && 0 < step < Steps(from, to) && (OnLine(from, to) || OnDiagonal(from, to))
    ensures OnBoard(from % 8 + step * Sign(Across(from, to)), from / 8 + step * Sign(Up(from, to)))
  {
  }

  lemma VacantAt(squares: Squares, file: int, rank: int, dir: Dir, step: nat, toFile: int, toRank: int)
    requires OnBoard(toFile, toRank) && toFile == file + StepFile(dir, step) && toRank == rank + StepRank(dir, step)
    ensures Vacant(squares, file, rank, dir, step) <==> squares[toRank * 8 + toFile] == Empty
  {
    hide StepFile, StepRank;
  }

  /** A step of the table is a step towards the target. */
  lemma StepIs(squares: Squares, from: nat, to: nat, dir: Dir, step: nat)
    requires from < 64 && to < 64 && 0 < step < Steps(from, to) && (OnLine(from, to) || OnDiagonal(from, to))
    requires Sign(Across(from, to)) == StepFile(dir, 1) && Sign(Up(from, to)) == StepRank(dir, 1)
    ensures 0 <= Towards(from, to, step) < 64
    ensures Vacant(squares, File(from), Rank(from), dir, step) <==> squares[Towards(from, to, step)] == Empty
  {
    var x, y := step * StepFile(dir, 1), step * StepRank(dir, 1);
    StepScales(dir, step);
    TowardsIs(from, to, step, StepFile(dir, 1), StepRank(dir, 1));
    WithinBoard(from, to, step);
    VacantAt(squares, File(from), Rank(from), dir, step, from % 8 + x, from / 8 + y);
    hide StepFile, StepRank, Towards, Sign, Across, Up, Steps, OnLine, OnDiagonal, Vacant;
  }

  lemma SlidesExact(squares: Squares, from: nat, to: nat, diagonal: bool)
    requires from < 64 && to < 64
    ensures (exists dir: Dir, distance: nat :: Diagonal(dir) == diagonal && Slides(squares, from, to, dir, distance)) <==>
            (if diagonal then OnDiagonal(from, to) else OnLine(from, to)) && Clear(squares, from, to)
  {
    hide Vacant, StepFile, StepRank, Towards, Sign, OnLine, OnDiagonal, Steps;
    if dir: Dir, distance: nat :| Diagonal(dir) == diagonal && Slides(squares, from, to, dir, distance) {
      SlideIs(squares, from, to, dir, distance);
      forall steps: nat | 0 < steps < Steps(from, to)
        ensures 0 <= Towards(from, to, steps) < 64 && squares[Towards(from, to, steps)] == Empty
      {
        StepIs(squares, from, to, dir, steps);
      }
    }
    if (if diagonal then OnDiagonal(from, to) else OnLine(from, to)) && Clear(squares, from, to) {
      DirIs(from, to);
      var dir, distance := DirTo(Across(from, to), Up(from, to)), Steps(from, to);
      forall step | 0 < step < distance
        ensures Vacant(squares, File(from), Rank(from), dir, step)
      {
        StepIs(squares, from, to, dir, step);
      }
      assert Diagonal(dir) == diagonal && Slides(squares, from, to, dir, distance);
    }
  }

  /** The man on a square bears on another exactly as the rules say. */
  lemma BearsExact(squares: Squares, from: nat, to: nat)
    requires from < 64 && to < 64 && squares[from].Man?
    ensures Reaches(squares, from, to) <==> Bears(squares, from, to)
  {
    KnightBears(from, to);
    KingBears(from, to);
    SlidesExact(squares, from, to, true);
    SlidesExact(squares, from, to, false);
    hide Slides, Clear, Jumps, Adjoins, Steps, OnLine, OnDiagonal;
  }

  ghost predicate Threatened(squares: Squares, square: nat, by_: Color)
    requires square < 64
  {
    exists from :: 0 <= from < 64 && squares[from].Man? && squares[from].color == by_ && Bears(squares, from, square)
  }

  lemma ThreatExact(squares: Squares, square: nat, by_: Color)
    requires square < 64
    ensures Attacked(squares, square, by_) <==> Threatened(squares, square, by_)
  {
    hide Reaches, Bears;
    forall from | 0 <= from < 64 && squares[from].Man?
      ensures Reaches(squares, from, square) <==> Bears(squares, from, square)
    {
      BearsExact(squares, from, square);
    }
  }

  /** A king alone of its colour is in check exactly when an enemy man bears on it. */
  lemma CheckExact(squares: Squares, color: Color, king: nat)
    requires OnlyKing(squares, color, king)
    ensures InCheck(squares, color) <==> Threatened(squares, king, if color.White? then Black else White)
  {
    OnlyKingFound(squares, color, king);
    ThreatExact(squares, king, color.Opposite());
    hide Attacked, Threatened;
  }

  // ----- which moves there are -----

  function Ahead(color: Color): int {
    if color.White? then 1 else -1
  }

  predicate EmptyAt(squares: Squares, square: int) {
    0 <= square < 64 && squares[square] == Empty
  }

  predicate EnemyAt(squares: Squares, square: nat, color: Color)
    requires square < 64
  {
    squares[square].Man? && squares[square].color != color
  }

  predicate FriendAt(squares: Squares, square: nat, color: Color)
    requires square < 64
  {
    squares[square].Man? && squares[square].color == color
  }

  /** One square straight on, two from the second rank over an empty square, or one diagonally onto an enemy or
      the en-passant square. */
  predicate PawnGoes(p: Position, from: nat, to: nat, color: Color)
    requires from < 64 && to < 64
  {
    if Across(from, to) == 0 then
      p.squares[to] == Empty &&
      (|| Up(from, to) == Ahead(color)
       || (Up(from, to) == 2 * Ahead(color) && from / 8 == (if color.White? then 1 else 6) &&
           EmptyAt(p.squares, from + 8 * Ahead(color))))
    else
      Size(Across(from, to)) == 1 && Up(from, to) == Ahead(color) && (EnemyAt(p.squares, to, color) || to == p.enPassant)
  }

  /** Castling on the king's side: the right, an empty way, the rook, and no attack on the king's way. */
  ghost predicate CastlesShort(p: Position, from: nat, to: nat, color: Color) {
    if color.White? then
      && from == 4 && to == 6 && p.rights.whiteKing && p.squares[5] == Empty && p.squares[6] == Empty
      && p.squares[7] == Man(White, Rook) && !InCheck(p.squares, White)
      && !Threatened(p.squares, 5, Black) && !Threatened(p.squares, 6, Black)
    else
      && from == 60 && to == 62 && p.rights.blackKing && p.squares[61] == Empty && p.squares[62] == Empty
      && p.squares[63] == Man(Black, Rook) && !InCheck(p.squares, Black)
      && !Threatened(p.squares, 61, White) && !Threatened(p.squares, 62, White)
  }

  ghost predicate CastlesLong(p: Position, from: nat, to: nat, color: Color) {
    if color.White? then
      && from == 4 && to == 2 && p.rights.whiteQueen
      && p.squares[3] == Empty && p.squares[2] == Empty && p.squares[1] == Empty
      && p.squares[0] == Man(White, Rook) && !InCheck(p.squares, White)
      && !Threatened(p.squares, 3, Black) && !Threatened(p.squares, 2, Black)
    else
      && from == 60 && to == 58 && p.rights.blackQueen
      && p.squares[59] == Empty && p.squares[58] == Empty && p.squares[57] == Empty
      && p.squares[56] == Man(Black, Rook) && !InCheck(p.squares, Black)
      && !Threatened(p.squares, 59, White) && !Threatened(p.squares, 58, White)
  }

  predicate Promotes(to: nat, color: Color) {
    to / 8 == if color.White? then 7 else 0
  }

  ghost predicate PawnRule(p: Position, m: Move, color: Color)
    requires m.from < 64 && m.to < 64
  {
    var enemy, sideways := EnemyAt(p.squares, m.to, color), Across(m.from, m.to) != 0;
    var promotes := Promotes(m.to, color) && Size(Up(m.from, m.to)) == 1;
    && PawnGoes(p, m.from, m.to, color)
    && m.flags == Flags(sideways, Size(Up(m.from, m.to)) == 2, false, false, sideways && !enemy, promotes)
    && (if promotes then m.promotion in {Some(Queen), Some(Rook), Some(Bishop), Some(Knight)} else m.promotion == None)
  }

  ghost predicate PieceRule(p: Position, m: Move, color: Color)
    requires m.from < 64 && m.to < 64 && p.squares[m.from].Man?
  {
    && Bears(p.squares, m.from, m.to) && !FriendAt(p.squares, m.to, color) && m.promotion == None
    && m.flags == Flags(p.squares[m.to].Man?, false, false, false, false, false)
  }

  ghost predicate CastleRule(p: Position, m: Move, color: Color) {
    && m.promotion == None
    && (|| (CastlesShort(p, m.from, m.to, color) && m.flags == Flags(false, false, true, false, false, false))
        || (CastlesLong(p, m.from, m.to, color) && m.flags == Flags(false, false, false, true, false, false)))
  }

  /** The moves of the rules, the mover's own check aside. */
  ghost predicate Goes(p: Position, m: Move) {
    && m.from < 64 && m.to < 64 && FriendAt(p.squares, m.from, p.side)
    && match p.squares[m.from].kind
       case Pawn => PawnRule(p, m, p.side)
       case King => PieceRule(p, m, p.side) || CastleRule(p, m, p.side)
       case _ => PieceRule(p, m, p.side)
  }

  lemma Coordinates(from: nat, to: nat)
    requires from < 64 && to < 64
    ensures Across(from, to) == File(to) - File(from) && Up(from, to) == Rank(to) - Rank(from)
  {
  }

  lemma PawnReaches(squares: Squares, from: nat, to: nat, color: Color)
    requires from < 64 && to < 64 && squares[from] == Man(color, Pawn)
    ensures Reaches(squares, from, to) <==> Size(Across(from, to)) == 1 && Up(from, to) == Ahead(color)
  {
    BearsExact(squares, from, to);
    hide Reaches;
  }

  lemma PawnRuleExact(p: Position, m: Move, color: Color)
    requires m.from < 64 && m.to < 64 && p.squares[m.from] == Man(color, Pawn)
    ensures IsPawnMove(p, m, color) <==> PawnRule(p, m, color)
  {
    PawnReaches(p.squares, m.from, m.to, color);
    Coordinates(m.from, m.to);
    PawnWay(p.squares, m.from, color);
    PromotionIs(m, color);
    hide Reaches, Across, Up, File, Rank, PieceAt;
    assert m.flags == m.flags.(promotion := false).(promotion := m.flags.promotion);
    assert EnemyAt(p.squares, m.to, color) <==> Enemy(p.squares[m.to], color);
    assert Forward(color) == Ahead(color) && StartRank(color) == (if color.White? then 1 else 6);
  }

  lemma PawnWay(squares: Squares, from: nat, color: Color)
    requires from < 64
    ensures Rank(from) == from / 8
    ensures from / 8 == (if color.White? then 1 else 6) ==>
              (PieceAt(squares, File(from), Rank(from) + Forward(color)) == Empty <==> EmptyAt(squares, from + 8 * Ahead(color)))
  {
  }

  lemma PromotionIs(m: Move, color: Color)
    requires m.to < 64
    ensures Rank(m.to) == PromotionRank(color) <==> Promotes(m.to, color)
    ensures m.promotion.Some? && m.promotion.value in PROMOTIONS <==>
            m.promotion in {Some(Queen), Some(Rook), Some(Bishop), Some(Knight)}
  {
    if m.promotion.Some? {
      var k := m.promotion.value;
      assert k in PROMOTIONS <==> k == Queen || k == Rook || k == Bishop || k == Knight;
    }
  }

  lemma PieceRuleExact(p: Position, m: Move, color: Color)
    requires m.from < 64 && m.to < 64 && p.squares[m.from].Man? && p.squares[m.from].color == color
    ensures IsPieceMove(p, m, color) <==> PieceRule(p, m, color)
  {
    BearsExact(p.squares, m.from, m.to);
    hide Reaches, Bears;
  }

  lemma ShortExact(p: Position, color: Color)
    ensures CanCastleKing(p, color) && !InCheck(p.squares, color) <==>
            if color.White? then CastlesShort(p, 4, 6, White) else CastlesShort(p, 60, 62, Black)
  {
    var home := HomeRank(color);
    ThreatExact(p.squares, home + 5, color.Opposite());
    ThreatExact(p.squares, home + 6, color.Opposite());
    hide Attacked, Threatened, InCheck;
  }

  lemma LongExact(p: Position, color: Color)
    ensures CanCastleQueen(p, color) && !InCheck(p.squares, color) <==>
            if color.White? then CastlesLong(p, 4, 2, White) else CastlesLong(p, 60, 58, Black)
  {
    var home := HomeRank(color);
    ThreatExact(p.squares, home + 3, color.Opposite());
    ThreatExact(p.squares, home + 2, color.Opposite());
    hide Attacked, Threatened, InCheck;
  }

  lemma CastleRuleExact(p: Position, m: Move, color: Color)
    ensures IsCastle(p, m, color) <==> CastleRule(p, m, color)
  {
    ShortExact(p, color);
    LongExact(p, color);
    hide InCheck, Threatened, CanCastleKing, CanCastleQueen;
  }

  /** The moves generated are those of the rules, flags included, on every board. */
  lemma MovesExact(p: Position, m: Move)
    ensures m in PseudoLegalMoves(p) <==> Goes(p, m)
    ensures IsPseudoLegal(p, m) <==> Goes(p, m)
  {
    PseudoLegalMovesExact(p, m);
    if m.from < 64 && m.to < 64 && FriendAt(p.squares, m.from, p.side) {
      CastleRuleExact(p, m, p.side);
      PieceRuleExact(p, m, p.side);
      if p.squares[m.from].kind.Pawn? {
        PawnRuleExact(p, m, p.side);
      }
    }
    hide PseudoLegalMoves, IsPawnMove, IsPieceMove, IsCastle, PawnRule, PieceRule, CastleRule;
  }

  lemma OtherFacts(p: Position, m: Move)
    requires Goes(p, m) && !p.squares[m.from].kind.Pawn?
    ensures m.promotion == None && !m.flags.double && !m.flags.enPassant && !m.flags.promotion
    ensures m.flags.kingCastle || m.flags.queenCastle ==> p.squares[m.from].kind.King? && CastleRule(p, m, p.side)
  {
    hide CastlesShort, CastlesLong, Bears;
  }

  /** What the rules say of a move by the man it moves. */
  lemma MoveFacts(p: Position, m: Move)
    requires IsPseudoLegal(p, m)
    ensures m.from < 64 && m.to < 64 && FriendAt(p.squares, m.from, p.side)
    ensures p.squares[m.from].kind.Pawn? ==> PawnRule(p, m, p.side)
    ensures !p.squares[m.from].kind.Pawn? ==> m.promotion == None && !m.flags.double && !m.flags.enPassant && !m.flags.promotion
    ensures m.flags.kingCastle || m.flags.queenCastle ==> p.squares[m.from].kind.King? && CastleRule(p, m, p.side)
  {
    MovesExact(p, m);
    hide IsPseudoLegal, PieceRule, CastleRule;
    if !p.squares[m.from].kind.Pawn? {
      OtherFacts(p, m);
    } else {
      hide PawnGoes;
    }
  }
}
