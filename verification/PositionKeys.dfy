/** What a position's key tells: two positions that differ in one thing have different keys. Mixing is injective, so
    that each thing enters the key with a part of its own. */
module PositionKeys {
  import opened Positions
  import opened MakeMove
  import opened Rulebook
  import opened MoveEffects

  // ----- mixing is injective -----

  function UnfoldFirst(y: bv64): bv64 {
    y ^ (y >> 30) ^ (y >> 60)
  }

  lemma UnfoldsFirst(x: bv64)
    ensures UnfoldFirst(x ^ (x >> 30)) == x
  {
  }

  lemma FirstFold(x: bv64)
    ensures UnfoldFirst(FoldFirst(x)) == x
  {
    hide UnfoldFirst;
    UnfoldsFirst(x);
  }

  function UnfoldSecond(y: bv64): bv64 {
    y ^ (y >> 27) ^ (y >> 54)
  }

  lemma UnfoldsSecond(x: bv64)
    ensures UnfoldSecond(x ^ (x >> 27)) == x
  {
  }

  lemma SecondFold(x: bv64)
    ensures UnfoldSecond(FoldSecond(x)) == x
  {
    hide UnfoldSecond;
    UnfoldsSecond(x);
  }

  function UnfoldLast(y: bv64): bv64 {
    y ^ (y >> 31) ^ (y >> 62)
  }

  lemma UnfoldsLast(x: bv64)
    ensures UnfoldLast(x ^ (x >> 31)) == x
  {
  }

  lemma LastFold(x: bv64)
    ensures UnfoldLast(FoldLast(x)) == x
  {
    hide UnfoldLast;
    UnfoldsLast(x);
  }

  function UntimesFirst(y: bv64): bv64 {
    y * 0x96de1b173f119089
  }

  lemma UntimesFirstIs(x: bv64)
    ensures UntimesFirst(x * 0xbf58476d1ce4e5b9) == x
  {
  }

  lemma FirstTimes(x: bv64)
    ensures UntimesFirst(TimesFirst(x)) == x
  {
    hide UntimesFirst;
    UntimesFirstIs(x);
  }

  function UntimesSecond(y: bv64): bv64 {
    y * 0x319642b2d24d8ec3
  }

  lemma UntimesSecondIs(x: bv64)
    ensures UntimesSecond(x * 0x94d049bb133111eb) == x
  {
  }

  lemma SecondTimes(x: bv64)
    ensures UntimesSecond(TimesSecond(x)) == x
  {
    hide UntimesSecond;
    UntimesSecondIs(x);
  }

  lemma Shifted(a: bv64, b: bv64)
    requires a + 0x9e3779b97f4a7c15 == b + 0x9e3779b97f4a7c15
    ensures a == b
  {
  }

  lemma MixInjective(a: bv64, b: bv64)
    requires Mix(a) == Mix(b)
    ensures a == b
  {
    hide FoldFirst, TimesFirst, FoldSecond, TimesSecond, FoldLast;
    hide UnfoldFirst, UnfoldSecond, UnfoldLast, UntimesFirst, UntimesSecond;
    var x, y := a + 0x9e3779b97f4a7c15, b + 0x9e3779b97f4a7c15;
    var x1, y1 := FoldFirst(x), FoldFirst(y);
    var x2, y2 := TimesFirst(x1), TimesFirst(y1);
    var x3, y3 := FoldSecond(x2), FoldSecond(y2);
    var x4, y4 := TimesSecond(x3), TimesSecond(y3);
    LastFold(x4);
    LastFold(y4);
    SecondTimes(x3);
    SecondTimes(y3);
    SecondFold(x2);
    SecondFold(y2);
    FirstTimes(x1);
    FirstTimes(y1);
    FirstFold(x);
    FirstFold(y);
    Shifted(a, b);
  }

  /** The one number that is mixed to nothing. */
  lemma MixZero()
    ensures Mix(0x61c8864680b583eb) == 0
  {
  }

  lemma Successor(x: bv64)
    requires x < 0x2000
    ensures (x + 1) as int == x as int + 1
  {
  }

  lemma IntRoundTrip(x: bv64)
    ensures ((x as int) as bv64) == x
  {
  }

  lemma {:induction false} CountTo(n: nat) returns (x: bv64)
    requires n <= 4096
    ensures x as int == n && x < 0x2000
  {
    x := 0;
    if n > 0 {
      var y := CountTo(n - 1);
      Successor(y);
      x := y + 1;
    }
  }

  /** Codes are mixed apart, and none to nothing. */
  lemma CodesApart(n: nat, m: nat)
    requires n <= 4096 && m <= 4096 && n != m
    ensures CodeKey(n) != CodeKey(m)
  {
    hide Mix;
    var x := CountTo(n);
    var y := CountTo(m);
    IntRoundTrip(x);
    IntRoundTrip(y);
    if Mix(x) == Mix(y) {
      MixInjective(x, y);
    }
  }

  lemma CodeSeen(n: nat)
    requires n <= 4096
    ensures CodeKey(n) != 0
  {
    hide Mix;
    var x := CountTo(n);
    IntRoundTrip(x);
    MixZero();
    if Mix(x) == 0 {
      MixInjective(x, 0x61c8864680b583eb);
    }
  }

  // ----- the parts of a key -----

  lemma SquareKeysApart(a: Piece, b: Piece, square: nat)
    requires square < 64 && a != b
    ensures SquareKey(a, square) != SquareKey(b, square)
  {
    hide CodeKey;
    var code := (piece: Piece) => if piece.Man? then (KindCode(piece.kind) + if piece.color.Black? then 8 else 0) * 64 + square else 0;
    if a.Man? {
      CodeSeen(code(a));
    }
    if b.Man? {
      CodeSeen(code(b));
    }
    if a.Man? && b.Man? {
      CodesApart(code(a), code(b));
    }
  }

  lemma XorApart(a: bv64, b: bv64, c: bv64)
    requires a != b
    ensures Xor(a, c) != Xor(b, c) && Xor(c, a) != Xor(c, b)
  {
  }

  lemma {:induction false} SquaresKeysApart(a: Squares, b: Squares, k: nat, upTo: nat)
    requires upTo <= 64 && k < 64 && a[k] != b[k] && forall i :: 0 <= i < 64 && i != k ==> a[i] == b[i]
    ensures SquaresKey(a, upTo) != SquaresKey(b, upTo) <==> k < upTo
  {
    hide Xor, SquareKey;
    if upTo == 0 {
      assert SquaresKey(a, 0) == SquaresKey(b, 0);
    } else {
      var last := upTo - 1;
      SquaresKeysApart(a, b, k, last);
      if k == last {
        SquareKeysApart(a[last], b[last], last);
        XorApart(SquareKey(a[last], last), SquareKey(b[last], last), SquaresKey(a, last));
      } else if k < last {
        XorApart(SquaresKey(a, last), SquaresKey(b, last), SquareKey(a[last], last));
      }
    }
  }

  lemma RightsKeysApart(a: Rights, b: Rights)
    requires a != b
    ensures RightsKey(a) != RightsKey(b)
  {
    hide CodeKey;
    CodesApart(1024 + RightsBits(a), 1024 + RightsBits(b));
  }

  lemma EnPassantKeysApart(a: nat, b: nat, squares: Squares, side: Color)
    requires a < 64 && EnPassantCapturable(squares, side, a)
    requires b == 64 || (b < 64 && b % 8 != a % 8 && EnPassantCapturable(squares, side, b))
    ensures EnPassantKey(squares, side, a) != EnPassantKey(squares, side, b)
  {
    hide CodeKey, EnPassantCapturable;
    CodeSeen(2048 + File(a));
    if b < 64 {
      CodesApart(2048 + File(a), 2048 + File(b));
    }
  }

  // ----- what the key tells -----

  datatype Keyed = Keyed(squares: Squares, side: Color, rights: Rights, enPassant: nat)

  function KeyOf(k: Keyed): bv64 {
    PositionKey(k.squares, k.side, k.rights, k.enPassant)
  }

  /** A pawn of the side to move bears on the square. */
  predicate Takeable(k: Keyed) {
    k.enPassant < 64
    && exists from :: 0 <= from < 64 && k.squares[from] == Man(k.side, Pawn) && Bears(k.squares, from, k.enPassant)
  }

  lemma BearingCaptures(squares: Squares, side: Color, enPassant: nat, from: nat)
    requires enPassant < 64 && from < 64 && squares[from] == Man(side, Pawn) && Bears(squares, from, enPassant)
    ensures EnPassantCapturable(squares, side, enPassant)
  {
    Coordinates(from, enPassant);
    SquareOfCoordinates(from);
    BearsBeside(squares, from, enPassant, side);
    hide Bears, File, Rank, Across, Up;
  }

  lemma BearsBeside(squares: Squares, from: nat, to: nat, side: Color)
    requires from < 64 && to < 64 && squares[from] == Man(side, Pawn) && Bears(squares, from, to)
    ensures File(from) == File(to) - 1 || File(from) == File(to) + 1
    ensures Rank(from) == Rank(to) - Forward(side)
  {
    Coordinates(from, to);
  }

  lemma TakeableExact(k: Keyed)
    ensures Takeable(k) <==> k.enPassant < 64 && EnPassantCapturable(k.squares, k.side, k.enPassant)
  {
    if k.enPassant < 64 && EnPassantCapturable(k.squares, k.side, k.enPassant) {
      CapturableBears(k.squares, k.side, k.enPassant);
    }
    hide Bears, EnPassantCapturable;
    if Takeable(k) {
      var from :| 0 <= from < 64 && k.squares[from] == Man(k.side, Pawn) && Bears(k.squares, from, k.enPassant);
      BearingCaptures(k.squares, k.side, k.enPassant, from);
    }
  }

  /** The two differ in one thing that the key is made of: in the man of one square, or the side, without an
      en-passant square; in the rights; or in the file of an en-passant square that can be taken, or whether there is
      one. */
  predicate DifferOnce(a: Keyed, b: Keyed) {
    || (exists k :: 0 <= k < 64 && a.squares[k] != b.squares[k] && a == b.(squares := a.squares) && a.enPassant == 64
                    && forall i :: 0 <= i < 64 && i != k ==> a.squares[i] == b.squares[i])
    || (a.side != b.side && a == b.(side := a.side) && a.enPassant == 64)
    || (a.rights != b.rights && a == b.(rights := a.rights))
    || (a == b.(enPassant := a.enPassant) && Takeable(a) && (b.enPassant == 64 || (Takeable(b) && b.enPassant % 8 != a.enPassant % 8)))
  }

  datatype Parts = Parts(men: bv64, rights: bv64, passant: bv64, side: bv64)

  function PartsOf(k: Keyed): Parts {
    Parts(SquaresKey(k.squares, 64), RightsKey(k.rights), EnPassantKey(k.squares, k.side, k.enPassant), SideKey(k.side))
  }

  function Joined(p: Parts): bv64 {
    Xor(Xor(Xor(p.men, p.rights), p.passant), p.side)
  }

  lemma KeyJoins(k: Keyed)
    ensures KeyOf(k) == Joined(PartsOf(k))
  {
    hide SquaresKey, RightsKey, EnPassantKey, SideKey, Xor;
  }

  predicate OnePartApart(p: Parts, q: Parts) {
    || (p.men != q.men && p == q.(men := p.men))
    || (p.rights != q.rights && p == q.(rights := p.rights))
    || (p.passant != q.passant && p == q.(passant := p.passant))
    || (p.side != q.side && p == q.(side := p.side))
  }

  lemma JoinedApart(p: Parts, q: Parts)
    requires OnePartApart(p, q)
    ensures Joined(p) != Joined(q)
  {
    hide Xor;
    var x, y := Xor(p.men, p.rights), Xor(q.men, q.rights);
    if p.men != q.men {
      XorApart(p.men, q.men, p.rights);
      XorApart(x, y, p.passant);
      XorApart(Xor(x, p.passant), Xor(y, p.passant), p.side);
    } else if p.rights != q.rights {
      XorApart(p.rights, q.rights, p.men);
      XorApart(x, y, p.passant);
      XorApart(Xor(x, p.passant), Xor(y, p.passant), p.side);
    } else if p.passant != q.passant {
      XorApart(p.passant, q.passant, x);
      XorApart(Xor(x, p.passant), Xor(x, q.passant), p.side);
    } else {
      XorApart(p.side, q.side, Xor(x, p.passant));
    }
  }

  lemma NothingPassed(k: Keyed)
    requires k.enPassant == 64
    ensures PartsOf(k).passant == 0
  {
    hide CodeKey, EnPassantCapturable, SquaresKey, RightsKey, SideKey;
  }

  lemma SideKeysApart()
    ensures SideKey(White) != SideKey(Black)
  {
    hide CodeKey;
    CodeSeen(4096);
  }

  /** Two positions that differ in one such thing have different keys. */
  lemma KeyTells(a: Keyed, b: Keyed)
    requires DifferOnce(a, b)
    ensures KeyOf(a) != KeyOf(b)
  {
    KeyJoins(a);
    KeyJoins(b);
    PartsDiffer(a, b);
    hide KeyOf, Joined, PartsOf, DifferOnce, OnePartApart;
    JoinedApart(PartsOf(a), PartsOf(b));
  }

  lemma PartsDiffer(a: Keyed, b: Keyed)
    requires DifferOnce(a, b)
    ensures OnePartApart(PartsOf(a), PartsOf(b))
  {
    if a.squares != b.squares {
      MenDiffer(a, b);
    } else if a.side != b.side {
      SideKeysApart();
      NothingPassed(a);
      NothingPassed(b);
      hide SquaresKey, RightsKey, EnPassantKey, SideKey, Takeable;
    } else if a.rights != b.rights {
      RightsKeysApart(a.rights, b.rights);
      hide SquaresKey, RightsKey, EnPassantKey, SideKey, Takeable;
    } else {
      PassantDiffers(a, b);
    }
  }

  lemma MenDiffer(a: Keyed, b: Keyed)
    requires DifferOnce(a, b) && a.squares != b.squares
    ensures OnePartApart(PartsOf(a), PartsOf(b))
  {
    hide SquaresKey, RightsKey, EnPassantKey, SideKey, Takeable;
    var k :| 0 <= k < 64 && a.squares[k] != b.squares[k] && forall i :: 0 <= i < 64 && i != k ==> a.squares[i] == b.squares[i];
    SquaresKeysApart(a.squares, b.squares, k, 64);
    NothingPassed(a);
    NothingPassed(b);
  }

  lemma PassantDiffers(a: Keyed, b: Keyed)
    requires a == b.(enPassant := a.enPassant) && Takeable(a)
    requires b.enPassant == 64 || (Takeable(b) && b.enPassant % 8 != a.enPassant % 8)
    ensures OnePartApart(PartsOf(a), PartsOf(b))
  {
    TakeableExact(a);
    TakeableExact(b);
    hide Takeable, EnPassantCapturable;
    EnPassantKeysApart(a.enPassant, b.enPassant, a.squares, a.side);
    hide SquaresKey, RightsKey, EnPassantKey, SideKey;
  }
}
