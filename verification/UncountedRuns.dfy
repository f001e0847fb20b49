/** A run begun without an expected count: the ledger takes its first observation, the hosted store's
    tables refuse it. One such observation, of the starting position, in full. */
module UncountedRuns {
  import opened Positions
  import opened MoveGen
  import opened MakeMove
  import opened Legality
  import opened PerftSpec
  import opened Text
  import opened Fen
  import opened InitialPosition
  import opened Observations
  import opened Ledgers
  import opened HostedStores

  const ADVANCE := Move(8, 16, None, QUIET)

  // ----- the advance of the rook's pawn is legal -----

  function Advanced(): Squares {
    HomeSquares()[8 := Empty][16 := Man(White, Pawn)]
  }

  lemma AdvancedIs()
    ensures Playable(Initial(), ADVANCE) && SquaresAfter(Initial(), ADVANCE) == Advanced()
    ensures IsPseudoLegal(Initial(), ADVANCE)
  {
    hide PositionKey;
    HomeAt(0, 1);
    HomeAt(0, 2);
  }

  lemma AdvancedMan(square: nat)
    requires square < 64
    ensures Advanced()[square].Man? && Advanced()[square].color == Black ==> Rank(square) >= 6
    ensures square == 4 <==> Advanced()[square] == Man(White, King)
    ensures Rank(square) == 1 && 3 <= File(square) <= 5 ==> Advanced()[square] != Empty
  {
  }

  lemma NoSlideHome(from: nat, dir: Dir, distance: nat)
    requires from < 64 && Rank(from) >= 6
    ensures !Slides(Advanced(), from, 4, dir, distance)
  {
    hide Advanced;
    if Slides(Advanced(), from, 4, dir, distance) {
      var file, rank := File(from) + StepFile(dir, distance - 1), Rank(from) + StepRank(dir, distance - 1);
      assert rank == 1 && 3 <= file <= 5;
      assert Vacant(Advanced(), File(from), Rank(from), dir, distance - 1);
      AdvancedMan(SquareAt(file, rank));
    }
  }

  lemma NotReached(from: nat)
    requires from < 64 && Advanced()[from].Man? && Advanced()[from].color == Black
    ensures !Reaches(Advanced(), from, 4)
  {
    AdvancedMan(from);
    forall dir: Dir, distance: nat
      ensures !Slides(Advanced(), from, 4, dir, distance)
    {
      NoSlideHome(from, dir, distance);
    }
    hide Advanced, Slides;
  }

  lemma AdvanceLegal()
    ensures IsLegal(Initial(), ADVANCE)
  {
    hide Advanced, Reaches, IsPseudoLegal, PositionKey;
    AdvancedIs();
    forall square | 0 <= square < 64
      ensures square == 4 <==> Advanced()[square] == Man(White, King)
    {
      AdvancedMan(square);
    }
    OnlyKingFound(Advanced(), White, 4);
    forall from | 0 <= from < 64 && Advanced()[from].Man? && Advanced()[from].color == Black
      ensures !Reaches(Advanced(), from, 4)
    {
      NotReached(from);
    }
  }

  // ----- a valid observation -----

  const TOKEN := "a2a3"

  const FIRST := Observation(CONTRACT, "run-1", "game-1", 0, 0, TEXT, "quick",
                             Engine(ENGINE_NAME, ENGINE_VERSION, ENGINE_SOURCE, ENGINE_HASH),
                             Search(10, 1000, 100, 1, TOKEN, [Line(1, Some(24), None, [TOKEN])]))

  lemma {:induction false} FirstToFinds(moves: seq<Move>, m: Move, promotion: Kind)
    requires m in moves && !m.flags.promotion
    ensures FirstTo(moves, m.from, m.to, promotion).Some?
  {
    if moves[0] != m {
      FirstToFinds(moves[1..], m, promotion);
    }
  }

  lemma AdvancePlays()
    ensures AfterToken(Initial(), TOKEN).Some?
  {
    hide IsLegal, LegalMovesOf, Initial, Play;
    AdvanceLegal();
    LegalMovesExact(Initial(), ADVANCE);
    assert ReadToken(TOKEN) == Some((8, 16, Queen));
    FirstToFinds(LegalMovesOf(Initial()), ADVANCE, Queen);
  }

  lemma FirstPlays()
    ensures LinePlays(TEXT, TOKEN, [TOKEN])
  {
    hide AfterToken, FromFen, Initial;
    InitialFromText();
    AdvancePlays();
    var next := AfterToken(Initial(), TOKEN).value;
    assert PlaysOut(next, [TOKEN][1..]);
    assert PlaysOut(Initial(), [TOKEN]);
  }

  lemma FirstFields()
    ensures FieldsValid(OwnContext(FIRST), FIRST)
  {
    assert |ROWS| == 43;
  }

  /** A valid observation of the starting position, the first of its run. */
  lemma FirstValid()
    ensures Validates(OwnContext(FIRST), FIRST) && FIRST.sequence == 0
  {
    hide FieldsValid, LinePlays;
    FirstFields();
    FirstPlays();
  }

  // ----- the two answers -----

  /** Whatever valid observation comes first to a run begun without an expected count, the ledger accepts it
      and the hosted store refuses it. */
  lemma UncountedRunDiffers(maxRuns: nat, maxObservations: nat, accounts: Accounts, owner: string, o: Observation)
    requires maxRuns > 0 && maxObservations > 0 && OwnerFits(owner)
    requires Validates(OwnContext(o), o) && o.sequence == 0
    requires owner in accounts.owners && (o.gameId, owner) in accounts.games
    ensures var begin := Begin(owner, RunContext(o.gameId, o.runId, o.profile, 0));
            var submit := Submit(owner, OwnContext(o), o);
            var ledger := LedgerStep(Ledger(maxRuns, maxObservations, map[]), begin);
            var hosted := HostedStep(Tables(map[], map[]), accounts, begin);
            && ledger.1 == Begun && hosted.1 == Begun
            && LedgerStep(ledger.0, submit).1 == Accepted(0)
            && HostedStep(hosted.0, accounts, submit).1 == Refused(Violation)
  {
    hide LinePlays, RunKey, OpaqueId;
    IdBounded(o.runId);
    IdBounded(o.gameId);
    assert RunContextValid(RunContext(o.gameId, o.runId, o.profile, 0));
  }

  lemma IdBounded(id: string)
    requires OpaqueId(id)
    ensures 1 <= |id| <= MAX_ID
  {
  }
}
