/** Assembling a review from a bundle of observations: each position of the game before and after its
    move, whatever order the bundle is in. */
module BrowserReviews {
  import opened Positions
  import opened Observations
  import Pgn

  /** What an observation says of its position: one principal variation and the best move. */
  datatype EngineResult = EngineResult(rank: int, depth: int, centipawns: Option<int>, mate: Option<int>, nodes: nat,
                                       timeMs: nat, moves: seq<string>, bestMove: string)

  datatype ReviewFault = EmptyGame | WrongSize | Invalid | OtherGame | MixedRun | RepeatedSequence | OutsideGame
                       | NotCanonical | RepeatedPosition | MissingSequence | Uncovered

  datatype Outcome<+T> = Ok(value: T) | Failed(fault: ReviewFault)

  type Slots = seq<Option<EngineResult>>

  /** What the loop has gathered: results by ply before and after the move, sequences, the run's metadata. */
  datatype Tally = Tally(before: Slots, after: Slots, sequences: set<nat>, runId: string, profile: string, version: string)

  datatype Review = Review(before: seq<EngineResult>, after: seq<EngineResult>, profile: string, version: string)

  function FirstLine(lines: seq<Line>): Line {
    if lines == [] then Line(1, None, None, []) else lines[0]
  }

  function ResultOf(o: Observation): EngineResult {
    var line := FirstLine(o.search.lines);
    EngineResult(o.search.multipv, o.search.depth, line.centipawns, line.mate, o.search.nodes, o.search.timeMs, line.moves,
                 o.search.bestMove)
  }

  function Empty(n: nat): Tally {
    Tally(seq(n, _ => None), seq(n, _ => None), {}, "", "", "")
  }

  function SlotsOf(t: Tally, isBefore: bool): Slots {
    if isBefore then t.before else t.after
  }

  predicate SizedFor(t: Tally, n: nat) {
    |t.before| == n && |t.after| == n
  }

  predicate FitsRun(t: Tally, o: Observation) {
    t.runId == "" || (o.runId == t.runId && o.profile == t.profile && o.engine.version == t.version)
  }

  function Named(t: Tally, o: Observation): Tally {
    if t.runId == "" then t.(runId := o.runId, profile := o.profile, version := o.engine.version) else t
  }

  function Filled(t: Tally, o: Observation, isBefore: bool): Tally
    requires o.ply < |t.before| && o.ply < |t.after|
  {
    var noted := Named(t, o).(sequences := t.sequences + {o.sequence});
    if isBefore then noted.(before := t.before[o.ply := Some(ResultOf(o))])
    else noted.(after := t.after[o.ply := Some(ResultOf(o))])
  }

  predicate IsBefore(game: Pgn.Game, o: Observation)
    requires o.ply < |game.plies|
  {
    o.fen == game.plies[o.ply].before
  }

  predicate IsAfter(game: Pgn.Game, o: Observation)
    requires o.ply < |game.plies|
  {
    o.fen == game.plies[o.ply].after
  }

  /** One round of the loop. `valid` is the verdict of validating the observation in its own context. */
  function CountOne(game: Pgn.Game, t: Tally, o: Observation, valid: bool): (next: Outcome<Tally>)
    requires SizedFor(t, |game.plies|)
    ensures next.Ok? ==> SizedFor(next.value, |game.plies|) && next.value.sequences == t.sequences + {o.sequence}
  {
    if !valid then Failed(Invalid)
    else if o.gameId != game.identity then Failed(OtherGame)
    else if !FitsRun(t, o) then Failed(MixedRun)
    else if o.sequence in t.sequences then Failed(RepeatedSequence)
    else if o.ply >= |game.plies| then Failed(OutsideGame)
    else if IsBefore(game, o) == IsAfter(game, o) then Failed(NotCanonical)
    else if SlotsOf(t, IsBefore(game, o))[o.ply].Some? then Failed(RepeatedPosition)
    else Ok(Filled(t, o, IsBefore(game, o)))
  }

  ghost predicate Valid(o: Observation) {
    Validates(OwnContext(o), o)
  }

  function CountNext(game: Pgn.Game, before: Outcome<Tally>, o: Observation, valid: bool): (next: Outcome<Tally>)
    requires before.Ok? ==> SizedFor(before.value, |game.plies|)
    ensures next.Ok? ==> SizedFor(next.value, |game.plies|)
  {
    match before
    case Failed(fault) => Failed(fault)
    case Ok(t) => CountOne(game, t, o, valid)
  }

  ghost function Counted(game: Pgn.Game, observations: seq<Observation>): (tally: Outcome<Tally>)
    ensures tally.Ok? ==> SizedFor(tally.value, |game.plies|)
    decreases |observations|
  {
    if observations == [] then Ok(Empty(|game.plies|))
    else
      var last := observations[|observations| - 1];
      CountNext(game, Counted(game, observations[..|observations| - 1]), last, Valid(last))
  }

  predicate Covered(slots: Slots) {
    forall k :: 0 <= k < |slots| ==> slots[k].Some?
  }

  function Results(slots: Slots): seq<EngineResult>
    requires Covered(slots)
  {
    seq(|slots|, k requires 0 <= k < |slots| => slots[k].value)
  }

  function Closed(count: nat, t: Tally): Outcome<Review> {
    if !forall sequence :: 0 <= sequence < count ==> sequence in t.sequences then Failed(MissingSequence)
    else if !Covered(t.before) || !Covered(t.after) then Failed(Uncovered)
    else Ok(Review(Results(t.before), Results(t.after), t.profile, t.version))
  }

  ghost function Assembled(game: Pgn.Game, observations: seq<Observation>): Outcome<Review> {
    if game.plies == [] then Failed(EmptyGame)
    else if |game.plies| > MAX_RUN / 2 || |observations| != 2 * |game.plies| then Failed(WrongSize)
    else
      match Counted(game, observations)
      case Failed(fault) => Failed(fault)
      case Ok(t) => Closed(|observations|, t)
  }

  // ----- the same, of a bundle in no order -----

  /** An observation valid in itself and of one position of the game. */
  ghost predicate Fits(game: Pgn.Game, o: Observation) {
    Valid(o) && o.gameId == game.identity && o.ply < |game.plies| && IsBefore(game, o) != IsAfter(game, o)
  }

  /** Two observations of one run, at different sequences and of different positions. */
  predicate Together(a: Observation, b: Observation) {
    && a.runId == b.runId && a.profile == b.profile && a.sequence != b.sequence
    && (a.ply != b.ply || a.fen != b.fen)
  }

  ghost predicate Consistent(game: Pgn.Game, bundle: multiset<Observation>) {
    && (forall o :: o in bundle ==> bundle[o] == 1 && Fits(game, o))
    && (forall a, b :: a in bundle && b in bundle && a != b ==> Together(a, b))
  }

  ghost predicate HasSequence(bundle: multiset<Observation>, sequence: nat) {
    exists o :: o in bundle && o.sequence == sequence
  }

  ghost predicate HasPosition(game: Pgn.Game, bundle: multiset<Observation>, ply: nat, isBefore: bool) {
    exists o :: o in bundle && o.ply == ply && o.ply < |game.plies| && IsBefore(game, o) == isBefore
  }

  ghost predicate HoldsEach(game: Pgn.Game, t: Tally, bundle: multiset<Observation>)
    requires SizedFor(t, |game.plies|)
  {
    forall o :: o in bundle ==> o.ply < |game.plies| && SlotsOf(t, IsBefore(game, o))[o.ply] == Some(ResultOf(o))
  }

  ghost predicate HoldsOnly(game: Pgn.Game, t: Tally, bundle: multiset<Observation>)
    requires SizedFor(t, |game.plies|)
  {
    forall k, isBefore :: 0 <= k < |game.plies| && SlotsOf(t, isBefore)[k].Some? ==> HasPosition(game, bundle, k, isBefore)
  }

  ghost predicate HoldsSequences(t: Tally, bundle: multiset<Observation>) {
    forall sequence :: sequence in t.sequences <==> HasSequence(bundle, sequence)
  }

  ghost predicate NamesRun(t: Tally, bundle: multiset<Observation>) {
    && (forall o :: o in bundle ==> t.runId != "" && o.runId == t.runId && o.profile == t.profile && o.engine.version == t.version)
    && (bundle == multiset{} ==> t.runId == "" && t.profile == "" && t.version == "")
  }

  /** The tally holds each observation at its position, and nothing else. */
  ghost predicate TallyOf(game: Pgn.Game, t: Tally, bundle: multiset<Observation>) {
    && SizedFor(t, |game.plies|) && HoldsEach(game, t, bundle) && HoldsOnly(game, t, bundle)
    && HoldsSequences(t, bundle) && NamesRun(t, bundle)
  }

  // ----- the loop gathers exactly the consistent bundles -----

  lemma BundleGrows(observations: seq<Observation>)
    requires observations != []
    ensures multiset(observations) ==
            multiset(observations[..|observations| - 1]) + multiset{observations[|observations| - 1]}
  {
    assert observations == observations[..|observations| - 1] + [observations[|observations| - 1]];
  }

  /** A further observation keeps a bundle consistent exactly when it fits the game and every other. */
  lemma ConsistentGrows(game: Pgn.Game, bundle: multiset<Observation>, o: Observation)
    ensures Consistent(game, bundle + multiset{o}) <==>
            Consistent(game, bundle) && Fits(game, o) && forall a :: a in bundle ==> Together(a, o)
  {
    hide Fits;
    var grown := bundle + multiset{o};
    assert o in grown;
    assert forall a :: a in grown <==> a in bundle || a == o;
    if Consistent(game, grown) {
      assert grown[o] == 1 && o !in bundle;
      assert forall a :: a in bundle ==> a in grown && grown[a] == bundle[a];
    }
    assert !Together(o, o);
  }

  /** Where the gathered results stand when a further observation comes. */
  lemma SlotTaken(game: Pgn.Game, t: Tally, bundle: multiset<Observation>, o: Observation)
    requires TallyOf(game, t, bundle) && Fits(game, o) && forall a :: a in bundle ==> Fits(game, a)
    ensures SlotsOf(t, IsBefore(game, o))[o.ply].Some? <==> exists a :: a in bundle && a.ply == o.ply && a.fen == o.fen
  {
    hide Valid;
    var isBefore := IsBefore(game, o);
    if SlotsOf(t, isBefore)[o.ply].Some? {
      assert HasPosition(game, bundle, o.ply, isBefore);
      var a :| a in bundle && a.ply == o.ply && IsBefore(game, a) == isBefore;
      assert Fits(game, a);
    }
    if a :| a in bundle && a.ply == o.ply && a.fen == o.fen {
      assert SlotsOf(t, IsBefore(game, a))[a.ply] == Some(ResultOf(a));
    }
  }

  /** A round of the loop succeeds exactly when the observation fits the game and all those before it. */
  lemma RoundExact(game: Pgn.Game, t: Tally, bundle: multiset<Observation>, o: Observation)
    requires TallyOf(game, t, bundle) && forall a :: a in bundle ==> Fits(game, a)
    ensures CountOne(game, t, o, Valid(o)).Ok? <==> Fits(game, o) && forall a :: a in bundle ==> Together(a, o)
  {
    hide Valid;
    if Fits(game, o) {
      SlotTaken(game, t, bundle, o);
      ValidVersion(o);
      assert o.sequence in t.sequences <==> HasSequence(bundle, o.sequence);
      if bundle != multiset{} {
        var a :| a in bundle;
        ValidVersion(a);
      }
    }
  }

  lemma ValidVersion(o: Observation)
    requires Valid(o)
    ensures o.engine.version == ENGINE_VERSION && o.runId != ""
  {
    hide LinePlays, SearchFits;
  }

  lemma SlotsGrow(game: Pgn.Game, t: Tally, bundle: multiset<Observation>, o: Observation)
    requires TallyOf(game, t, bundle) && o.ply < |game.plies| && SlotsOf(t, IsBefore(game, o))[o.ply].None?
    ensures HoldsEach(game, Filled(t, o, IsBefore(game, o)), bundle + multiset{o})
    ensures HoldsOnly(game, Filled(t, o, IsBefore(game, o)), bundle + multiset{o})
  {
    hide NamesRun, HoldsSequences, ResultOf;
    var next := Filled(t, o, IsBefore(game, o));
    var grown := bundle + multiset{o};
    assert HasPosition(game, grown, o.ply, IsBefore(game, o));
    forall k, isBefore | 0 <= k < |game.plies| && SlotsOf(next, isBefore)[k].Some?
      ensures HasPosition(game, grown, k, isBefore)
    {
      if k != o.ply || isBefore != IsBefore(game, o) {
        assert HasPosition(game, bundle, k, isBefore);
      }
    }
  }

  lemma SequencesGrow(t: Tally, next: Tally, bundle: multiset<Observation>, o: Observation)
    requires HoldsSequences(t, bundle) && next.sequences == t.sequences + {o.sequence}
    ensures HoldsSequences(next, bundle + multiset{o})
  {
    var grown := bundle + multiset{o};
    assert HasSequence(grown, o.sequence) by {
      assert o in grown;
    }
    forall sequence: nat
      ensures sequence in next.sequences <==> HasSequence(grown, sequence)
    {
      assert sequence in t.sequences <==> HasSequence(bundle, sequence);
    }
  }

  lemma TallyGrows(game: Pgn.Game, t: Tally, bundle: multiset<Observation>, o: Observation)
    requires TallyOf(game, t, bundle) && CountOne(game, t, o, Valid(o)).Ok?
    ensures TallyOf(game, CountOne(game, t, o, Valid(o)).value, bundle + multiset{o})
  {
    hide Valid, HoldsEach, HoldsOnly, HoldsSequences, ResultOf;
    ValidVersion(o);
    SlotsGrow(game, t, bundle, o);
    SequencesGrow(t, Filled(t, o, IsBefore(game, o)), bundle, o);
  }

  /** The loop gathers a bundle without a fault exactly when it is consistent, in whatever order it comes;
      the tally is then that of the bundle. */
  lemma {:induction false} CountedExact(game: Pgn.Game, observations: seq<Observation>)
    ensures Counted(game, observations).Ok? <==> Consistent(game, multiset(observations))
    ensures Counted(game, observations).Ok? ==> TallyOf(game, Counted(game, observations).value, multiset(observations))
    decreases |observations|
  {
    hide Valid, TallyOf, Consistent, CountOne, Fits;
    if observations == [] {
      EmptyTally(game);
    } else {
      var shorter, last := observations[..|observations| - 1], observations[|observations| - 1];
      CountedExact(game, shorter);
      BundleGrows(observations);
      ConsistentGrows(game, multiset(shorter), last);
      if Counted(game, shorter).Ok? {
        var t := Counted(game, shorter).value;
        ConsistentFits(game, multiset(shorter));
        RoundExact(game, t, multiset(shorter), last);
        if CountOne(game, t, last, Valid(last)).Ok? {
          TallyGrows(game, t, multiset(shorter), last);
        }
      }
    }
  }

  lemma EmptyTally(game: Pgn.Game)
    ensures Consistent(game, multiset{}) && TallyOf(game, Empty(|game.plies|), multiset{})
  {
    assert forall sequence :: !HasSequence(multiset{}, sequence);
  }

  lemma ConsistentFits(game: Pgn.Game, bundle: multiset<Observation>)
    requires Consistent(game, bundle)
    ensures forall a :: a in bundle ==> Fits(game, a)
  {
  }

  /** A bundle has one tally. */
  lemma TallyUnique(game: Pgn.Game, a: Tally, b: Tally, bundle: multiset<Observation>)
    requires TallyOf(game, a, bundle) && TallyOf(game, b, bundle)
    ensures a == b
  {
    SlotsUnique(game, a, b, bundle, true);
    SlotsUnique(game, a, b, bundle, false);
    assert forall sequence :: sequence in a.sequences <==> HasSequence(bundle, sequence);
    if bundle != multiset{} {
      var o :| o in bundle;
      assert a.runId == o.runId && b.runId == o.runId;
    }
  }

  lemma SlotsUnique(game: Pgn.Game, a: Tally, b: Tally, bundle: multiset<Observation>, isBefore: bool)
    requires TallyOf(game, a, bundle) && TallyOf(game, b, bundle)
    ensures SlotsOf(a, isBefore) == SlotsOf(b, isBefore)
  {
    forall k | 0 <= k < |game.plies|
      ensures SlotsOf(a, isBefore)[k] == SlotsOf(b, isBefore)[k]
    {
      if SlotsOf(a, isBefore)[k].Some? || SlotsOf(b, isBefore)[k].Some? {
        assert HasPosition(game, bundle, k, isBefore);
        var o :| o in bundle && o.ply == k && IsBefore(game, o) == isBefore;
      }
    }
  }

  // ----- every position is covered -----

  function Taken(slots: Slots): (count: nat)
    ensures count <= |slots|
  {
    if slots == [] then 0
    else Taken(slots[..|slots| - 1]) + if slots[|slots| - 1].Some? then 1 else 0
  }

  lemma {:induction false} FillingTakes(slots: Slots, k: nat, result: EngineResult)
    requires k < |slots| && slots[k].None?
    ensures Taken(slots[k := Some(result)]) == Taken(slots) + 1
    decreases |slots|
  {
    var last := |slots| - 1;
    if k == last {
      assert slots[k := Some(result)][..last] == slots[..last];
    } else {
      assert slots[k := Some(result)][..last] == slots[..last][k := Some(result)];
      FillingTakes(slots[..last], k, result);
    }
  }

  lemma {:induction false} AllTaken(slots: Slots)
    ensures Taken(slots) == |slots| <==> Covered(slots)
    decreases |slots|
  {
    if slots != [] {
      AllTaken(slots[..|slots| - 1]);
      assert forall k :: 0 <= k < |slots| - 1 ==> slots[..|slots| - 1][k] == slots[k];
    }
  }

  lemma {:induction false} NoneTaken(n: nat)
    ensures Taken(seq<Option<EngineResult>>(n, _ => None)) == 0
  {
    if n > 0 {
      NoneTaken(n - 1);
      assert seq<Option<EngineResult>>(n, _ => None)[..n - 1] == seq<Option<EngineResult>>(n - 1, _ => None);
    }
  }

  /** Every observation gathered takes a position of its own. */
  lemma {:induction false} OnePositionEach(game: Pgn.Game, observations: seq<Observation>)
    ensures Counted(game, observations).Ok? ==>
              var t := Counted(game, observations).value;
              Taken(t.before) + Taken(t.after) == |observations|
    decreases |observations|
  {
    hide Valid;
    if observations == [] {
      NoneTaken(|game.plies|);
    } else {
      var shorter, last := observations[..|observations| - 1], observations[|observations| - 1];
      OnePositionEach(game, shorter);
      if Counted(game, observations).Ok? {
        var t := Counted(game, shorter).value;
        FillingTakes(SlotsOf(t, IsBefore(game, last)), last.ply, ResultOf(last));
      }
    }
  }

  /** The last check, that every position is covered, never fails: twice as many observations as plies,
      each at a position of its own, leave none open. */
  lemma {:induction false} CoverageNeverFails(game: Pgn.Game, observations: seq<Observation>)
    ensures Assembled(game, observations) != Failed(Uncovered)
    ensures |observations| == 2 * |game.plies| && Counted(game, observations).Ok? ==>
              Covered(Counted(game, observations).value.before) && Covered(Counted(game, observations).value.after)
  {
    hide Valid, CountOne, CountNext;
    OnePositionEach(game, observations);
    if Counted(game, observations).Ok? {
      AllTaken(Counted(game, observations).value.before);
      AllTaken(Counted(game, observations).value.after);
    }
    CountingCovers(game, observations);
  }

  lemma {:induction false} CountingCovers(game: Pgn.Game, observations: seq<Observation>)
    ensures Counted(game, observations) != Failed(Uncovered)
    decreases |observations|
  {
    hide Valid;
    if observations != [] {
      CountingCovers(game, observations[..|observations| - 1]);
    }
  }

  // ----- the review -----

  /** What a bundle must be for its review: of a game of the right length, consistent, and with every
      sequence from zero. */
  ghost predicate Reviewable(game: Pgn.Game, bundle: multiset<Observation>) {
    && 1 <= |game.plies| <= MAX_RUN / 2 && |bundle| == 2 * |game.plies| && Consistent(game, bundle)
    && forall sequence :: 0 <= sequence < |bundle| ==> HasSequence(bundle, sequence)
  }

  /** A review is assembled exactly from a reviewable bundle, and holds each observation's result at its
      position. */
  lemma AssembledExact(game: Pgn.Game, observations: seq<Observation>)
    ensures Assembled(game, observations).Ok? <==> Reviewable(game, multiset(observations))
    ensures Assembled(game, observations).Ok? ==>
              var review := Assembled(game, observations).value;
              && |review.before| == |game.plies| && |review.after| == |game.plies|
              && (forall o :: o in observations ==>
                    && o.ply < |game.plies| && o.profile == review.profile
                    && (if IsBefore(game, o) then review.before else review.after)[o.ply] == ResultOf(o))
  {
    hide Valid, Consistent, CountOne, CountNext, Counted, Fits;
    var bundle := multiset(observations);
    CountedExact(game, observations);
    CoverageNeverFails(game, observations);
    if Counted(game, observations).Ok? {
      var t := Counted(game, observations).value;
      assert forall o :: o in observations ==> o in bundle;
      assert forall sequence :: sequence in t.sequences <==> HasSequence(bundle, sequence);
    }
  }

  /** The review does not depend on the order of the bundle. */
  lemma OrderIrrelevant(game: Pgn.Game, a: seq<Observation>, b: seq<Observation>)
    requires multiset(a) == multiset(b)
    ensures Assembled(game, a).Ok? <==> Assembled(game, b).Ok?
    ensures Assembled(game, a).Ok? ==> Assembled(game, a) == Assembled(game, b)
  {
    hide Valid, Counted, Reviewable, TallyOf, Consistent, Closed;
    AssembledExact(game, a);
    AssembledExact(game, b);
    if Assembled(game, a).Ok? {
      CountedExact(game, a);
      CountedExact(game, b);
      TallyUnique(game, Counted(game, a).value, Counted(game, b).value, multiset(a));
      assert |a| == |multiset(a)| == |b|;
    }
  }

  // ----- the loop -----

  lemma {:induction false} FaultStays(game: Pgn.Game, observations: seq<Observation>, i: nat)
    requires i <= |observations| && Counted(game, observations[..i]).Failed?
    ensures Counted(game, observations) == Counted(game, observations[..i])
    decreases |observations|
  {
    hide Valid, CountOne;
    if i == |observations| {
      assert observations[..i] == observations;
    } else {
      assert observations[..|observations| - 1][..i] == observations[..i];
      FaultStays(game, observations[..|observations| - 1], i);
    }
  }

  lemma {:induction false} CountedStep(game: Pgn.Game, observations: seq<Observation>, i: nat)
    requires i < |observations|
    ensures Counted(game, observations[..i + 1]) ==
            CountNext(game, Counted(game, observations[..i]), observations[i], Valid(observations[i]))
  {
    hide Valid, CountNext;
    assert observations[..i + 1][..i] == observations[..i] && observations[..i + 1][i] == observations[i];
  }

  /** The loop over the bundle, its checks in order. `valid` holds the verdict of validating each
      observation in its own context. */
  method GatherResults(game: Pgn.Game, observations: seq<Observation>, valid: seq<bool>) returns (tally: Outcome<Tally>)
    requires |valid| == |observations| && forall i :: 0 <= i < |observations| ==> valid[i] == Valid(observations[i])
    ensures tally == Counted(game, observations)
  {
    hide Valid, Counted;
    var before: Slots, after: Slots := seq(|game.plies|, _ => None), seq(|game.plies|, _ => None);
    var sequences: set<nat> := {};
    var runId, profile, version := "", "", "";
    CountedNone(game, observations);
    for i := 0 to |observations|
      invariant |before| == |game.plies| && |after| == |game.plies|
      invariant Counted(game, observations[..i]) == Ok(Tally(before, after, sequences, runId, profile, version))
    {
      var o := observations[i];
      CountedStep(game, observations, i);
      ghost var next := Counted(game, observations[..i + 1]);
      if next.Failed? {
        FaultStays(game, observations, i + 1);
      }
      if !valid[i] {
        return Failed(Invalid);
      }
      if o.gameId != game.identity {
        return Failed(OtherGame);
      }
      if runId == "" {
        runId, profile, version := o.runId, o.profile, o.engine.version;
      } else if o.runId != runId || o.profile != profile || o.engine.version != version {
        return Failed(MixedRun);
      }
      if o.sequence in sequences {
        return Failed(RepeatedSequence);
      }
      sequences := sequences + {o.sequence};
      if o.ply >= |game.plies| {
        return Failed(OutsideGame);
      }
      var isBefore, isAfter := o.fen == game.plies[o.ply].before, o.fen == game.plies[o.ply].after;
      if isBefore == isAfter {
        return Failed(NotCanonical);
      }
      if (if isBefore then before else after)[o.ply].Some? {
        return Failed(RepeatedPosition);
      }
      if isBefore {
        before := before[o.ply := Some(ResultOf(o))];
      } else {
        after := after[o.ply := Some(ResultOf(o))];
      }
    }
    assert observations[..|observations|] == observations;
    return Ok(Tally(before, after, sequences, runId, profile, version));
  }

  lemma {:induction false} CountedNone(game: Pgn.Game, observations: seq<Observation>)
    ensures Counted(game, observations[..0]) == Ok(Empty(|game.plies|))
  {
  }

  method AssembleReview(game: Pgn.Game, observations: seq<Observation>, valid: seq<bool>) returns (outcome: Outcome<Review>)
    requires |valid| == |observations| && forall i :: 0 <= i < |observations| ==> valid[i] == Valid(observations[i])
    ensures outcome == Assembled(game, observations)
  {
    hide Valid, Counted;
    if game.plies == [] {
      return Failed(EmptyGame);
    }
    if |game.plies| > MAX_RUN / 2 || |observations| != 2 * |game.plies| {
      return Failed(WrongSize);
    }
    var tally := GatherResults(game, observations, valid);
    if tally.Failed? {
      return Failed(tally.fault);
    }
    var t := tally.value;
    for sequence := 0 to |observations|
      invariant forall earlier :: 0 <= earlier < sequence ==> earlier in t.sequences
    {
      if sequence !in t.sequences {
        return Failed(MissingSequence);
      }
    }
    var before, after := [], [];
    for k := 0 to |game.plies|
      invariant forall j :: 0 <= j < k ==> t.before[j].Some? && t.after[j].Some?
      invariant |before| == k && |after| == k
      invariant forall j :: 0 <= j < k ==> before[j] == t.before[j].value && after[j] == t.after[j].value
    {
      if t.before[k].None? || t.after[k].None? {
        return Failed(Uncovered);
      }
      before := before + [t.before[k].value];
      after := after + [t.after[k].value];
    }
    assert Covered(t.before) && Covered(t.after) && before == Results(t.before) && after == Results(t.after);
    return Ok(Review(before, after, t.profile, t.version));
  }
}
