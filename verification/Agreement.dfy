/** When two projections agree up to a set of cells that may differ, and how an event moves agreement.

    A shallow analysis is not observable once a full analysis exists, so agreement ignores it there. */
module Agreement {
  import opened Positions
  import opened Events

  function Visible(g: StoredGame): StoredGame {
    if g.analysis.Some? then g.(shallow := None) else g
  }

  predicate GameAgrees(ignoreShallow: bool, a: StoredGame, b: StoredGame) {
    if ignoreShallow then a.(shallow := None) == b.(shallow := None) else Visible(a) == Visible(b)
  }

  predicate DrillAgrees(ignoreHint: bool, ignoreStart: bool, a: Drill, b: Drill) {
    && a.(hintLevel := b.hintLevel, startedAt := b.startedAt) == b
    && (ignoreHint || a.hintLevel == b.hintLevel) && (ignoreStart || a.startedAt == b.startedAt)
  }

  ghost predicate GamesAgree(ignored: set<Cell>, a: map<string, StoredGame>, b: map<string, StoredGame>) {
    forall id :: (id in a <==> id in b) && (id in a ==> GameAgrees(Cell(ShallowTable, id) in ignored, a[id], b[id]))
  }

  ghost predicate DrillsAgree(ignored: set<Cell>, a: map<string, Drill>, b: map<string, Drill>) {
    forall id :: (id in a <==> id in b) &&
                  (id in a ==> DrillAgrees(Cell(HintTable, id) in ignored, Cell(StartTable, id) in ignored, a[id], b[id]))
  }

  predicate SameAt<V(==)>(a: map<string, V>, b: map<string, V>, key: string) {
    (key in a <==> key in b) && (key in a ==> a[key] == b[key])
  }

  ghost predicate MapsAgree<V>(ignored: set<Cell>, table: Table, a: map<string, V>, b: map<string, V>) {
    forall key :: Cell(table, key) in ignored || SameAt(a, b, key)
  }

  ghost predicate FieldAgrees<V>(ignored: set<Cell>, table: Table, a: V, b: V) {
    Cell(table, "") in ignored || a == b
  }

  ghost predicate Agree(ignored: set<Cell>, p: Projection, q: Projection) {
    && GamesAgree(ignored, p.games, q.games)
    && DrillsAgree(ignored, p.drills, q.drills)
    && MapsAgree(ignored, CompletionTable, p.completions, q.completions)
    && p.recommended == q.recommended
    && MapsAgree(ignored, JobTable, p.jobs, q.jobs)
    && FieldAgrees(ignored, PausedField, p.paused, q.paused)
    && p.batches == q.batches
    && FieldAgrees(ignored, ProfileField, p.profile, q.profile)
    && FieldAgrees(ignored, IdentityField, p.identity, q.identity)
    && p.archive == q.archive
    && MapsAgree(ignored, CheckpointTable, p.checkpoints, q.checkpoints)
    && FieldAgrees(ignored, SyncField, p.sync, q.sync)
    && MapsAgree(ignored, VariationTable, p.variations, q.variations)
    && p.reviews == q.reviews
  }

  // ----- an equivalence -----

  lemma AgreeSame(ignored: set<Cell>, p: Projection)
    ensures Agree(ignored, p, p)
  {
  }

  lemma GamesTransitive(ignored: set<Cell>, a: map<string, StoredGame>, b: map<string, StoredGame>, c: map<string, StoredGame>)
    requires GamesAgree(ignored, a, b) && GamesAgree(ignored, b, c)
    ensures GamesAgree(ignored, a, c)
    ensures GamesAgree(ignored, b, a)
  {
  }

  lemma DrillsTransitive(ignored: set<Cell>, a: map<string, Drill>, b: map<string, Drill>, c: map<string, Drill>)
    requires DrillsAgree(ignored, a, b) && DrillsAgree(ignored, b, c)
    ensures DrillsAgree(ignored, a, c)
    ensures DrillsAgree(ignored, b, a)
  {
  }

  lemma MapsTransitive<V>(ignored: set<Cell>, table: Table, a: map<string, V>, b: map<string, V>, c: map<string, V>)
    requires MapsAgree(ignored, table, a, b) && MapsAgree(ignored, table, b, c)
    ensures MapsAgree(ignored, table, a, c)
    ensures MapsAgree(ignored, table, b, a)
  {
    forall key
      ensures Cell(table, key) in ignored || SameAt(a, c, key)
      ensures Cell(table, key) in ignored || SameAt(b, a, key)
    {
      assert Cell(table, key) in ignored || (SameAt(a, b, key) && SameAt(b, c, key));
    }
  }

  lemma AgreeTransitive(ignored: set<Cell>, p: Projection, q: Projection, r: Projection)
    requires Agree(ignored, p, q) && Agree(ignored, q, r)
    ensures Agree(ignored, p, r)
    ensures Agree(ignored, q, p)
  {
    hide GamesAgree, DrillsAgree, MapsAgree, SameAt, GameAgrees, DrillAgrees;
    GamesTransitive(ignored, p.games, q.games, r.games);
    DrillsTransitive(ignored, p.drills, q.drills, r.drills);
    MapsTransitive(ignored, CompletionTable, p.completions, q.completions, r.completions);
    MapsTransitive(ignored, JobTable, p.jobs, q.jobs, r.jobs);
    MapsTransitive(ignored, CheckpointTable, p.checkpoints, q.checkpoints, r.checkpoints);
    MapsTransitive(ignored, VariationTable, p.variations, q.variations, r.variations);
  }

  lemma AgreeSymmetric(ignored: set<Cell>, p: Projection, q: Projection)
    requires Agree(ignored, p, q)
    ensures Agree(ignored, q, p)
  {
    hide Agree;
    AgreeSame(ignored, q);
    AgreeTransitive(ignored, p, q, q);
  }

  lemma MapsEqual<V>(table: Table, a: map<string, V>, b: map<string, V>)
    requires MapsAgree({}, table, a, b)
    ensures a == b
  {
    forall key
      ensures SameAt(a, b, key)
    {
      assert Cell(table, key) in {} || SameAt(a, b, key);
    }
    forall key
      ensures key in a.Keys <==> key in b.Keys
      ensures key in a ==> key in b && a[key] == b[key]
    {
      assert SameAt(a, b, key);
    }
  }

  lemma DrillsEqual(a: map<string, Drill>, b: map<string, Drill>)
    requires DrillsAgree({}, a, b)
    ensures a == b
  {
    forall key
      ensures key in a.Keys <==> key in b.Keys
      ensures key in a ==> key in b && a[key] == b[key]
    {
    }
  }

  lemma EqualAgrees(p: Projection, q: Projection)
    requires p.(games := q.games) == q
    requires p.games.Keys == q.games.Keys && forall id :: id in p.games ==> Visible(p.games[id]) == Visible(q.games[id])
    ensures Agree({}, p, q)
  {
    forall id
      ensures id in p.games <==> id in q.games
      ensures id in p.games ==> GameAgrees(false, p.games[id], q.games[id])
    {
      assert id in p.games.Keys <==> id in q.games.Keys;
    }
    assert GamesAgree({}, p.games, q.games);
    hide GamesAgree, Visible;
  }

  /** Agreement with nothing ignored is equality but for shallow analyses under a full one. */
  lemma AgreeExactly(p: Projection, q: Projection)
    ensures Agree({}, p, q) <==>
              && p.(games := q.games) == q && p.games.Keys == q.games.Keys
              && forall id :: id in p.games ==> Visible(p.games[id]) == Visible(q.games[id])
  {
    if Agree({}, p, q) {
      AgreedEqual(p, q);
    } else if p.(games := q.games) == q && p.games.Keys == q.games.Keys &&
              forall id :: id in p.games ==> Visible(p.games[id]) == Visible(q.games[id]) {
      EqualAgrees(p, q);
    }
    hide Agree, Visible;
  }

  lemma AgreedEqual(p: Projection, q: Projection)
    requires Agree({}, p, q)
    ensures p.(games := q.games) == q
    ensures p.games.Keys == q.games.Keys && forall id :: id in p.games ==> Visible(p.games[id]) == Visible(q.games[id])
  {
    MapsEqual(CompletionTable, p.completions, q.completions);
    MapsEqual(JobTable, p.jobs, q.jobs);
    MapsEqual(CheckpointTable, p.checkpoints, q.checkpoints);
    MapsEqual(VariationTable, p.variations, q.variations);
    DrillsEqual(p.drills, q.drills);
  }

  // ----- putting and removing -----

  lemma GamesPut(ignored: set<Cell>, a: map<string, StoredGame>, b: map<string, StoredGame>, id: string, x: StoredGame, y: StoredGame)
    requires GamesAgree(ignored, a, b) && GameAgrees(Cell(ShallowTable, id) in ignored, x, y)
    ensures GamesAgree(ignored, a[id := x], b[id := y])
  {
    hide GameAgrees;
  }

  lemma DrillsPut(ignored: set<Cell>, a: map<string, Drill>, b: map<string, Drill>, id: string, x: Drill, y: Drill)
    requires DrillsAgree(ignored, a, b)
    requires DrillAgrees(Cell(HintTable, id) in ignored, Cell(StartTable, id) in ignored, x, y)
    ensures DrillsAgree(ignored, a[id := x], b[id := y])
  {
    hide DrillAgrees;
  }

  lemma MapsPut<V>(ignored: set<Cell>, table: Table, a: map<string, V>, b: map<string, V>, key: string, value: V)
    requires MapsAgree(ignored, table, a, b)
    ensures MapsAgree(ignored, table, a[key := value], b[key := value])
  {
    forall k
      ensures Cell(table, k) in ignored || SameAt(a[key := value], b[key := value], k)
    {
      assert Cell(table, k) in ignored || SameAt(a, b, k);
    }
  }

  lemma MapsRemove<V>(ignored: set<Cell>, table: Table, a: map<string, V>, b: map<string, V>, key: string)
    requires MapsAgree(ignored, table, a, b)
    ensures MapsAgree(ignored, table, a - {key}, b - {key})
  {
    forall k
      ensures Cell(table, k) in ignored || SameAt(a - {key}, b - {key}, k)
    {
      assert Cell(table, k) in ignored || SameAt(a, b, k);
    }
  }

  // ----- the same event on both sides -----

  lemma GamesApply(ignored: set<Cell>, a: map<string, StoredGame>, b: map<string, StoredGame>, e: Entry)
    requires GamesAgree(ignored, a, b)
    ensures GamesAgree(ignored, GamesAfter(a, e), GamesAfter(b, e))
  {
    if e.content.GameImported? || e.content.AnalysisCompleted? || e.content.ShallowAnalysisCompleted? {
      GamesReplaced(ignored, a, b, e);
    }
    hide GamesAgree;
  }

  lemma GamesReplaced(ignored: set<Cell>, a: map<string, StoredGame>, b: map<string, StoredGame>, e: Entry)
    requires GamesAgree(ignored, a, b)
    requires e.content.GameImported? || e.content.AnalysisCompleted? || e.content.ShallowAnalysisCompleted?
    ensures GamesAgree(ignored, GamesAfter(a, e), GamesAfter(b, e))
  {
    match e.content
    case GameImported(game) =>
      var stored := StoredGame(game, None, e.at, 0, None);
      GamesPut(ignored, a, b, game.identity, stored, stored);
    case AnalysisCompleted(analysis) =>
      var id := analysis.gameId;
      if id in a {
        GamesPut(ignored, a, b, id, a[id].(analysis := Some(analysis), analyzedAt := e.at),
                 b[id].(analysis := Some(analysis), analyzedAt := e.at));
      }
    case ShallowAnalysisCompleted(shallow) =>
      var id := shallow.gameId;
      if id in a && a[id].analysis.None? {
        GamesPut(ignored, a, b, id, a[id].(shallow := Some(shallow)), b[id].(shallow := Some(shallow)));
      }
  }

  lemma DrillsApply(ignored: set<Cell>, a: map<string, Drill>, b: map<string, Drill>, e: Entry)
    requires DrillsAgree(ignored, a, b)
    ensures DrillsAgree(ignored, DrillsAfter(a, e), DrillsAfter(b, e))
  {
    if e.content.DrillCreated? || e.content.DrillAttempted? || e.content.DrillSessionUpdated? || e.content.DrillHintUpdated? {
      DrillsReplaced(ignored, a, b, e);
    }
    hide DrillsAgree;
  }

  lemma DrillsReplaced(ignored: set<Cell>, a: map<string, Drill>, b: map<string, Drill>, e: Entry)
    requires DrillsAgree(ignored, a, b)
    requires e.content.DrillCreated? || e.content.DrillAttempted? || e.content.DrillSessionUpdated? || e.content.DrillHintUpdated?
    ensures DrillsAgree(ignored, DrillsAfter(a, e), DrillsAfter(b, e))
  {
    match e.content
    case DrillCreated(drill) =>
      DrillsPut(ignored, a, b, drill.id, drill, drill);
    case DrillAttempted(id, attempt) =>
      if id in a {
        DrillsPut(ignored, a, b, id, a[id].(attempts := a[id].attempts + [attempt]),
                  b[id].(attempts := b[id].attempts + [attempt]));
      }
    case DrillSessionUpdated(id, hint, started) =>
      if id in a {
        DrillsPut(ignored, a, b, id, a[id].(hintLevel := hint, startedAt := started),
                  b[id].(hintLevel := hint, startedAt := started));
      }
    case DrillHintUpdated(id, hint) =>
      if id in a {
        DrillsPut(ignored, a, b, id, a[id].(hintLevel := hint), b[id].(hintLevel := hint));
      }
  }

  lemma CompletionsApply(ignored: set<Cell>, a: map<string, int>, b: map<string, int>, e: Entry)
    requires MapsAgree(ignored, CompletionTable, a, b)
    ensures MapsAgree(ignored, CompletionTable, CompletionsAfter(a, e), CompletionsAfter(b, e))
  {
    hide MapsAgree;
    if e.content.ResourceCompleted? {
      MapsPut(ignored, CompletionTable, a, b, e.content.resource, e.content.completedAt);
    }
  }

  lemma JobsApply(ignored: set<Cell>, a: map<string, string>, b: map<string, string>, e: Entry)
    requires MapsAgree(ignored, JobTable, a, b)
    ensures MapsAgree(ignored, JobTable, JobsAfter(a, e), JobsAfter(b, e))
  {
    hide MapsAgree;
    if e.content.AnalysisJobStateChanged? {
      MapsPut(ignored, JobTable, a, b, e.content.jobGame, e.content.status);
    }
  }

  lemma CheckpointsApply(ignored: set<Cell>, a: map<string, Checkpoint>, b: map<string, Checkpoint>, e: Entry)
    requires MapsAgree(ignored, CheckpointTable, a, b)
    ensures MapsAgree(ignored, CheckpointTable, CheckpointsAfter(a, e), CheckpointsAfter(b, e))
  {
    hide MapsAgree, CheckpointKey;
    if e.content.MonthCheckpointed? {
      MapsPut(ignored, CheckpointTable, a, b, CheckpointKey(e.content.checkpoint), e.content.checkpoint);
    }
  }

  lemma VariationsApply(ignored: set<Cell>, a: map<string, Variation>, b: map<string, Variation>, e: Entry)
    requires MapsAgree(ignored, VariationTable, a, b)
    ensures MapsAgree(ignored, VariationTable, VariationsAfter(a, e), VariationsAfter(b, e))
  {
    hide MapsAgree;
    if e.content.VariationSaved? {
      MapsPut(ignored, VariationTable, a, b, e.content.variation.id, e.content.variation);
    } else if e.content.VariationDeleted? {
      MapsRemove(ignored, VariationTable, a, b, e.content.deleted);
    }
  }

  /** The same event keeps agreement: no event reads a cell that may differ. */
  lemma ApplyAgree(ignored: set<Cell>, p: Projection, q: Projection, e: Entry)
    requires Agree(ignored, p, q)
    ensures Agree(ignored, Apply(p, e), Apply(q, e))
  {
    hide GamesAgree, DrillsAgree, MapsAgree, GamesAfter, DrillsAfter, CompletionsAfter, JobsAfter, CheckpointsAfter,
         VariationsAfter, BatchesAfter, ArchiveAfter, ReviewsAfter, RecommendedAfter;
    GamesApply(ignored, p.games, q.games, e);
    DrillsApply(ignored, p.drills, q.drills, e);
    CompletionsApply(ignored, p.completions, q.completions, e);
    JobsApply(ignored, p.jobs, q.jobs, e);
    CheckpointsApply(ignored, p.checkpoints, q.checkpoints, e);
    VariationsApply(ignored, p.variations, q.variations, e);
  }

  // ----- topics and overwriting -----

  /** The topic an event is about, if compaction keeps only the last event of its topic. */
  function TopicOf(c: Content): Option<Topic> {
    match c
    case ShallowAnalysisCompleted(shallow) => Some(Cell(ShallowTable, shallow.gameId))
    case DrillSessionUpdated(id, _, _) => Some(Cell(SessionTable, id))
    case DrillHintUpdated(id, _) => Some(Cell(SessionTable, id))
    case AnalysisJobStateChanged(game, _) => Some(Cell(JobTable, game))
    case ResourceCompleted(resource, _) => Some(Cell(CompletionTable, resource))
    case BatchStateChanged(_) => Some(Cell(PausedField, ""))
    case ChessComProfileUpdated(_) => Some(Cell(ProfileField, ""))
    case PlayerIdentityUpdated(_) => Some(Cell(IdentityField, ""))
    case SyncStateChanged(_) => Some(Cell(SyncField, ""))
    case MonthCheckpointed(checkpoint) => Some(Cell(CheckpointTable, CheckpointKey(checkpoint)))
    case VariationSaved(variation) => Some(Cell(VariationTable, variation.id))
    case VariationDeleted(id) => Some(Cell(VariationTable, id))
    case Undecodable(remnant) => if remnant.Named? then Some(remnant.topic) else None
    case _ => None
  }

  function Session(id: string): set<Cell> {
    {Cell(HintTable, id), Cell(StartTable, id)}
  }

  /** The cells an event fixes whatever they held. A full analysis makes the shallow one unobservable, an
      import and a new drill start afresh; an event that does not decode fixes nothing. */
  function Overwritten(c: Content): set<Cell> {
    match c
    case GameImported(game) => {Cell(ShallowTable, game.identity)}
    case AnalysisCompleted(analysis) => {Cell(ShallowTable, analysis.gameId)}
    case DrillCreated(drill) => Session(drill.id)
    case DrillSessionUpdated(id, _, _) => Session(id)
    case DrillHintUpdated(id, _) => {Cell(HintTable, id)}
    case BatchStateChanged(paused) => if paused.Some? then {Cell(PausedField, "")} else {}
    case Undecodable(_) => {}
    case _ => if TopicOf(c).Some? then {TopicOf(c).value} else {}
  }

  /** The two projections agree at one cell. */
  predicate CellAgrees(cell: Cell, p: Projection, q: Projection) {
    match cell.table
    case ShallowTable => cell.key in p.games && cell.key in q.games ==> Visible(p.games[cell.key]) == Visible(q.games[cell.key])
    case SessionTable => true
    case HintTable => cell.key in p.drills && cell.key in q.drills ==> p.drills[cell.key].hintLevel == q.drills[cell.key].hintLevel
    case StartTable => cell.key in p.drills && cell.key in q.drills ==> p.drills[cell.key].startedAt == q.drills[cell.key].startedAt
    case JobTable => SameAt(p.jobs, q.jobs, cell.key)
    case CompletionTable => SameAt(p.completions, q.completions, cell.key)
    case CheckpointTable => SameAt(p.checkpoints, q.checkpoints, cell.key)
    case VariationTable => SameAt(p.variations, q.variations, cell.key)
    case PausedField => cell.key == "" ==> p.paused == q.paused
    case ProfileField => cell.key == "" ==> p.profile == q.profile
    case IdentityField => cell.key == "" ==> p.identity == q.identity
    case SyncField => cell.key == "" ==> p.sync == q.sync
  }

  // ----- cells that may differ -----

  ghost predicate AgreeBeyond(wider: set<Cell>, ignored: set<Cell>, p: Projection, q: Projection) {
    forall cell :: cell in wider && cell !in ignored ==> CellAgrees(cell, p, q)
  }

  lemma MapsNarrow<V>(wider: set<Cell>, ignored: set<Cell>, table: Table, a: map<string, V>, b: map<string, V>)
    requires MapsAgree(wider, table, a, b)
    requires forall key :: Cell(table, key) in wider && Cell(table, key) !in ignored ==> SameAt(a, b, key)
    ensures MapsAgree(ignored, table, a, b)
  {
    forall key
      ensures Cell(table, key) in ignored || SameAt(a, b, key)
    {
      assert Cell(table, key) in wider || SameAt(a, b, key);
    }
  }

  lemma GamesNarrow(wider: set<Cell>, ignored: set<Cell>, p: Projection, q: Projection)
    requires GamesAgree(wider, p.games, q.games) && AgreeBeyond(wider, ignored, p, q)
    ensures GamesAgree(ignored, p.games, q.games)
  {
    forall id
      ensures id in p.games <==> id in q.games
      ensures id in p.games ==> GameAgrees(Cell(ShallowTable, id) in ignored, p.games[id], q.games[id])
    {
      var cell := Cell(ShallowTable, id);
      assert id in p.games ==> GameAgrees(cell in wider, p.games[id], q.games[id]);
      assert cell in wider && cell !in ignored ==> CellAgrees(cell, p, q);
    }
  }

  lemma DrillsNarrow(wider: set<Cell>, ignored: set<Cell>, p: Projection, q: Projection)
    requires DrillsAgree(wider, p.drills, q.drills) && AgreeBeyond(wider, ignored, p, q)
    ensures DrillsAgree(ignored, p.drills, q.drills)
  {
    forall id
      ensures id in p.drills <==> id in q.drills
      ensures id in p.drills ==>
                DrillAgrees(Cell(HintTable, id) in ignored, Cell(StartTable, id) in ignored, p.drills[id], q.drills[id])
    {
      var hint, start := Cell(HintTable, id), Cell(StartTable, id);
      assert id in p.drills ==> DrillAgrees(hint in wider, start in wider, p.drills[id], q.drills[id]);
      assert hint in wider && hint !in ignored ==> CellAgrees(hint, p, q);
      assert start in wider && start !in ignored ==> CellAgrees(start, p, q);
    }
  }

  lemma TablesNarrow(wider: set<Cell>, ignored: set<Cell>, p: Projection, q: Projection)
    requires Agree(wider, p, q) && AgreeBeyond(wider, ignored, p, q)
    ensures MapsAgree(ignored, CompletionTable, p.completions, q.completions)
    ensures MapsAgree(ignored, JobTable, p.jobs, q.jobs)
    ensures MapsAgree(ignored, CheckpointTable, p.checkpoints, q.checkpoints)
    ensures MapsAgree(ignored, VariationTable, p.variations, q.variations)
  {
    hide GamesAgree, DrillsAgree, MapsAgree, SameAt, Visible;
    forall key
      ensures Cell(CompletionTable, key) in wider && Cell(CompletionTable, key) !in ignored ==>
                SameAt(p.completions, q.completions, key)
      ensures Cell(JobTable, key) in wider && Cell(JobTable, key) !in ignored ==> SameAt(p.jobs, q.jobs, key)
      ensures Cell(CheckpointTable, key) in wider && Cell(CheckpointTable, key) !in ignored ==>
                SameAt(p.checkpoints, q.checkpoints, key)
      ensures Cell(VariationTable, key) in wider && Cell(VariationTable, key) !in ignored ==>
                SameAt(p.variations, q.variations, key)
    {
      assert CellAgrees(Cell(CompletionTable, key), p, q) ==> SameAt(p.completions, q.completions, key);
      assert CellAgrees(Cell(JobTable, key), p, q) ==> SameAt(p.jobs, q.jobs, key);
      assert CellAgrees(Cell(CheckpointTable, key), p, q) ==> SameAt(p.checkpoints, q.checkpoints, key);
      assert CellAgrees(Cell(VariationTable, key), p, q) ==> SameAt(p.variations, q.variations, key);
    }
    hide CellAgrees, AgreeBeyond;
    MapsNarrow(wider, ignored, CompletionTable, p.completions, q.completions);
    MapsNarrow(wider, ignored, JobTable, p.jobs, q.jobs);
    MapsNarrow(wider, ignored, CheckpointTable, p.checkpoints, q.checkpoints);
    MapsNarrow(wider, ignored, VariationTable, p.variations, q.variations);
  }

  lemma FieldsNarrow(wider: set<Cell>, ignored: set<Cell>, p: Projection, q: Projection)
    requires Agree(wider, p, q) && AgreeBeyond(wider, ignored, p, q)
    ensures FieldAgrees(ignored, PausedField, p.paused, q.paused) && FieldAgrees(ignored, ProfileField, p.profile, q.profile)
    ensures FieldAgrees(ignored, IdentityField, p.identity, q.identity) && FieldAgrees(ignored, SyncField, p.sync, q.sync)
  {
    hide GamesAgree, DrillsAgree, MapsAgree, SameAt, Visible;
    assert CellAgrees(Cell(PausedField, ""), p, q) ==> p.paused == q.paused;
    assert CellAgrees(Cell(ProfileField, ""), p, q) ==> p.profile == q.profile;
    assert CellAgrees(Cell(IdentityField, ""), p, q) ==> p.identity == q.identity;
    assert CellAgrees(Cell(SyncField, ""), p, q) ==> p.sync == q.sync;
  }

  /** Cells at which the projections agree need not be ignored, and more cells may be. */
  lemma AgreeNarrow(wider: set<Cell>, ignored: set<Cell>, p: Projection, q: Projection)
    requires Agree(wider, p, q) && AgreeBeyond(wider, ignored, p, q)
    ensures Agree(ignored, p, q)
  {
    GamesNarrow(wider, ignored, p, q);
    DrillsNarrow(wider, ignored, p, q);
    TablesNarrow(wider, ignored, p, q);
    FieldsNarrow(wider, ignored, p, q);
    hide AgreeBeyond, GamesAgree, DrillsAgree, MapsAgree, FieldAgrees, SameAt, GameAgrees, DrillAgrees, Visible;
  }

  /** Projections that agree do so at every cell not ignored. */
  lemma AgreeAtCell(ignored: set<Cell>, p: Projection, q: Projection, cell: Cell)
    requires Agree(ignored, p, q) && cell !in ignored
    ensures CellAgrees(cell, p, q)
  {
    assert cell == Cell(cell.table, cell.key);
    if cell.table.ShallowTable? {
      assert cell.key in p.games ==> GameAgrees(cell in ignored, p.games[cell.key], q.games[cell.key]);
    } else if cell.table.HintTable? || cell.table.StartTable? {
      assert cell.key in p.drills ==>
        DrillAgrees(Cell(HintTable, cell.key) in ignored, Cell(StartTable, cell.key) in ignored,
                    p.drills[cell.key], q.drills[cell.key]);
    }
  }

  // ----- overwriting -----

  predicate IsKeyed(table: Table) {
    table.JobTable? || table.CompletionTable? || table.CheckpointTable? || table.VariationTable?
  }

  predicate IsInPart(table: Table) {
    table.ShallowTable? || table.SessionTable? || table.HintTable? || table.StartTable?
  }

  lemma ShallowOverwriters(c: Content, id: string)
    requires Cell(ShallowTable, id) in Overwritten(c)
    ensures
      || (c.GameImported? && c.game.identity == id)
      || (c.AnalysisCompleted? && c.analysis.gameId == id)
      || (c.ShallowAnalysisCompleted? && c.shallow.gameId == id)
  {
    hide CheckpointKey;
  }

  lemma ShallowOverwritten(ignored: set<Cell>, a: map<string, StoredGame>, b: map<string, StoredGame>, e: Entry, id: string)
    requires GamesAgree(ignored, a, b) && Cell(ShallowTable, id) in Overwritten(e.content)
    ensures id in GamesAfter(a, e) && id in GamesAfter(b, e) ==> Visible(GamesAfter(a, e)[id]) == Visible(GamesAfter(b, e)[id])
  {
    ShallowOverwriters(e.content, id);
    assert id in a ==> GameAgrees(Cell(ShallowTable, id) in ignored, a[id], b[id]);
    assert id in a <==> id in b;
    hide GamesAgree, Overwritten;
  }

  lemma DrillOverwritten(a: map<string, Drill>, b: map<string, Drill>, e: Entry, id: string)
    requires id in DrillsAfter(a, e) && id in DrillsAfter(b, e)
    ensures Cell(HintTable, id) in Overwritten(e.content) ==> DrillsAfter(a, e)[id].hintLevel == DrillsAfter(b, e)[id].hintLevel
    ensures Cell(StartTable, id) in Overwritten(e.content) ==> DrillsAfter(a, e)[id].startedAt == DrillsAfter(b, e)[id].startedAt
  {
    hide CheckpointKey;
  }

  lemma TablesOverwritten(p: Projection, q: Projection, e: Entry, cell: Cell)
    requires cell in Overwritten(e.content) && IsKeyed(cell.table)
    ensures cell.table.JobTable? ==> SameAt(JobsAfter(p.jobs, e), JobsAfter(q.jobs, e), cell.key)
    ensures cell.table.CompletionTable? ==>
              SameAt(CompletionsAfter(p.completions, e), CompletionsAfter(q.completions, e), cell.key)
    ensures cell.table.CheckpointTable? ==>
              SameAt(CheckpointsAfter(p.checkpoints, e), CheckpointsAfter(q.checkpoints, e), cell.key)
    ensures cell.table.VariationTable? ==> SameAt(VariationsAfter(p.variations, e), VariationsAfter(q.variations, e), cell.key)
  {
    hide CheckpointKey;
  }

  lemma FieldsOverwritten(p: Projection, q: Projection, e: Entry, cell: Cell)
    requires cell in Overwritten(e.content)
    ensures cell.table.PausedField? ==> PausedAfter(p.paused, e) == PausedAfter(q.paused, e)
    ensures cell.table.ProfileField? ==> ProfileAfter(p.profile, e) == ProfileAfter(q.profile, e)
    ensures cell.table.IdentityField? ==> IdentityAfter(p.identity, e) == IdentityAfter(q.identity, e)
    ensures cell.table.SyncField? ==> SyncAfter(p.sync, e) == SyncAfter(q.sync, e)
  {
    hide CheckpointKey;
  }

  lemma ShallowFixed(ignored: set<Cell>, p: Projection, q: Projection, e: Entry, id: string)
    requires GamesAgree(ignored, p.games, q.games) && Cell(ShallowTable, id) in Overwritten(e.content)
    ensures CellAgrees(Cell(ShallowTable, id), Apply(p, e), Apply(q, e))
  {
    hide GamesAgree, DrillsAgree, MapsAgree, FieldAgrees, Overwritten, SameAt, Visible, GamesAfter, DrillsAfter, CompletionsAfter,
         RecommendedAfter, JobsAfter, PausedAfter, BatchesAfter, ProfileAfter, IdentityAfter, ArchiveAfter,
         CheckpointsAfter, SyncAfter, VariationsAfter, ReviewsAfter;
    ShallowOverwritten(ignored, p.games, q.games, e, id);
  }

  lemma HintFixed(p: Projection, q: Projection, e: Entry, id: string)
    requires Cell(HintTable, id) in Overwritten(e.content)
    ensures CellAgrees(Cell(HintTable, id), Apply(p, e), Apply(q, e))
  {
    hide GamesAgree, DrillsAgree, MapsAgree, FieldAgrees, Overwritten, SameAt, Visible, GamesAfter, DrillsAfter, CompletionsAfter,
         RecommendedAfter, JobsAfter, PausedAfter, BatchesAfter, ProfileAfter, IdentityAfter, ArchiveAfter,
         CheckpointsAfter, SyncAfter, VariationsAfter, ReviewsAfter;
    if id in DrillsAfter(p.drills, e) && id in DrillsAfter(q.drills, e) {
      DrillOverwritten(p.drills, q.drills, e, id);
    }
  }

  lemma StartFixed(p: Projection, q: Projection, e: Entry, id: string)
    requires Cell(StartTable, id) in Overwritten(e.content)
    ensures CellAgrees(Cell(StartTable, id), Apply(p, e), Apply(q, e))
  {
    hide GamesAgree, DrillsAgree, MapsAgree, FieldAgrees, Overwritten, SameAt, Visible, GamesAfter, DrillsAfter, CompletionsAfter,
         RecommendedAfter, JobsAfter, PausedAfter, BatchesAfter, ProfileAfter, IdentityAfter, ArchiveAfter,
         CheckpointsAfter, SyncAfter, VariationsAfter, ReviewsAfter;
    if id in DrillsAfter(p.drills, e) && id in DrillsAfter(q.drills, e) {
      DrillOverwritten(p.drills, q.drills, e, id);
    }
  }

  lemma PartFixed(ignored: set<Cell>, p: Projection, q: Projection, e: Entry, cell: Cell)
    requires GamesAgree(ignored, p.games, q.games) && cell in Overwritten(e.content) && IsInPart(cell.table)
    ensures CellAgrees(cell, Apply(p, e), Apply(q, e))
  {
    hide Apply, Overwritten, GamesAgree, Visible;
    assert cell == Cell(cell.table, cell.key);
    if cell.table.ShallowTable? {
      ShallowFixed(ignored, p, q, e, cell.key);
    } else if cell.table.HintTable? {
      HintFixed(p, q, e, cell.key);
    } else if cell.table.StartTable? {
      StartFixed(p, q, e, cell.key);
    }
  }

  lemma KeyedFixed(p: Projection, q: Projection, e: Entry, cell: Cell)
    requires cell in Overwritten(e.content) && IsKeyed(cell.table)
    ensures CellAgrees(cell, Apply(p, e), Apply(q, e))
  {
    hide GamesAgree, DrillsAgree, MapsAgree, FieldAgrees, Overwritten, SameAt, Visible, GamesAfter, DrillsAfter, CompletionsAfter,
         RecommendedAfter, JobsAfter, PausedAfter, BatchesAfter, ProfileAfter, IdentityAfter, ArchiveAfter,
         CheckpointsAfter, SyncAfter, VariationsAfter, ReviewsAfter;
    TablesOverwritten(p, q, e, cell);
  }

  lemma FieldFixed(p: Projection, q: Projection, e: Entry, cell: Cell)
    requires cell in Overwritten(e.content) && IsField(cell.table)
    ensures CellAgrees(cell, Apply(p, e), Apply(q, e))
  {
    hide GamesAgree, DrillsAgree, MapsAgree, FieldAgrees, Overwritten, SameAt, Visible, GamesAfter, DrillsAfter, CompletionsAfter,
         RecommendedAfter, JobsAfter, PausedAfter, BatchesAfter, ProfileAfter, IdentityAfter, ArchiveAfter,
         CheckpointsAfter, SyncAfter, VariationsAfter, ReviewsAfter;
    FieldsOverwritten(p, q, e, cell);
  }

  /** After an overwriting event the projections agree at the cell. */
  lemma OverwriteFixes(ignored: set<Cell>, p: Projection, q: Projection, e: Entry, cell: Cell)
    requires Agree(ignored, p, q) && cell in Overwritten(e.content)
    ensures CellAgrees(cell, Apply(p, e), Apply(q, e))
  {
    hide GamesAgree, DrillsAgree, MapsAgree, FieldAgrees, Apply, CellAgrees, Overwritten;
    if IsInPart(cell.table) {
      PartFixed(ignored, p, q, e, cell);
    } else if IsKeyed(cell.table) {
      KeyedFixed(p, q, e, cell);
    } else {
      FieldFixed(p, q, e, cell);
    }
  }

  /** What an event overwrites need no longer be ignored. */
  lemma OverwriteAgree(ignored: set<Cell>, p: Projection, q: Projection, e: Entry)
    requires Agree(ignored, p, q)
    ensures Agree(ignored - Overwritten(e.content), Apply(p, e), Apply(q, e))
  {
    hide Agree, Apply, CellAgrees, Overwritten;
    ApplyAgree(ignored, p, q, e);
    var left := ignored - Overwritten(e.content);
    forall cell | cell in ignored && cell !in left
      ensures CellAgrees(cell, Apply(p, e), Apply(q, e))
    {
      OverwriteFixes(ignored, p, q, e, cell);
    }
    AgreeNarrow(ignored, left, Apply(p, e), Apply(q, e));
  }

  // ----- not overwriting -----

  lemma GameKept(games: map<string, StoredGame>, e: Entry, id: string)
    requires Cell(ShallowTable, id) !in Overwritten(e.content)
    ensures SameAt(GamesAfter(games, e), games, id)
  {
    hide CheckpointKey;
  }

  lemma DrillKept(drills: map<string, Drill>, e: Entry, id: string)
    ensures Cell(HintTable, id) !in Overwritten(e.content) || Cell(StartTable, id) !in Overwritten(e.content) ==>
              (id in DrillsAfter(drills, e) <==> id in drills)
    ensures Cell(HintTable, id) !in Overwritten(e.content) && id in drills ==>
              DrillsAfter(drills, e)[id].hintLevel == drills[id].hintLevel
    ensures Cell(StartTable, id) !in Overwritten(e.content) && id in drills ==>
              DrillsAfter(drills, e)[id].startedAt == drills[id].startedAt
  {
    hide CheckpointKey;
  }

  lemma TablesKept(p: Projection, e: Entry, cell: Cell)
    requires cell !in Overwritten(e.content)
    ensures cell.table.JobTable? ==> SameAt(JobsAfter(p.jobs, e), p.jobs, cell.key)
    ensures cell.table.CompletionTable? ==> SameAt(CompletionsAfter(p.completions, e), p.completions, cell.key)
    ensures cell.table.CheckpointTable? ==> SameAt(CheckpointsAfter(p.checkpoints, e), p.checkpoints, cell.key)
    ensures cell.table.VariationTable? ==> SameAt(VariationsAfter(p.variations, e), p.variations, cell.key)
  {
    hide CheckpointKey;
    assert cell == Cell(cell.table, cell.key);
  }

  lemma FieldsKept(p: Projection, e: Entry, cell: Cell)
    requires cell !in Overwritten(e.content) && cell.key == ""
    ensures cell.table.PausedField? ==> PausedAfter(p.paused, e) == p.paused
    ensures cell.table.ProfileField? ==> ProfileAfter(p.profile, e) == p.profile
    ensures cell.table.IdentityField? ==> IdentityAfter(p.identity, e) == p.identity
    ensures cell.table.SyncField? ==> SyncAfter(p.sync, e) == p.sync
  {
    hide CheckpointKey;
    assert cell == Cell(cell.table, cell.key);
  }

  lemma KeepsShallow(p: Projection, q: Projection, e: Entry, id: string)
    requires Cell(ShallowTable, id) !in Overwritten(e.content)
    ensures CellAgrees(Cell(ShallowTable, id), Apply(p, e), Apply(q, e)) <==> CellAgrees(Cell(ShallowTable, id), p, q)
  {
    hide GamesAfter, DrillsAfter, CompletionsAfter, RecommendedAfter, JobsAfter, PausedAfter, BatchesAfter, ProfileAfter,
         IdentityAfter, ArchiveAfter, CheckpointsAfter, SyncAfter, VariationsAfter, ReviewsAfter, Overwritten, Visible;
    GameKept(p.games, e, id);
    GameKept(q.games, e, id);
  }

  lemma KeepsHint(p: Projection, q: Projection, e: Entry, id: string)
    requires Cell(HintTable, id) !in Overwritten(e.content)
    ensures CellAgrees(Cell(HintTable, id), Apply(p, e), Apply(q, e)) <==> CellAgrees(Cell(HintTable, id), p, q)
  {
    hide GamesAfter, DrillsAfter, CompletionsAfter, RecommendedAfter, JobsAfter, PausedAfter, BatchesAfter, ProfileAfter,
         IdentityAfter, ArchiveAfter, CheckpointsAfter, SyncAfter, VariationsAfter, ReviewsAfter, Overwritten, Visible;
    DrillKept(p.drills, e, id);
    DrillKept(q.drills, e, id);
  }

  lemma KeepsStart(p: Projection, q: Projection, e: Entry, id: string)
    requires Cell(StartTable, id) !in Overwritten(e.content)
    ensures CellAgrees(Cell(StartTable, id), Apply(p, e), Apply(q, e)) <==> CellAgrees(Cell(StartTable, id), p, q)
  {
    hide GamesAfter, DrillsAfter, CompletionsAfter, RecommendedAfter, JobsAfter, PausedAfter, BatchesAfter, ProfileAfter,
         IdentityAfter, ArchiveAfter, CheckpointsAfter, SyncAfter, VariationsAfter, ReviewsAfter, Overwritten, Visible;
    DrillKept(p.drills, e, id);
    DrillKept(q.drills, e, id);
  }

  lemma KeepsPart(p: Projection, q: Projection, e: Entry, cell: Cell)
    requires cell !in Overwritten(e.content) && IsInPart(cell.table)
    ensures CellAgrees(cell, Apply(p, e), Apply(q, e)) <==> CellAgrees(cell, p, q)
  {
    hide Apply, Overwritten, Visible;
    assert cell == Cell(cell.table, cell.key);
    if cell.table.ShallowTable? {
      KeepsShallow(p, q, e, cell.key);
    } else if cell.table.HintTable? {
      KeepsHint(p, q, e, cell.key);
    } else if cell.table.StartTable? {
      KeepsStart(p, q, e, cell.key);
    }
  }

  lemma KeepsKeyed(p: Projection, q: Projection, e: Entry, cell: Cell)
    requires cell !in Overwritten(e.content) && IsKeyed(cell.table)
    ensures CellAgrees(cell, Apply(p, e), Apply(q, e)) <==> CellAgrees(cell, p, q)
  {
    hide GamesAfter, DrillsAfter, CompletionsAfter, RecommendedAfter, JobsAfter, PausedAfter, BatchesAfter, ProfileAfter,
         IdentityAfter, ArchiveAfter, CheckpointsAfter, SyncAfter, VariationsAfter, ReviewsAfter, Overwritten, Visible;
    TablesKept(p, e, cell);
    TablesKept(q, e, cell);
  }

  lemma KeepsField(p: Projection, q: Projection, e: Entry, cell: Cell)
    requires cell !in Overwritten(e.content) && IsField(cell.table)
    ensures CellAgrees(cell, Apply(p, e), Apply(q, e)) <==> CellAgrees(cell, p, q)
  {
    hide GamesAfter, DrillsAfter, CompletionsAfter, RecommendedAfter, JobsAfter, PausedAfter, BatchesAfter, ProfileAfter,
         IdentityAfter, ArchiveAfter, CheckpointsAfter, SyncAfter, VariationsAfter, ReviewsAfter, Overwritten, Visible, SameAt;
    if cell.key == "" {
      FieldsKept(p, e, cell);
      FieldsKept(q, e, cell);
    }
  }

  /** A difference at a cell stays until an event overwrites it. */
  lemma KeepsDifference(p: Projection, q: Projection, e: Entry, cell: Cell)
    requires cell !in Overwritten(e.content)
    ensures CellAgrees(cell, Apply(p, e), Apply(q, e)) <==> CellAgrees(cell, p, q)
  {
    hide Apply, CellAgrees, Overwritten;
    if IsInPart(cell.table) {
      KeepsPart(p, q, e, cell);
    } else if IsKeyed(cell.table) {
      KeepsKeyed(p, q, e, cell);
    } else {
      KeepsField(p, q, e, cell);
    }
  }

  // ----- what an event of a topic touches -----

  lemma GamesTouched(ignored: set<Cell>, games: map<string, StoredGame>, e: Entry)
    requires TopicOf(e.content).Some? && Overwritten(e.content) <= ignored
    ensures GamesAgree(ignored, GamesAfter(games, e), games)
  {
    hide CheckpointKey;
    forall id | id in games
      ensures id in GamesAfter(games, e) && GameAgrees(Cell(ShallowTable, id) in ignored, GamesAfter(games, e)[id], games[id])
    {
    }
  }

  lemma DrillsTouched(ignored: set<Cell>, drills: map<string, Drill>, e: Entry)
    requires TopicOf(e.content).Some? && Overwritten(e.content) <= ignored
    ensures DrillsAgree(ignored, DrillsAfter(drills, e), drills)
  {
    hide CheckpointKey;
    var after := DrillsAfter(drills, e);
    forall id | id in drills
      ensures id in after &&
              DrillAgrees(Cell(HintTable, id) in ignored, Cell(StartTable, id) in ignored, after[id], drills[id])
    {
    }
  }

  lemma MapTouched<V>(ignored: set<Cell>, table: Table, a: map<string, V>, b: map<string, V>, touched: string)
    requires a == b || (Cell(table, touched) in ignored && forall key :: key != touched ==> SameAt(a, b, key))
    ensures MapsAgree(ignored, table, a, b)
  {
  }

  lemma TablesTouched(ignored: set<Cell>, p: Projection, e: Entry)
    requires TopicOf(e.content).Some? && Overwritten(e.content) <= ignored
    ensures MapsAgree(ignored, CompletionTable, CompletionsAfter(p.completions, e), p.completions)
    ensures MapsAgree(ignored, JobTable, JobsAfter(p.jobs, e), p.jobs)
    ensures MapsAgree(ignored, CheckpointTable, CheckpointsAfter(p.checkpoints, e), p.checkpoints)
    ensures MapsAgree(ignored, VariationTable, VariationsAfter(p.variations, e), p.variations)
  {
    hide MapsAgree, CheckpointKey;
    var key := TopicOf(e.content).value.key;
    MapTouched(ignored, CompletionTable, CompletionsAfter(p.completions, e), p.completions, key);
    MapTouched(ignored, JobTable, JobsAfter(p.jobs, e), p.jobs, key);
    MapTouched(ignored, CheckpointTable, CheckpointsAfter(p.checkpoints, e), p.checkpoints, key);
    MapTouched(ignored, VariationTable, VariationsAfter(p.variations, e), p.variations, key);
  }

  lemma FieldsTouched(ignored: set<Cell>, p: Projection, e: Entry)
    requires TopicOf(e.content).Some? && Overwritten(e.content) <= ignored
    ensures FieldAgrees(ignored, PausedField, PausedAfter(p.paused, e), p.paused)
    ensures FieldAgrees(ignored, ProfileField, ProfileAfter(p.profile, e), p.profile)
    ensures FieldAgrees(ignored, IdentityField, IdentityAfter(p.identity, e), p.identity)
    ensures FieldAgrees(ignored, SyncField, SyncAfter(p.sync, e), p.sync)
    ensures RecommendedAfter(p.recommended, e) == p.recommended && BatchesAfter(p.batches, e) == p.batches
    ensures ArchiveAfter(p.archive, e) == p.archive && ReviewsAfter(p.reviews, e) == p.reviews
  {
    hide CheckpointKey;
  }

  /** An event of a topic changes nothing outside the cells it overwrites. */
  lemma ApplyTouches(ignored: set<Cell>, p: Projection, e: Entry)
    requires TopicOf(e.content).Some? && Overwritten(e.content) <= ignored
    ensures Agree(ignored, Apply(p, e), p)
  {
    hide GamesAgree, DrillsAgree, MapsAgree, FieldAgrees, TopicOf, Overwritten, GamesAfter, DrillsAfter, CompletionsAfter,
         RecommendedAfter, JobsAfter, PausedAfter, BatchesAfter, ProfileAfter, IdentityAfter, ArchiveAfter,
         CheckpointsAfter, SyncAfter, VariationsAfter, ReviewsAfter;
    GamesTouched(ignored, p.games, e);
    DrillsTouched(ignored, p.drills, e);
    TablesTouched(ignored, p, e);
    FieldsTouched(ignored, p, e);
  }
}
