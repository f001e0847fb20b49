/** Observations a browser's engine sends for a game, when one is valid, and the rule by which a run of
    them is staged: the order in which they are accepted, whatever stores them. */
module Observations {
  import opened Positions
  import opened MakeMove
  import opened PerftSpec
  import Fen

  const MAX_FEN := 128
  const MAX_ID := 128
  const MAX_OWNER := 512
  const MAX_LINE := 32
  const MAX_SEQUENCE := 4096
  const MAX_PLY := 20000
  const MAX_RUN := 4097
  const MAX_NODES := 100_000_000

  const CONTRACT := "browser-observation-v1"
  const ENGINE_NAME := "Stockfish"
  const ENGINE_VERSION := "stockfish-18.0.8-lite-single"
  const ENGINE_SOURCE := "browser"
  const ENGINE_HASH := "js:5243fd9b276cab7dfe3ad1d43ab9ead73568fac76468c614242977a210c4a391;" +
                       "wasm:a8fbc05ec6920b56d7485826dcb02c5ffd2826bcbf751cf973046f237a9096f1"

  datatype Line = Line(rank: int, centipawns: Option<int>, mate: Option<int>, moves: seq<string>)

  datatype Engine = Engine(name: string, version: string, source: string, hash: string)

  datatype Search = Search(depth: int, nodes: nat, timeMs: nat, multipv: int, bestMove: string, lines: seq<Line>)

  datatype Observation = Observation(contract: string, runId: string, gameId: string, ply: nat, sequence: nat,
                                     fen: string, profile: string, engine: Engine, search: Search)

  datatype Context = Context(gameId: string, runId: string, profile: string, fen: string)

  datatype RunContext = RunContext(gameId: string, runId: string, profile: string, expected: nat)

  // ----- validity -----

  predicate ProfileKnown(profile: string) {
    profile in {"quick", "balanced", "aggressive"}
  }

  function MaxDepth(profile: string): int {
    if profile == "quick" then 10 else if profile == "balanced" then 14 else 18
  }

  function MaxTime(profile: string): int {
    if profile == "quick" then 15_000 else if profile == "balanced" then 30_000 else 60_000
  }

  predicate IsIdChar(c: char) {
    '0' <= c <= '9' || 'a' <= c <= 'z' || 'A' <= c <= 'Z' || c == '-' || c == '_' || c == '.'
  }

  predicate OpaqueId(value: string) {
    value != "" && |value| <= MAX_ID && forall c :: c in value ==> IsIdChar(c)
  }

  predicate OwnerFits(owner: string) {
    owner != "" && |owner| <= MAX_OWNER
  }

  predicate RunContextValid(c: RunContext) {
    OpaqueId(c.gameId) && OpaqueId(c.runId) && ProfileKnown(c.profile) && c.expected <= MAX_RUN
  }

  function PromotionKind(symbol: char): Option<Kind> {
    if symbol == 'q' then Some(Queen)
    else if symbol == 'r' then Some(Rook)
    else if symbol == 'b' then Some(Bishop)
    else if symbol == 'n' then Some(Knight)
    else None
  }

  /** The source, target and promotion a move in coordinate notation names; a queen when it names none. */
  function ReadToken(token: string): Option<(nat, nat, Kind)> {
    if |token| != 4 && |token| != 5 then None
    else
      var from, to := Fen.ParseSquare(token[..2]), Fen.ParseSquare(token[2..4]);
      var promotion := if |token| == 5 then PromotionKind(token[4]) else Some(Queen);
      if from.Err? || to.Err? || promotion.None? then None
      else Some((from.value, to.value, promotion.value))
  }

  /** The position after the legal move a token names, if it names one. */
  ghost function AfterToken(p: Position, token: string): Option<Position> {
    match ReadToken(token)
    case None => None
    case Some((from, to, promotion)) =>
      var m := FirstTo(LegalMovesOf(p), from, to, promotion);
      FirstToIsListed(LegalMovesOf(p), from, to, promotion);
      if m.None? then None else Some(Play(p, m.value))
  }

  /** Every move of a line is legal where it is played. */
  ghost predicate PlaysOut(p: Position, line: seq<string>)
    decreases |line|
  {
    line == [] ||
    var next := AfterToken(p, line[0]);
    next.Some? && PlaysOut(next.value, line[1..])
  }

  /** The line's moves fit the position: legal from it, or none where the game is over. */
  ghost predicate LinePlays(fen: string, bestMove: string, line: seq<string>) {
    var p := Fen.FromFen(fen);
    && p.Ok?
    && if bestMove == "0000" then line == [] && LegalMovesOf(p.value) == []
       else line != [] && line[0] == bestMove && PlaysOut(p.value, line)
  }

  predicate ScoreValid(line: Line) {
    && (line.centipawns.Some? != line.mate.Some?)
    && (line.centipawns.Some? ==> -1_000_000 <= line.centipawns.value <= 1_000_000)
    && (line.mate.Some? ==> -1000 <= line.mate.value <= 1000 && line.mate.value != 0)
  }

  predicate SearchFits(search: Search, profile: string) {
    && ProfileKnown(profile) && 1 <= search.depth <= MaxDepth(profile) && search.nodes <= MAX_NODES
    && search.timeMs <= MaxTime(profile) && search.multipv == 1 && 1 <= |search.bestMove| <= 5 && |search.lines| == 1
    && search.lines[0].rank == 1 && |search.lines[0].moves| <= MAX_LINE && ScoreValid(search.lines[0])
  }

  /** What the checks on identity and bounds demand, everything but the moves. */
  predicate FieldsValid(c: Context, o: Observation) {
    && OpaqueId(c.gameId) && OpaqueId(c.runId) && 1 <= |c.fen| <= MAX_FEN
    && o.contract == CONTRACT && o.runId == c.runId && o.gameId == c.gameId && o.fen == c.fen
    && o.sequence <= MAX_SEQUENCE && o.ply <= MAX_PLY
    && o.engine == Engine(ENGINE_NAME, ENGINE_VERSION, ENGINE_SOURCE, ENGINE_HASH)
    && o.profile == c.profile && SearchFits(o.search, c.profile)
  }

  ghost predicate Validates(c: Context, o: Observation) {
    FieldsValid(c, o) && LinePlays(c.fen, o.search.bestMove, o.search.lines[0].moves)
  }

  /** The context an observation describes itself, the only one it can be valid in. */
  function OwnContext(o: Observation): Context {
    Context(o.gameId, o.runId, o.profile, o.fen)
  }

  // ----- requests and responses -----

  datatype Request =
    | Begin(owner: string, run: RunContext)
    | Submit(owner: string, context: Context, observation: Observation)
    | Finalize(owner: string, gameId: string, runId: string)

  datatype Refusal = InvalidOwner | InvalidRun | InvalidObservation | NotRegistered | ContextChanged | LengthChanged
                   | RunCapacity | Conflict | AlreadyFinal | AlreadyComplete | Capacity | Stale | WrongGame
                   | NoExpectedCount | Incomplete | UnknownOwner | UnknownGame | Violation | Inconsistent

  datatype Response =
    | Begun
    | Accepted(sequence: nat)
    | Duplicate(duplicate: nat)
    | Bundle(context: RunContext, observations: seq<Observation>)
    | Refused(refusal: Refusal)

  /** Responses a caller takes alike: refusals of any reason, bundles of the same observations in any order. */
  predicate Alike(a: Response, b: Response) {
    match a
    case Refused(_) => b.Refused?
    case Bundle(context, observations) =>
      b.Bundle? && b.context == context && multiset(b.observations) == multiset(observations)
    case _ => a == b
  }

  // ----- staging -----

  /** A run: its context, what it has accepted in the order it did, and whether it is final. */
  datatype Run = Run(context: RunContext, accepted: seq<Observation>, final: bool)

  type Key = (string, string)

  type Staging = map<Key, Run>

  predicate Continues(known: RunContext, context: RunContext) {
    && known.gameId == context.gameId && known.profile == context.profile
    && (known.expected == 0 || context.expected == 0 || known.expected == context.expected)
  }

  function Continued(known: RunContext, context: RunContext): RunContext {
    if known.expected == 0 then known.(expected := context.expected) else known
  }

  function Began(s: Staging, owner: string, c: RunContext): (Staging, Response) {
    var key := (owner, c.runId);
    if !RunContextValid(c) then (s, Refused(InvalidRun))
    else if !OwnerFits(owner) then (s, Refused(InvalidOwner))
    else if key !in s then (s[key := Run(c, [], false)], Begun)
    else if !Continues(s[key].context, c) then (s, Refused(ContextChanged))
    else (s[key := s[key].(context := Continued(s[key].context, c))], Begun)
  }

  /** The verdict of a run on an observation of its own game, run and profile. */
  function Verdict(run: Run, o: Observation): Response {
    if o.sequence < |run.accepted| then
      if run.accepted[o.sequence] == o then Duplicate(o.sequence) else Refused(Conflict)
    else if run.final then Refused(AlreadyFinal)
    else if run.context.expected != 0 && |run.accepted| >= run.context.expected then Refused(AlreadyComplete)
    else if o.sequence != |run.accepted| then Refused(Stale)
    else Accepted(o.sequence)
  }

  predicate RunFits(run: RunContext, c: Context) {
    run.gameId == c.gameId && run.profile == c.profile
  }

  ghost function Submitted(s: Staging, owner: string, c: Context, o: Observation): (Staging, Response) {
    var key := (owner, c.runId);
    if !Validates(c, o) then (s, Refused(InvalidObservation))
    else if !OwnerFits(owner) then (s, Refused(InvalidOwner))
    else if key !in s then (s, Refused(NotRegistered))
    else if !RunFits(s[key].context, c) then (s, Refused(ContextChanged))
    else
      var verdict := Verdict(s[key], o);
      if verdict.Accepted? then (s[key := s[key].(accepted := s[key].accepted + [o])], verdict) else (s, verdict)
  }

  function Finalized(s: Staging, owner: string, gameId: string, runId: string): (Staging, Response) {
    var key := (owner, runId);
    if !OwnerFits(owner) then (s, Refused(InvalidOwner))
    else if key !in s then (s, Refused(NotRegistered))
    else if s[key].context.gameId != gameId then (s, Refused(WrongGame))
    else if s[key].context.expected == 0 then (s, Refused(NoExpectedCount))
    else if |s[key].accepted| != s[key].context.expected then (s, Refused(Incomplete))
    else (s[key := s[key].(final := true)], Bundle(s[key].context, s[key].accepted))
  }

  ghost function Stage(s: Staging, request: Request): (Staging, Response) {
    match request
    case Begin(owner, c) => Began(s, owner, c)
    case Submit(owner, c, o) => Submitted(s, owner, c, o)
    case Finalize(owner, gameId, runId) => Finalized(s, owner, gameId, runId)
  }

  // ----- what every run of requests keeps -----

  /** A valid observation accepted by a run as its k-th. */
  ghost predicate AcceptedAt(runId: string, gameId: string, profile: string, k: nat, o: Observation) {
    && o.sequence == k <= MAX_SEQUENCE && o.ply <= MAX_PLY
    && o.runId == runId && o.gameId == gameId && o.profile == profile
    && Validates(OwnContext(o), o)
  }

  /** Accepted sequences are exactly 0, 1, and so on; every observation is of its run; a final run has all
      it expects. */
  ghost predicate RunOrderly(key: Key, run: Run) {
    && OwnerFits(key.0) && RunContextValid(run.context) && run.context.runId == key.1
    && (forall k :: 0 <= k < |run.accepted| ==>
          AcceptedAt(key.1, run.context.gameId, run.context.profile, k, run.accepted[k]))
    && (run.final ==> run.context.expected != 0 && |run.accepted| == run.context.expected)
  }

  ghost predicate Orderly(s: Staging) {
    forall key :: key in s ==> RunOrderly(key, s[key])
  }

  lemma RunFactsOf(c: Context, o: Observation)
    requires Validates(c, o)
    ensures c == OwnContext(o) && o.runId == c.runId && o.gameId == c.gameId && o.profile == c.profile
    ensures o.sequence <= MAX_SEQUENCE && o.ply <= MAX_PLY
  {
    hide LinePlays, SearchFits, OpaqueId;
  }

  lemma SubmittedOrderly(s: Staging, owner: string, c: Context, o: Observation)
    requires Orderly(s)
    ensures Orderly(Submitted(s, owner, c, o).0)
  {
    hide Validates;
    if Submitted(s, owner, c, o).1.Accepted? {
      RunFactsOf(c, o);
    }
  }

  lemma ContinuedOrderly(key: Key, run: Run, c: RunContext)
    requires RunOrderly(key, run) && RunContextValid(c) && Continues(run.context, c)
    ensures RunOrderly(key, run.(context := Continued(run.context, c)))
  {
    hide OpaqueId, AcceptedAt;
    var next := run.(context := Continued(run.context, c));
    assert next.accepted == run.accepted;
    assert RunContextValid(next.context) && next.context.runId == key.1;
  }

  lemma BeganOrderly(s: Staging, owner: string, c: RunContext)
    requires Orderly(s)
    ensures Orderly(Began(s, owner, c).0)
  {
    hide Validates, RunContextValid, RunOrderly, Continues;
    var key := (owner, c.runId);
    if Began(s, owner, c).1.Begun? {
      if key in s {
        ContinuedOrderly(key, s[key], c);
      } else {
        NewRunOrderly(key, c);
      }
    }
  }

  lemma NewRunOrderly(key: Key, c: RunContext)
    requires OwnerFits(key.0) && RunContextValid(c) && c.runId == key.1
    ensures RunOrderly(key, Run(c, [], false))
  {
    hide RunContextValid, Validates;
  }

  lemma FinalizedOrderly(s: Staging, owner: string, gameId: string, runId: string)
    requires Orderly(s)
    ensures Orderly(Finalized(s, owner, gameId, runId).0)
  {
    hide Validates;
    var key := (owner, runId);
    if key in s {
      assert RunOrderly(key, s[key]);
    }
  }

  /** Every request keeps the accepted sequences in order. */
  lemma StageKeepsOrder(s: Staging, request: Request)
    requires Orderly(s)
    ensures Orderly(Stage(s, request).0)
  {
    hide Validates, Began, Submitted, Finalized, Orderly;
    match request
    case Begin(owner, c) => BeganOrderly(s, owner, c);
    case Submit(owner, c, o) => SubmittedOrderly(s, owner, c, o);
    case Finalize(owner, gameId, runId) => FinalizedOrderly(s, owner, gameId, runId);
  }

  /** A final run never changes, and no run loses what it has accepted. */
  lemma StageKeepsRuns(s: Staging, request: Request, key: Key)
    requires Orderly(s) && key in s
    ensures key in Stage(s, request).0
    ensures s[key].accepted <= Stage(s, request).0[key].accepted
    ensures s[key].final ==> Stage(s, request).0[key] == s[key]
  {
    hide Validates;
    assert RunOrderly(key, s[key]);
    if request.Submit? && request.owner == key.0 && request.context.runId == key.1 {
      assert s[key].final ==> !Verdict(s[key], request.observation).Accepted?;
    }
  }

  ghost function StageAll(s: Staging, requests: seq<Request>): Staging {
    if requests == [] then s else Stage(StageAll(s, requests[..|requests| - 1]), requests[|requests| - 1]).0
  }

  lemma {:induction false} RunsKeepOrder(requests: seq<Request>)
    ensures Orderly(StageAll(map[], requests))
  {
    if requests != [] {
      RunsKeepOrder(requests[..|requests| - 1]);
      StageKeepsOrder(StageAll(map[], requests[..|requests| - 1]), requests[|requests| - 1]);
    }
  }

  /** Over any run of requests: a run that is final at some point is the same at every later point. */
  lemma {:induction false} FinalStays(requests: seq<Request>, later: seq<Request>, key: Key)
    requires key in StageAll(map[], requests) && StageAll(map[], requests)[key].final
    ensures key in StageAll(map[], requests + later)
    ensures StageAll(map[], requests + later)[key] == StageAll(map[], requests)[key]
    decreases |later|
  {
    hide Stage, Orderly;
    if later == [] {
      assert requests + later == requests;
    } else {
      var shorter := later[..|later| - 1];
      FinalStays(requests, shorter, key);
      RunsKeepOrder(requests + shorter);
      assert (requests + later)[..|requests + later| - 1] == requests + shorter;
      StageKeepsRuns(StageAll(map[], requests + shorter), later[|later| - 1], key);
    }
  }
}
