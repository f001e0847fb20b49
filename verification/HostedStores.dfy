/** The hosted staging store: each request a transaction on a table of runs and a table of observations,
    with the checks the tables declare. */
module HostedStores {
  import opened Positions
  import opened Observations
  import opened ObservationJson
  import Json

  /** A row of the runs table, found by owner and run. */
  datatype RunRow = RunRow(gameId: string, profile: string, expected: nat, next: nat, final: bool)

  /** A row of the observations table, found by owner, run and sequence. Its JSON column holds a value; read
      as text it is some text that parses to that value, whose canonical text is the value's. */
  datatype ObservationRow = ObservationRow(ply: nat, json: Json.Value)

  type RowKey = (Key, nat)

  datatype Tables = Tables(runs: map<Key, RunRow>, observations: map<RowKey, ObservationRow>)

  /** The owners who exist, guests unexpired and unclaimed, and which game belongs to whom. */
  datatype Accounts = Accounts(owners: set<string>, games: set<(string, string)>)

  // ----- the checks the tables declare -----

  predicate RunRowAllowed(runId: string, row: RunRow) {
    && 1 <= |runId| <= MAX_ID && ProfileKnown(row.profile) && row.expected <= MAX_RUN && row.next <= MAX_RUN
    && ((row.expected == 0 && row.next == 0) || row.next <= row.expected)
  }

  predicate ObservationRowAllowed(sequence: nat, row: ObservationRow) {
    sequence <= MAX_SEQUENCE && row.ply <= MAX_PLY && row.json.Object?
  }

  // ----- queries -----

  /** The sequences and values of a run's rows below a bound, in order of sequence. */
  function Selected(observations: map<RowKey, ObservationRow>, key: Key, below: nat): seq<(nat, Json.Value)> {
    if below == 0 then []
    else
      var row := (key, below - 1);
      Selected(observations, key, below - 1) +
      if row in observations then [(below - 1, observations[row].json)] else []
  }

  function SelectedAll(observations: map<RowKey, ObservationRow>, key: Key): seq<(nat, Json.Value)> {
    Selected(observations, key, MAX_SEQUENCE + 1)
  }

  // ----- operations -----

  function HostedBegan(t: Tables, accounts: Accounts, owner: string, c: RunContext): (Tables, Response) {
    var key := (owner, c.runId);
    if c.gameId == "" || c.runId == "" || !ProfileKnown(c.profile) then (t, Refused(InvalidRun))
    else if owner !in accounts.owners then (t, Refused(UnknownOwner))
    else if (c.gameId, owner) !in accounts.games then (t, Refused(UnknownGame))
    else if key in t.runs then
      var row := t.runs[key];
      if row.gameId != c.gameId || row.profile != c.profile ||
         (row.expected != 0 && c.expected != 0 && row.expected != c.expected) then (t, Refused(ContextChanged))
      else if row.expected == 0 && c.expected != 0 then
        var updated := row.(expected := c.expected);
        if RunRowAllowed(c.runId, updated) then (t.(runs := t.runs[key := updated]), Begun) else (t, Refused(Violation))
      else (t, Begun)
    else
      var row := RunRow(c.gameId, c.profile, c.expected, 0, false);
      if RunRowAllowed(c.runId, row) then (t.(runs := t.runs[key := row]), Begun) else (t, Refused(Violation))
  }

  function Encoded(o: Observation): string
    requires Encodable(o)
  {
    TextReads(o);
    Json.Dump(ToJson(o))
  }

  /** Whether a column's canonical text is a given text. */
  predicate HasText(json: Json.Value, text: string) {
    Json.Writable(json) && Json.Dump(json) == text
  }

  /** The verdict on an observation of the run's own game, run and profile, before anything is written. */
  function HostedVerdict(t: Tables, key: Key, row: RunRow, o: Observation): Response
    requires Encodable(o)
  {
    if (key, o.sequence) in t.observations then
      if HasText(t.observations[(key, o.sequence)].json, Encoded(o)) then Duplicate(o.sequence) else Refused(Conflict)
    else if row.final then Refused(AlreadyFinal)
    else if row.expected != 0 && row.next >= row.expected then Refused(AlreadyComplete)
    else if o.sequence != row.next then Refused(Stale)
    else Accepted(o.sequence)
  }

  /** The row of an observation, if the column takes its text. */
  function RowOf(o: Observation, text: string): Option<ObservationRow> {
    var column := Json.Parse(text);
    if column.Bad? then None else Some(ObservationRow(o.ply, column.value))
  }

  /** Both writes of an accepted observation, or neither. */
  function Written(t: Tables, key: Key, row: RunRow, o: Observation): (Tables, Response)
    requires Encodable(o)
  {
    var inserted := RowOf(o, Encoded(o));
    var advanced := row.(next := row.next + 1);
    if inserted.Some? && ObservationRowAllowed(o.sequence, inserted.value) && RunRowAllowed(key.1, advanced)
    then (Tables(t.runs[key := advanced], t.observations[(key, o.sequence) := inserted.value]), Accepted(o.sequence))
    else (t, Refused(Violation))
  }

  ghost function HostedSubmitted(t: Tables, accounts: Accounts, owner: string, c: Context, o: Observation): (Tables, Response) {
    var key := (owner, o.runId);
    if !Validates(c, o) then (t, Refused(InvalidObservation))
    else if owner !in accounts.owners then (t, Refused(UnknownOwner))
    else if key !in t.runs then (t, Refused(NotRegistered))
    else
      var row := t.runs[key];
      if row.gameId != c.gameId || row.profile != c.profile || o.runId != c.runId then (t, Refused(ContextChanged))
      else
        ValidEncodable(c, o);
        var verdict := HostedVerdict(t, key, row, o);
        if verdict.Accepted? then Written(t, key, row, o) else (t, verdict)
  }

  /** The observations of selected rows, unless one does not decode or disagrees with its sequence column. */
  function Decoded(rows: seq<(nat, Json.Value)>): Option<seq<Observation>> {
    if rows == [] then Some([])
    else
      var (sequence, json) := rows[|rows| - 1];
      var before, observation := Decoded(rows[..|rows| - 1]), FromJson(json);
      if before.None? || observation.None? || observation.value.sequence != sequence then None
      else Some(before.value + [observation.value])
  }

  function HostedFinalized(t: Tables, accounts: Accounts, owner: string, gameId: string, runId: string): (Tables, Response) {
    var key := (owner, runId);
    if owner !in accounts.owners then (t, Refused(UnknownOwner))
    else if key !in t.runs then (t, Refused(NotRegistered))
    else
      var row := t.runs[key];
      var selected := SelectedAll(t.observations, key);
      if row.gameId != gameId then (t, Refused(WrongGame))
      else if row.expected == 0 || row.next != row.expected then (t, Refused(Incomplete))
      else if |selected| != row.expected then (t, Refused(Inconsistent))
      else
        match Decoded(selected)
        case None => (t, Refused(Inconsistent))
        case Some(observations) =>
          (t.(runs := t.runs[key := row.(final := true)]),
           Bundle(RunContext(row.gameId, runId, row.profile, row.expected), observations))
  }

  ghost function HostedStep(t: Tables, accounts: Accounts, request: Request): (Tables, Response) {
    match request
    case Begin(owner, c) => HostedBegan(t, accounts, owner, c)
    case Submit(owner, c, o) => HostedSubmitted(t, accounts, owner, c, o)
    case Finalize(owner, gameId, runId) => HostedFinalized(t, accounts, owner, gameId, runId)
  }

  // ----- the object -----

  /** The tables as the store's transactions see them. A transaction writes as it goes; leaving it before
      its end puts back what it found. */
  class HostedBrowserObservationStore {
    var runs: map<Key, RunRow>
    var observations: map<RowKey, ObservationRow>

    ghost function State(): Tables
      reads this
    {
      Tables(runs, observations)
    }

    constructor ()
      ensures State() == Tables(map[], map[])
    {
      runs, observations := map[], map[];
    }

    method UpdateRun(key: Key, row: RunRow) returns (done: bool)
      requires key in runs
      modifies this`runs
      ensures done == RunRowAllowed(key.1, row)
      ensures runs == if done then old(runs)[key := row] else old(runs)
    {
      done := RunRowAllowed(key.1, row);
      if done {
        runs := runs[key := row];
      }
    }

    method InsertObservation(key: Key, sequence: nat, row: ObservationRow) returns (done: bool)
      requires (key, sequence) !in observations
      modifies this`observations
      ensures done == ObservationRowAllowed(sequence, row)
      ensures observations == if done then old(observations)[(key, sequence) := row] else old(observations)
    {
      done := ObservationRowAllowed(sequence, row);
      if done {
        observations := observations[(key, sequence) := row];
      }
    }

    method Begin(accounts: Accounts, owner: string, c: RunContext) returns (response: Response)
      modifies this
      ensures (State(), response) == HostedStep(old(State()), accounts, Request.Begin(owner, c))
    {
      if c.gameId == "" || c.runId == "" || !ProfileKnown(c.profile) {
        return Refused(InvalidRun);
      }
      if owner !in accounts.owners {
        return Refused(UnknownOwner);
      }
      if (c.gameId, owner) !in accounts.games {
        return Refused(UnknownGame);
      }
      var key := (owner, c.runId);
      if key in runs {
        var row := runs[key];
        if row.gameId != c.gameId || row.profile != c.profile ||
           (row.expected != 0 && c.expected != 0 && row.expected != c.expected) {
          return Refused(ContextChanged);
        }
        if row.expected == 0 && c.expected != 0 {
          var done := UpdateRun(key, row.(expected := c.expected));
          if !done {
            return Refused(Violation);
          }
        }
        return Begun;
      }
      var row := RunRow(c.gameId, c.profile, c.expected, 0, false);
      if !RunRowAllowed(c.runId, row) {
        return Refused(Violation);
      }
      runs := runs[key := row];
      return Begun;
    }

    /** `valid` is the verdict of the validation that comes first. */
    method Submit(accounts: Accounts, owner: string, c: Context, o: Observation, valid: bool) returns (response: Response)
      requires valid == Validates(c, o)
      modifies this
      ensures (State(), response) == HostedStep(old(State()), accounts, Request.Submit(owner, c, o))
    {
      hide Validates, Encodable, Encoded, HasText, RowOf;
      if !valid {
        return Refused(InvalidObservation);
      }
      ValidEncodable(c, o);
      var encoded := Encoded(o);
      if owner !in accounts.owners {
        return Refused(UnknownOwner);
      }
      var key := (owner, o.runId);
      if key !in runs {
        return Refused(NotRegistered);
      }
      var row := runs[key];
      if row.gameId != c.gameId || row.profile != c.profile || o.runId != c.runId {
        return Refused(ContextChanged);
      }
      if (key, o.sequence) in observations {
        return if HasText(observations[(key, o.sequence)].json, encoded) then Duplicate(o.sequence) else Refused(Conflict);
      }
      if row.final {
        return Refused(AlreadyFinal);
      }
      if row.expected != 0 && row.next >= row.expected {
        return Refused(AlreadyComplete);
      }
      if o.sequence != row.next {
        return Refused(Stale);
      }
      var inserted := RowOf(o, encoded);
      if inserted.None? {
        return Refused(Violation);
      }
      var found := observations;
      var done := InsertObservation(key, o.sequence, inserted.value);
      if !done {
        return Refused(Violation);
      }
      done := UpdateRun(key, row.(next := row.next + 1));
      if !done {
        observations := found;
        return Refused(Violation);
      }
      return Accepted(o.sequence);
    }

    method Finalize(accounts: Accounts, owner: string, gameId: string, runId: string) returns (response: Response)
      modifies this
      ensures (State(), response) == HostedStep(old(State()), accounts, Request.Finalize(owner, gameId, runId))
    {
      hide FromJson, Decoded, SelectedAll;
      if owner !in accounts.owners {
        return Refused(UnknownOwner);
      }
      var key := (owner, runId);
      if key !in runs {
        return Refused(NotRegistered);
      }
      var row := runs[key];
      if row.gameId != gameId {
        return Refused(WrongGame);
      }
      if row.expected == 0 || row.next != row.expected {
        return Refused(Refusal.Incomplete);
      }
      var selected := SelectedAll(observations, key);
      if |selected| != row.expected {
        return Refused(Inconsistent);
      }
      var bundle: seq<Observation> := [];
      NothingDecoded(selected);
      for i := 0 to |selected|
        invariant Decoded(selected[..i]) == Some(bundle)
        invariant runs == old(runs) && observations == old(observations)
      {
        DecodedStep(selected, i);
        var (sequence, json) := selected[i];
        var observation := FromJson(json);
        if observation.None? || observation.value.sequence != sequence {
          UndecodedStays(selected, i + 1);
          return Refused(Inconsistent);
        }
        bundle := bundle + [observation.value];
      }
      assert selected[..|selected|] == selected;
      assert row.final ==> runs[key := row.(final := true)] == runs;
      if !row.final {
        runs := runs[key := row.(final := true)];
      }
      return Bundle(RunContext(row.gameId, runId, row.profile, row.expected), bundle);
    }
  }

  lemma NothingDecoded(rows: seq<(nat, Json.Value)>)
    ensures Decoded(rows[..0]) == Some([])
  {
  }

  lemma DecodedStep(rows: seq<(nat, Json.Value)>, i: nat)
    requires i < |rows|
    ensures Decoded(rows[..i + 1]) ==
            var before, observation := Decoded(rows[..i]), FromJson(rows[i].1);
            if before.None? || observation.None? || observation.value.sequence != rows[i].0 then None
            else Some(before.value + [observation.value])
  {
    hide FromJson;
    assert rows[..i + 1][..i] == rows[..i] && rows[..i + 1][i] == rows[i];
  }

  lemma {:induction false} UndecodedStays(rows: seq<(nat, Json.Value)>, i: nat)
    requires i <= |rows| && Decoded(rows[..i]).None?
    ensures Decoded(rows).None?
    decreases |rows|
  {
    hide FromJson;
    if i == |rows| {
      assert rows[..i] == rows;
    } else {
      assert rows[..|rows| - 1][..i] == rows[..i];
      UndecodedStays(rows[..|rows| - 1], i);
    }
  }
}
