/** Owners do not meet: what an owner is answered by the hosted store depends on that owner's rows alone, and
    requests change no others. */
module StagingOwners {
  import opened Positions
  import opened Observations
  import opened HostedStores
  import opened ObservationJson
  import Json

  function OwnerOf(request: Request): string {
    match request
    case Begin(owner, _) => owner
    case Submit(owner, _, _) => owner
    case Finalize(owner, _, _) => owner
  }

  /** An owner's rows are the same in both. */
  ghost predicate SameFor(t: Tables, u: Tables, owner: string) {
    && (forall run :: (owner, run) in t.runs <==> (owner, run) in u.runs)
    && (forall run :: (owner, run) in t.runs ==> t.runs[(owner, run)] == u.runs[(owner, run)])
    && (forall run, n :: ((owner, run), n) in t.observations <==> ((owner, run), n) in u.observations)
    && (forall run, n :: ((owner, run), n) in t.observations ==> t.observations[((owner, run), n)] == u.observations[((owner, run), n)])
  }

  /** Two answers alike, the owner's rows alike after them, and all other rows of the first as they were. */
  ghost predicate Apart(t: Tables, after: (Tables, Response), beside: (Tables, Response), owner: string) {
    after.1 == beside.1 && SameFor(after.0, beside.0, owner) && forall other :: other != owner ==> SameFor(after.0, t, other)
  }

  lemma RowSame(t: Tables, u: Tables, owner: string, run: string)
    requires SameFor(t, u, owner)
    ensures (owner, run) in t.runs <==> (owner, run) in u.runs
    ensures (owner, run) in t.runs ==> t.runs[(owner, run)] == u.runs[(owner, run)]
  {
  }

  lemma RowPut(t: Tables, u: Tables, owner: string, run: string, row: RunRow, response: Response)
    requires SameFor(t, u, owner)
    ensures Apart(t, (t.(runs := t.runs[(owner, run) := row]), response), (u.(runs := u.runs[(owner, run) := row]), response), owner)
  {
  }

  lemma Unchanged(t: Tables, u: Tables, owner: string, response: Response)
    requires SameFor(t, u, owner)
    ensures Apart(t, (t, response), (u, response), owner)
  {
  }

  lemma {:induction false} SelectedSame(t: Tables, u: Tables, owner: string, run: string, below: nat)
    requires SameFor(t, u, owner)
    ensures Selected(t.observations, (owner, run), below) == Selected(u.observations, (owner, run), below)
  {
    if below > 0 {
      SelectedSame(t, u, owner, run, below - 1);
    }
  }

  lemma BeginApart(t: Tables, u: Tables, accounts: Accounts, owner: string, c: RunContext)
    requires SameFor(t, u, owner)
    ensures Apart(t, HostedBegan(t, accounts, owner, c), HostedBegan(u, accounts, owner, c), owner)
  {
    RowSame(t, u, owner, c.runId);
    var after, beside := HostedBegan(t, accounts, owner, c), HostedBegan(u, accounts, owner, c);
    if after.0 == t {
      Unchanged(t, u, owner, after.1);
    } else {
      RowPut(t, u, owner, c.runId, after.0.runs[(owner, c.runId)], after.1);
    }
    hide RunRowAllowed, ProfileKnown, SameFor, Apart;
  }

  lemma VerdictSame(t: Tables, u: Tables, owner: string, row: RunRow, o: Observation)
    requires SameFor(t, u, owner) && Encodable(o)
    ensures HostedVerdict(t, (owner, o.runId), row, o) == HostedVerdict(u, (owner, o.runId), row, o)
  {
    hide HasText, Encoded, Encodable;
  }

  lemma WrittenApart(t: Tables, u: Tables, owner: string, run: string, row: RunRow, o: Observation)
    requires SameFor(t, u, owner) && Encodable(o)
    ensures Apart(t, Written(t, (owner, run), row, o), Written(u, (owner, run), row, o), owner)
  {
    hide RowOf, Encoded, Encodable, RunRowAllowed, ObservationRowAllowed;
  }

  lemma SubmitApart(t: Tables, u: Tables, accounts: Accounts, owner: string, c: Context, o: Observation)
    requires SameFor(t, u, owner)
    ensures Apart(t, HostedSubmitted(t, accounts, owner, c, o), HostedSubmitted(u, accounts, owner, c, o), owner)
  {
    hide Validates, Encodable, HostedVerdict, Written, SameFor, Apart, FieldsValid, LinePlays;
    RowSame(t, u, owner, o.runId);
    var key := (owner, o.runId);
    if Validates(c, o) && key in t.runs {
      ValidEncodable(c, o);
      VerdictSame(t, u, owner, t.runs[key], o);
      WrittenApart(t, u, owner, o.runId, t.runs[key], o);
    }
    Unchanged(t, u, owner, HostedSubmitted(t, accounts, owner, c, o).1);
  }

  lemma FinalizeApart(t: Tables, u: Tables, accounts: Accounts, owner: string, gameId: string, runId: string)
    requires SameFor(t, u, owner)
    ensures Apart(t, HostedFinalized(t, accounts, owner, gameId, runId), HostedFinalized(u, accounts, owner, gameId, runId), owner)
  {
    RowSame(t, u, owner, runId);
    SelectedSame(t, u, owner, runId, MAX_SEQUENCE + 1);
    hide Decoded, Selected;
    var after := HostedFinalized(t, accounts, owner, gameId, runId);
    if after.1.Bundle? {
      RowPut(t, u, owner, runId, t.runs[(owner, runId)].(final := true), after.1);
    } else {
      Unchanged(t, u, owner, after.1);
    }
    hide SameFor, Apart;
  }

  /** Tables that agree on an owner's rows answer that owner alike and agree on them afterwards; the rows of all other
      owners stay. */
  lemma OwnersApart(t: Tables, u: Tables, accounts: Accounts, request: Request)
    requires SameFor(t, u, OwnerOf(request))
    ensures
      var after, beside := HostedStep(t, accounts, request), HostedStep(u, accounts, request);
      && after.1 == beside.1 && SameFor(after.0, beside.0, OwnerOf(request))
      && forall other :: other != OwnerOf(request) ==> SameFor(after.0, t, other)
  {
    hide SameFor, HostedBegan, HostedSubmitted, HostedFinalized;
    match request
    case Begin(owner, c) => BeginApart(t, u, accounts, owner, c);
    case Submit(owner, c, o) => SubmitApart(t, u, accounts, owner, c, o);
    case Finalize(owner, gameId, runId) => FinalizeApart(t, u, accounts, owner, gameId, runId);
  }

  /** Whoever is no owner, or begins a run of a game of somebody else, is refused and changes nothing. */
  lemma StrangersRefused(t: Tables, accounts: Accounts, request: Request)
    requires OwnerOf(request) !in accounts.owners || (request.Begin? && (request.run.gameId, OwnerOf(request)) !in accounts.games)
    ensures HostedStep(t, accounts, request).1.Refused? && HostedStep(t, accounts, request).0 == t
  {
    hide Validates, HostedVerdict, Written, Selected, Decoded;
  }
}
