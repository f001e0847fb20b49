/** The ledger and the hosted store both stage runs by the one rule, and answer alike exactly while no
    bound of the ledger is reached, no run without an expected count accepts an observation, and no run is
    begun whose game or run name the ledger does not take. */
module StagingAgreement {
  import opened Positions
  import opened Observations
  import opened Ledgers
  import opened HostedStores
  import opened ObservationJson
  import Json

  // ----- the ledger -----

  ghost predicate LedgerRunMatches(run: LedgerRun, staged: Run) {
    && run.context == staged.context && run.next == |staged.accepted| && run.final == staged.final
    && multiset(run.entries) == multiset(staged.accepted) && Ordered(run.entries)
  }

  ghost predicate LedgerMatches(l: Ledger, s: Staging) {
    && |l.runs| == |s|
    && (forall key: Key :: key in s <==> RunKey(key.0, key.1) in l.runs)
    && (forall key: Key :: key in s ==> LedgerRunMatches(l.runs[RunKey(key.0, key.1)], s[key]))
  }

  predicate LedgerFull(maxRuns: nat, maxObservations: nat, s: Staging, request: Request, staged: Response) {
    match request
    case Begin(owner, c) => staged.Begun? && (owner, c.runId) !in s && |s| >= maxRuns
    case Submit(owner, c, _) => staged.Accepted? && (owner, c.runId) in s && |s[(owner, c.runId)].accepted| >= maxObservations
    case Finalize(_, _, _) => false
  }

  lemma LedgerHas(l: Ledger, s: Staging, key: Key)
    requires LedgerMatches(l, s)
    ensures |l.runs| == |s| && (key in s <==> RunKey(key.0, key.1) in l.runs)
    ensures key in s ==> LedgerRunMatches(l.runs[RunKey(key.0, key.1)], s[key])
  {
    hide LedgerRunMatches, RunKey;
  }

  lemma StoredSize<K, V>(m: map<K, V>, key: K, value: V)
    ensures |m[key := value]| == |m| + if key in m then 0 else 1
  {
    assert m[key := value].Keys == m.Keys + {key};
    if key in m {
      assert m.Keys + {key} == m.Keys;
    }
  }

  lemma StoredKey(l: Ledger, s: Staging, key: Key, run: LedgerRun, staged: Run, other: Key)
    requires LedgerMatches(l, s) && LedgerRunMatches(run, staged)
    ensures other in s[key := staged] <==> RunKey(other.0, other.1) in l.runs[RunKey(key.0, key.1) := run]
    ensures other in s[key := staged] ==>
              LedgerRunMatches(l.runs[RunKey(key.0, key.1) := run][RunKey(other.0, other.1)], s[key := staged][other])
  {
    hide LedgerRunMatches, RunKey, LedgerMatches;
    LedgerHas(l, s, other);
    if RunKey(other.0, other.1) == RunKey(key.0, key.1) {
      RunKeyInjective(other.0, other.1, key.0, key.1);
    }
  }

  /** Storing the matched run of one key again keeps the match. */
  lemma LedgerStored(l: Ledger, s: Staging, key: Key, run: LedgerRun, staged: Run)
    requires LedgerMatches(l, s) && LedgerRunMatches(run, staged)
    ensures LedgerMatches(l.(runs := l.runs[RunKey(key.0, key.1) := run]), s[key := staged])
  {
    hide LedgerRunMatches, RunKey;
    StoredSize(l.runs, RunKey(key.0, key.1), run);
    StoredSize(s, key, staged);
    forall other: Key
      ensures other in s[key := staged] <==> RunKey(other.0, other.1) in l.runs[RunKey(key.0, key.1) := run]
      ensures other in s[key := staged] ==>
                LedgerRunMatches(l.runs[RunKey(key.0, key.1) := run][RunKey(other.0, other.1)], s[key := staged][other])
    {
      StoredKey(l, s, key, run, staged, other);
    }
  }

  /** Looking an observation up by ply and sequence, or among those accepted by its sequence alone. */
  lemma LookupIs(key: Key, run: LedgerRun, staged: Run, o: Observation)
    requires RunOrderly(key, staged) && LedgerRunMatches(run, staged)
    ensures |run.entries| == |staged.accepted|
    ensures var existing := Lookup(run.entries, o.ply, o.sequence);
            if o.sequence < |staged.accepted| && staged.accepted[o.sequence].ply == o.ply
            then existing == Some(staged.accepted[o.sequence]) else existing.None?
  {
    hide Validates, RunContextValid;
    var existing := Lookup(run.entries, o.ply, o.sequence);
    assert |multiset(run.entries)| == |multiset(staged.accepted)|;
    if existing.Some? {
      assert existing.value in multiset(staged.accepted);
      var k :| 0 <= k < |staged.accepted| && staged.accepted[k] == existing.value;
      assert k == o.sequence;
    } else if o.sequence < |staged.accepted| {
      assert staged.accepted[o.sequence] in multiset(run.entries);
      assert staged.accepted[o.sequence].sequence == o.sequence;
    }
  }

  /** The ledger finds an observation by ply and sequence, the rule by sequence alone: the verdict is the same. */
  lemma LedgerVerdictIs(key: Key, run: LedgerRun, staged: Run, o: Observation, bound: nat)
    requires RunOrderly(key, staged) && LedgerRunMatches(run, staged)
    ensures Alike(LedgerVerdict(run, o, bound), Verdict(staged, o)) <==>
            !(Verdict(staged, o).Accepted? && |staged.accepted| >= bound)
    ensures !(Verdict(staged, o).Accepted? && |staged.accepted| >= bound) && Verdict(staged, o).Accepted? ==>
              LedgerVerdict(run, o, bound).Accepted?
  {
    LookupIs(key, run, staged, o);
    assert run.next == |staged.accepted| && run.final == staged.final && run.context == staged.context;
    hide Lookup, RunOrderly, LedgerRunMatches;
  }

  lemma {:induction false} LedgerEntriesGrow(key: Key, run: LedgerRun, staged: Run, o: Observation)
    requires RunOrderly(key, staged) && LedgerRunMatches(run, staged) && o.sequence == |staged.accepted|
    ensures LedgerRunMatches(run.(entries := Emplaced(run.entries, o), next := run.next + 1),
                             staged.(accepted := staged.accepted + [o]))
  {
    forall e | e in run.entries
      ensures e.sequence != o.sequence
    {
      assert e in multiset(staged.accepted);
      var k :| 0 <= k < |staged.accepted| && staged.accepted[k] == e;
    }
    EmplacedOrdered(run.entries, o);
    EmplacedHolds(run.entries, o);
    assert multiset(staged.accepted + [o]) == multiset(staged.accepted) + multiset{o};
  }

  lemma LedgerBegins(l: Ledger, s: Staging, owner: string, c: RunContext)
    requires Orderly(s) && LedgerMatches(l, s)
    ensures var full := LedgerFull(l.maxRuns, l.maxObservations, s, Begin(owner, c), Began(s, owner, c).1);
            && (Alike(LedgerBegan(l, owner, c).1, Began(s, owner, c).1) <==> !full)
            && (!full ==> LedgerMatches(LedgerBegan(l, owner, c).0, Began(s, owner, c).0))
  {
    hide RunContextValid, RunKey, LedgerMatches;
    var key := (owner, c.runId);
    LedgerHas(l, s, key);
    if key in s {
      var run, staged := l.runs[RunKey(owner, c.runId)], s[key];
      LedgerStored(l, s, key, run.(context := Continued(staged.context, c)),
                   staged.(context := Continued(staged.context, c)));
    } else {
      LedgerStored(l, s, key, LedgerRun(c, 0, [], false), Run(c, [], false));
    }
  }

  lemma LedgerSubmits(l: Ledger, s: Staging, owner: string, c: Context, o: Observation)
    requires Orderly(s) && LedgerMatches(l, s)
    ensures var full := LedgerFull(l.maxRuns, l.maxObservations, s, Submit(owner, c, o), Submitted(s, owner, c, o).1);
            && (Alike(LedgerSubmitted(l, owner, c, o).1, Submitted(s, owner, c, o).1) <==> !full)
            && (!full ==> LedgerMatches(LedgerSubmitted(l, owner, c, o).0, Submitted(s, owner, c, o).0))
  {
    hide Validates, RunKey, LedgerVerdict, Verdict, RunOrderly, LedgerRunMatches, LedgerMatches;
    var key := (owner, c.runId);
    LedgerHas(l, s, key);
    if Validates(c, o) && OwnerFits(owner) && key in s {
      var run, staged := l.runs[RunKey(owner, c.runId)], s[key];
      MatchedRun(key, run, staged);
      if RunFits(staged.context, c) {
        LedgerVerdictIs(key, run, staged, o, l.maxObservations);
        if Verdict(staged, o).Accepted? && LedgerVerdict(run, o, l.maxObservations).Accepted? {
          AcceptedIsNext(staged, o);
          LedgerEntriesGrow(key, run, staged, o);
          LedgerStored(l, s, key, run.(entries := Emplaced(run.entries, o), next := run.next + 1),
                       staged.(accepted := staged.accepted + [o]));
        }
      }
    }
  }

  lemma MatchedRun(key: Key, run: LedgerRun, staged: Run)
    requires RunOrderly(key, staged) && LedgerRunMatches(run, staged)
    ensures run.context == staged.context && staged.context.runId == key.1
    ensures |run.entries| == |staged.accepted|
  {
    assert |multiset(run.entries)| == |multiset(staged.accepted)|;
  }

  lemma FinalMatches(run: LedgerRun, staged: Run)
    requires LedgerRunMatches(run, staged)
    ensures LedgerRunMatches(run.(final := true), staged.(final := true))
    ensures multiset(run.entries) == multiset(staged.accepted)
  {
  }

  lemma AcceptedIsNext(staged: Run, o: Observation)
    requires Verdict(staged, o).Accepted?
    ensures Verdict(staged, o) == Accepted(o.sequence) && o.sequence == |staged.accepted| && !staged.final
    ensures staged.context.expected == 0 || |staged.accepted| < staged.context.expected
  {
  }

  lemma LedgerFinalizes(l: Ledger, s: Staging, owner: string, gameId: string, runId: string)
    requires Orderly(s) && LedgerMatches(l, s)
    ensures Alike(LedgerFinalized(l, owner, gameId, runId).1, Finalized(s, owner, gameId, runId).1)
    ensures LedgerMatches(LedgerFinalized(l, owner, gameId, runId).0, Finalized(s, owner, gameId, runId).0)
  {
    hide RunKey, RunOrderly, LedgerMatches, LedgerRunMatches;
    var key := (owner, runId);
    LedgerHas(l, s, key);
    if key in s {
      var run, staged := l.runs[RunKey(owner, runId)], s[key];
      MatchedRun(key, run, staged);
      FinalMatches(run, staged);
      LedgerStored(l, s, key, run.(final := true), staged.(final := true));
    }
  }

  /** The ledger follows the rule exactly while none of its bounds stands in the way. */
  lemma LedgerFollows(l: Ledger, s: Staging, request: Request)
    requires Orderly(s) && LedgerMatches(l, s)
    ensures var full := LedgerFull(l.maxRuns, l.maxObservations, s, request, Stage(s, request).1);
            && (Alike(LedgerStep(l, request).1, Stage(s, request).1) <==> !full)
            && (!full ==> LedgerMatches(LedgerStep(l, request).0, Stage(s, request).0))
  {
    hide Orderly, LedgerMatches, LedgerBegan, Began, LedgerSubmitted, Submitted, LedgerFinalized, Finalized;
    match request
    case Begin(owner, c) => LedgerBegins(l, s, owner, c);
    case Submit(owner, c, o) => LedgerSubmits(l, s, owner, c, o);
    case Finalize(owner, gameId, runId) => LedgerFinalizes(l, s, owner, gameId, runId);
  }

  // ----- the hosted store -----

  ghost predicate RowMatches(row: RunRow, staged: Run) {
    && row.gameId == staged.context.gameId && row.profile == staged.context.profile
    && row.expected == staged.context.expected && row.next == |staged.accepted| && row.final == staged.final
    && |staged.accepted| <= row.expected
  }

  ghost predicate RunsMatch(t: Tables, s: Staging) {
    && (forall key: Key :: key in s <==> key in t.runs)
    && (forall key: Key :: key in s ==> RowMatches(t.runs[key], s[key]))
  }

  predicate HasAccepted(s: Staging, key: Key, k: nat) {
    key in s && k < |s[key].accepted|
  }

  /** A row holds the JSON object of an observation. */
  predicate RowHolds(row: ObservationRow, o: Observation) {
    Encodable(o) && row.json == ToJson(o)
  }

  ghost predicate ObservationsMatch(t: Tables, s: Staging) {
    && (forall key: Key, k: nat :: HasAccepted(s, key, k) <==> (key, k) in t.observations)
    && (forall key: Key, k: nat :: HasAccepted(s, key, k) ==> RowHolds(t.observations[(key, k)], s[key].accepted[k]))
  }

  ghost predicate HostedMatches(t: Tables, s: Staging) {
    RunsMatch(t, s) && ObservationsMatch(t, s)
  }

  /** A signed-in owner, asking to begin a run only for a game of theirs. */
  predicate Admitted(accounts: Accounts, request: Request) {
    request.owner in accounts.owners && OwnerFits(request.owner) &&
    (request.Begin? ==> (request.run.gameId, request.owner) in accounts.games)
  }

  /** The rule would accept an observation of a run whose expected count was never given. */
  predicate Unbounded(s: Staging, request: Request, staged: Response) {
    request.Submit? && staged.Accepted? &&
    var key := (request.owner, request.context.runId);
    key in s && s[key].context.expected == 0
  }

  /** A run begun under names the rule refuses and the tables take: not empty, the run's of a length that
      fits, but not made of the characters of an identifier. */
  predicate Misnamed(s: Staging, request: Request) {
    request.Begin? &&
    var c := request.run;
    && !(OpaqueId(c.gameId) && OpaqueId(c.runId)) && c.gameId != "" && 1 <= |c.runId| <= MAX_ID
    && ProfileKnown(c.profile) && c.expected <= MAX_RUN && (request.owner, c.runId) !in s
  }

  lemma HostedHas(t: Tables, s: Staging, key: Key)
    requires HostedMatches(t, s)
    ensures key in s <==> key in t.runs
    ensures key in s ==> RowMatches(t.runs[key], s[key])
  {
    hide RowMatches, ObservationsMatch;
  }

  lemma RunStored(t: Tables, s: Staging, key: Key, row: RunRow, staged: Run)
    requires HostedMatches(t, s) && RowMatches(row, staged)
    requires staged.accepted == if key in s then s[key].accepted else []
    ensures HostedMatches(t.(runs := t.runs[key := row]), s[key := staged])
  {
    hide RowMatches, RowHolds;
    forall other: Key, k: nat
      ensures HasAccepted(s[key := staged], other, k) <==> HasAccepted(s, other, k)
    {
    }
  }

  lemma BothWritten(t: Tables, s: Staging, key: Key, row: RunRow, staged: Run, o: Observation, written: ObservationRow)
    requires HostedMatches(t, s) && RowMatches(row, staged) && key in s
    requires staged.accepted == s[key].accepted + [o] && RowHolds(written, o)
    ensures HostedMatches(
              Tables(t.runs[key := row], t.observations[(key, |s[key].accepted|) := written]), s[key := staged])
  {
    hide RowMatches, RowHolds;
    var n := |s[key].accepted|;
    forall other: Key, k: nat
      ensures HasAccepted(s[key := staged], other, k) <==> HasAccepted(s, other, k) || (other == key && k == n)
    {
    }
  }

  lemma HostedVerdictIs(t: Tables, s: Staging, key: Key, row: RunRow, staged: Run, o: Observation)
    requires HostedMatches(t, s) && key in s && staged == s[key] && RowMatches(row, staged) && Encodable(o)
    ensures HostedVerdict(t, key, row, o) == Verdict(staged, o)
  {
    hide ToJson, Encodable;
    assert HasAccepted(s, key, o.sequence) <==> o.sequence < |staged.accepted|;
    if o.sequence < |staged.accepted| {
      assert RowHolds(t.observations[(key, o.sequence)], staged.accepted[o.sequence]);
      TextsTell(staged.accepted[o.sequence], o);
    }
  }

  /** The row written for an observation holds its object. */
  lemma WrittenHolds(o: Observation)
    requires Encodable(o)
    ensures RowOf(o, Encoded(o)) == Some(ObservationRow(o.ply, ToJson(o))) && ToJson(o).Object?
    ensures RowHolds(ObservationRow(o.ply, ToJson(o)), o)
  {
    TextReads(o);
    hide Encodable;
  }

  lemma NamedHostedBegins(t: Tables, s: Staging, accounts: Accounts, owner: string, c: RunContext)
    requires Orderly(s) && HostedMatches(t, s) && Admitted(accounts, Begin(owner, c))
    requires OpaqueId(c.gameId) && OpaqueId(c.runId)
    ensures Alike(HostedBegan(t, accounts, owner, c).1, Began(s, owner, c).1)
    ensures HostedMatches(HostedBegan(t, accounts, owner, c).0, Began(s, owner, c).0)
  {
    hide HostedMatches;
    var key := (owner, c.runId);
    HostedHas(t, s, key);
    if key in s {
      assert RunOrderly(key, s[key]);
      var context := Continued(s[key].context, c);
      if RunContextValid(c) && Continues(s[key].context, c) {
        RunStored(t, s, key, t.runs[key].(expected := context.expected), s[key].(context := context));
        assert t.runs[key := t.runs[key]] == t.runs;
      }
    } else {
      RunStored(t, s, key, RunRow(c.gameId, c.profile, c.expected, 0, false), Run(c, [], false));
    }
  }

  /** Of a name the rule refuses, a run that is staged already is not begun again. */
  lemma StagedNames(s: Staging, key: Key)
    requires Orderly(s) && key in s
    ensures OpaqueId(key.1) && OpaqueId(s[key].context.gameId)
  {
    assert RunOrderly(key, s[key]);
    hide AcceptedAt, OpaqueId;
  }

  lemma MisnamedHostedBegins(t: Tables, s: Staging, accounts: Accounts, owner: string, c: RunContext)
    requires Orderly(s) && HostedMatches(t, s) && Admitted(accounts, Begin(owner, c))
    requires !(OpaqueId(c.gameId) && OpaqueId(c.runId))
    ensures Began(s, owner, c) == (s, Refused(InvalidRun))
    ensures HostedBegan(t, accounts, owner, c).1.Begun? <==> Misnamed(s, Begin(owner, c))
    ensures !HostedBegan(t, accounts, owner, c).1.Begun? ==>
              HostedBegan(t, accounts, owner, c).1.Refused? && HostedBegan(t, accounts, owner, c).0 == t
  {
    hide Orderly, HostedMatches, OpaqueId;
    var key := (owner, c.runId);
    HostedHas(t, s, key);
    if key in s {
      StagedNames(s, key);
    }
  }

  lemma HostedBegins(t: Tables, s: Staging, accounts: Accounts, owner: string, c: RunContext)
    requires Orderly(s) && HostedMatches(t, s) && Admitted(accounts, Begin(owner, c))
    ensures var misnamed := Misnamed(s, Begin(owner, c));
            && (Alike(HostedBegan(t, accounts, owner, c).1, Began(s, owner, c).1) <==> !misnamed)
            && (!misnamed ==> HostedMatches(HostedBegan(t, accounts, owner, c).0, Began(s, owner, c).0))
  {
    hide Orderly, HostedMatches, OpaqueId, Admitted, HostedBegan, Began;
    if OpaqueId(c.gameId) && OpaqueId(c.runId) {
      NamedHostedBegins(t, s, accounts, owner, c);
    } else {
      MisnamedHostedBegins(t, s, accounts, owner, c);
    }
  }

  lemma HostedSubmits(t: Tables, s: Staging, accounts: Accounts, owner: string, c: Context, o: Observation)
    requires Orderly(s) && HostedMatches(t, s) && Admitted(accounts, Submit(owner, c, o))
    ensures var unbounded := Unbounded(s, Submit(owner, c, o), Submitted(s, owner, c, o).1);
            && (Alike(HostedSubmitted(t, accounts, owner, c, o).1, Submitted(s, owner, c, o).1) <==> !unbounded)
            && (!unbounded ==> HostedMatches(HostedSubmitted(t, accounts, owner, c, o).0, Submitted(s, owner, c, o).0))
  {
    hide Validates, HostedMatches, Verdict, HostedVerdict, RowMatches, RunOrderly, Encodable, ToJson, RowOf, Encoded, RowHolds;
    var key := (owner, c.runId);
    HostedHas(t, s, key);
    if Validates(c, o) && key in s {
      RunFactsOf(c, o);
      var row, staged := t.runs[key], s[key];
      RowFacts(row, staged, o, key);
      ValidEncodable(c, o);
      WrittenHolds(o);
      if RunFits(staged.context, c) {
        HostedVerdictIs(t, s, key, row, staged, o);
        if Verdict(staged, o).Accepted? {
          AcceptedIsNext(staged, o);
          if staged.context.expected != 0 {
            assert RunRowAllowed(c.runId, row.(next := row.next + 1));
            BothWritten(t, s, key, row.(next := row.next + 1), staged.(accepted := staged.accepted + [o]), o,
                        ObservationRow(o.ply, ToJson(o)));
          }
        }
      }
    }
  }

  lemma RowFacts(row: RunRow, staged: Run, o: Observation, key: Key)
    requires RowMatches(row, staged) && RunOrderly(key, staged)
    ensures row.gameId == staged.context.gameId && row.profile == staged.context.profile
    ensures row.expected == staged.context.expected <= MAX_RUN && row.next == |staged.accepted| <= row.expected
    ensures OpaqueId(key.1) && ProfileKnown(row.profile)
    ensures |staged.accepted| < staged.context.expected ==>
              RowMatches(row.(next := row.next + 1), staged.(accepted := staged.accepted + [o]))
  {
    hide OpaqueId;
  }

  // ----- a run selected in order of sequence -----

  lemma {:induction false} SelectedIs(t: Tables, s: Staging, key: Key, below: nat)
    requires ObservationsMatch(t, s) && key in s
    ensures var n := if below < |s[key].accepted| then below else |s[key].accepted|;
            var rows := Selected(t.observations, key, below);
            |rows| == n && forall k :: 0 <= k < n ==> rows[k] == (k, t.observations[(key, k)].json)
  {
    hide RowHolds;
    if below > 0 {
      SelectedIs(t, s, key, below - 1);
      assert HasAccepted(s, key, below - 1) <==> below - 1 < |s[key].accepted|;
    }
  }

  lemma {:induction false} DecodedIs(rows: seq<(nat, Json.Value)>, accepted: seq<Observation>)
    requires |rows| == |accepted|
    requires forall k :: 0 <= k < |rows| ==> rows[k].0 == accepted[k].sequence && FromJson(rows[k].1) == Some(accepted[k])
    ensures Decoded(rows) == Some(accepted)
  {
    hide FromJson;
    if rows != [] {
      var n := |rows| - 1;
      DecodedIs(rows[..n], accepted[..n]);
      assert accepted == accepted[..n] + [accepted[n]];
    }
  }

  /** The rows of a run decode to what it has accepted, in the order it did. */
  lemma RowsAreAccepted(t: Tables, s: Staging, key: Key)
    requires HostedMatches(t, s) && key in s && RunOrderly(key, s[key])
    ensures |SelectedAll(t.observations, key)| == |s[key].accepted|
    ensures Decoded(SelectedAll(t.observations, key)) == Some(s[key].accepted)
  {
    hide Selected, Decoded, FromJson, ToJson, Encodable, Validates, RunContextValid;
    var accepted, rows := s[key].accepted, SelectedAll(t.observations, key);
    SelectedIs(t, s, key, MAX_SEQUENCE + 1);
    if |accepted| > 0 {
      assert AcceptedAt(key.1, s[key].context.gameId, s[key].context.profile, |accepted| - 1, accepted[|accepted| - 1]);
    }
    forall k | 0 <= k < |rows|
      ensures rows[k].0 == accepted[k].sequence && FromJson(rows[k].1) == Some(accepted[k])
    {
      assert HasAccepted(s, key, k);
      ObservationReads(accepted[k]);
    }
    DecodedIs(rows, accepted);
  }

  lemma HostedFinalizes(t: Tables, s: Staging, accounts: Accounts, owner: string, gameId: string, runId: string)
    requires Orderly(s) && HostedMatches(t, s) && Admitted(accounts, Finalize(owner, gameId, runId))
    ensures Alike(HostedFinalized(t, accounts, owner, gameId, runId).1, Finalized(s, owner, gameId, runId).1)
    ensures HostedMatches(HostedFinalized(t, accounts, owner, gameId, runId).0, Finalized(s, owner, gameId, runId).0)
  {
    hide HostedMatches, SelectedAll, Decoded;
    var key := (owner, runId);
    HostedHas(t, s, key);
    if key in s {
      assert RunOrderly(key, s[key]);
      RowsAreAccepted(t, s, key);
      RunStored(t, s, key, t.runs[key].(final := true), s[key].(final := true));
    }
  }

  /** The hosted store follows the rule exactly while the run has an expected count to fill, and names the
      rule takes. */
  lemma HostedFollows(t: Tables, s: Staging, accounts: Accounts, request: Request)
    requires Orderly(s) && HostedMatches(t, s) && Admitted(accounts, request)
    ensures var apart := Unbounded(s, request, Stage(s, request).1) || Misnamed(s, request);
            && (Alike(HostedStep(t, accounts, request).1, Stage(s, request).1) <==> !apart)
            && (!apart ==> HostedMatches(HostedStep(t, accounts, request).0, Stage(s, request).0))
  {
    hide Orderly, HostedMatches, Admitted, HostedBegan, Began, HostedSubmitted, Submitted, HostedFinalized, Finalized;
    match request
    case Begin(owner, c) => HostedBegins(t, s, accounts, owner, c);
    case Submit(owner, c, o) => HostedSubmits(t, s, accounts, owner, c, o);
    case Finalize(owner, gameId, runId) => HostedFinalizes(t, s, accounts, owner, gameId, runId);
  }

  /** "run 1" is such a name: whatever the ledger holds it refuses to begin the run, and the hosted store
      begins it unless it has it. */
  lemma SpacedNameDiffers(l: Ledger, t: Tables, accounts: Accounts, owner: string)
    requires owner in accounts.owners && ("g1", owner) in accounts.games && (owner, "run 1") !in t.runs
    ensures var begin := Begin(owner, RunContext("g1", "run 1", "quick", 2));
            LedgerStep(l, begin) == (l, Refused(InvalidRun)) && HostedStep(t, accounts, begin).1 == Begun
  {
    var name := "run 1";
    assert name[3] == ' ' && ' ' in name;
  }

  // ----- both, over whole runs -----

  /** The next request is one the two stores answer differently: a new run or observation beyond the
      ledger's bounds, an observation accepted by a run whose expected count was never given, or a run begun
      under a name that is no identifier. */
  ghost predicate Diverges(maxRuns: nat, maxObservations: nat, s: Staging, request: Request) {
    var response := Stage(s, request).1;
    LedgerFull(maxRuns, maxObservations, s, request, response) || Unbounded(s, request, response) || Misnamed(s, request)
  }

  lemma AlikeJoins(a: Response, b: Response, c: Response)
    ensures Alike(a, b) <==> Alike(b, a)
    ensures Alike(a, b) && Alike(b, c) ==> Alike(a, c)
  {
  }

  lemma NotBoth(t: Tables, s: Staging, maxRuns: nat, maxObservations: nat, request: Request)
    requires HostedMatches(t, s) && maxObservations > 0
    ensures var staged := Stage(s, request).1;
            !(LedgerFull(maxRuns, maxObservations, s, request, staged) && (Unbounded(s, request, staged) || Misnamed(s, request)))
  {
    hide OpaqueId, Submitted;
    if request.Submit? {
      HostedHas(t, s, (request.owner, request.context.runId));
    }
  }

  /** From states that stage the same runs, the two stores answer a request alike exactly when it is not
      one of those, and then still stage the same runs. */
  lemma StepAgrees(l: Ledger, t: Tables, s: Staging, accounts: Accounts, request: Request)
    requires Orderly(s) && LedgerMatches(l, s) && HostedMatches(t, s) && Admitted(accounts, request)
    requires l.maxObservations > 0
    ensures Alike(LedgerStep(l, request).1, HostedStep(t, accounts, request).1) <==>
            !Diverges(l.maxRuns, l.maxObservations, s, request)
    ensures !Diverges(l.maxRuns, l.maxObservations, s, request) ==>
              && LedgerMatches(LedgerStep(l, request).0, Stage(s, request).0)
              && HostedMatches(HostedStep(t, accounts, request).0, Stage(s, request).0)
              && Alike(LedgerStep(l, request).1, Stage(s, request).1)
  {
    hide Orderly, LedgerMatches, HostedMatches, Admitted, LedgerStep, HostedStep, Stage, LedgerFull, Unbounded, Misnamed, Alike;
    LedgerFollows(l, s, request);
    HostedFollows(t, s, accounts, request);
    var ledger, hosted, staged := LedgerStep(l, request).1, HostedStep(t, accounts, request).1, Stage(s, request).1;
    NotBoth(t, s, l.maxRuns, l.maxObservations, request);
    AlikeJoins(ledger, staged, hosted);
    AlikeJoins(ledger, hosted, staged);
    AlikeJoins(hosted, ledger, staged);
    AlikeJoins(hosted, staged, ledger);
  }

  type Visit = (Accounts, Request)

  function Requests(visits: seq<Visit>): (requests: seq<Request>)
    ensures |requests| == |visits|
  {
    seq(|visits|, i requires 0 <= i < |visits| => visits[i].1)
  }

  ghost function LedgerAll(l: Ledger, visits: seq<Visit>): (Ledger, seq<Response>) {
    if visits == [] then (l, [])
    else
      var before := LedgerAll(l, visits[..|visits| - 1]);
      var after := LedgerStep(before.0, visits[|visits| - 1].1);
      (after.0, before.1 + [after.1])
  }

  ghost function HostedAll(t: Tables, visits: seq<Visit>): (Tables, seq<Response>) {
    if visits == [] then (t, [])
    else
      var before := HostedAll(t, visits[..|visits| - 1]);
      var after := HostedStep(before.0, visits[|visits| - 1].0, visits[|visits| - 1].1);
      (after.0, before.1 + [after.1])
  }

  ghost predicate AllAlike(a: seq<Response>, b: seq<Response>) {
    |a| == |b| && forall i :: 0 <= i < |a| ==> Alike(a[i], b[i])
  }

  ghost predicate NoneDiverges(maxRuns: nat, maxObservations: nat, requests: seq<Request>) {
    forall i :: 0 <= i < |requests| ==> !Diverges(maxRuns, maxObservations, StageAll(map[], requests[..i]), requests[i])
  }

  lemma NoneDivergesYet(maxRuns: nat, maxObservations: nat)
    ensures NoneDiverges(maxRuns, maxObservations, [])
  {
  }

  lemma BoundsStay(l: Ledger, request: Request)
    ensures LedgerStep(l, request).0.maxRuns == l.maxRuns
    ensures LedgerStep(l, request).0.maxObservations == l.maxObservations
  {
    hide Validates, RunKey, LedgerVerdict, RunContextValid;
  }

  lemma AlikeSoFar(a: seq<Response>, b: seq<Response>, nextA: Response, nextB: Response)
    requires |a| == |b|
    ensures AllAlike(a + [nextA], b + [nextB]) <==> AllAlike(a, b) && Alike(nextA, nextB)
  {
    hide Alike;
    var wholeA, wholeB := a + [nextA], b + [nextB];
    assert forall i :: 0 <= i < |a| ==> wholeA[i] == a[i] && wholeB[i] == b[i];
    assert wholeA[|a|] == nextA && wholeB[|a|] == nextB;
  }

  lemma {:induction false} OneAnswerEach(l: Ledger, t: Tables, visits: seq<Visit>)
    ensures |LedgerAll(l, visits).1| == |visits| && |HostedAll(t, visits).1| == |visits|
  {
    hide LedgerStep, HostedStep;
    if visits != [] {
      OneAnswerEach(l, t, visits[..|visits| - 1]);
    }
  }

  lemma NoneDivergesBefore(maxRuns: nat, maxObservations: nat, requests: seq<Request>)
    requires requests != []
    ensures var shorter, last := requests[..|requests| - 1], requests[|requests| - 1];
            NoneDiverges(maxRuns, maxObservations, requests) <==>
            NoneDiverges(maxRuns, maxObservations, shorter) &&
            !Diverges(maxRuns, maxObservations, StageAll(map[], shorter), last)
  {
    hide Diverges, StageAll;
    var shorter := requests[..|requests| - 1];
    assert forall i :: 0 <= i < |shorter| ==> shorter[..i] == requests[..i] && shorter[i] == requests[i];
  }

  /** Over every run of admitted requests from the empty stores: all answers are alike exactly when no
      request is one the stores answer differently, and then both stage what the rule stages. */
  lemma {:induction false} RunsAgree(maxRuns: nat, maxObservations: nat, visits: seq<Visit>)
    requires maxObservations > 0 && forall i :: 0 <= i < |visits| ==> Admitted(visits[i].0, visits[i].1)
    ensures LedgerAll(Ledger(maxRuns, maxObservations, map[]), visits).0.maxRuns == maxRuns
    ensures LedgerAll(Ledger(maxRuns, maxObservations, map[]), visits).0.maxObservations == maxObservations
    ensures var ledger := LedgerAll(Ledger(maxRuns, maxObservations, map[]), visits);
            var hosted := HostedAll(Tables(map[], map[]), visits);
            && (AllAlike(ledger.1, hosted.1) <==> NoneDiverges(maxRuns, maxObservations, Requests(visits)))
            && (AllAlike(ledger.1, hosted.1) ==>
                  LedgerMatches(ledger.0, StageAll(map[], Requests(visits))) &&
                  HostedMatches(hosted.0, StageAll(map[], Requests(visits))))
  {
    hide Diverges, NoneDiverges, LedgerStep, HostedStep, Stage, Alike, Admitted, Orderly;
    var requests := Requests(visits);
    if visits == [] {
      NoneDivergesYet(maxRuns, maxObservations);
      assert requests == [];
    } else {
      var shorter, last := visits[..|visits| - 1], visits[|visits| - 1];
      RunsAgree(maxRuns, maxObservations, shorter);
      assert Requests(shorter) == requests[..|requests| - 1];
      NoneDivergesBefore(maxRuns, maxObservations, requests);
      RunsKeepOrder(Requests(shorter));
      OneAnswerEach(Ledger(maxRuns, maxObservations, map[]), Tables(map[], map[]), shorter);
      var ledger := LedgerAll(Ledger(maxRuns, maxObservations, map[]), shorter);
      var hosted := HostedAll(Tables(map[], map[]), shorter);
      BoundsStay(ledger.0, last.1);
      AlikeSoFar(ledger.1, hosted.1, LedgerStep(ledger.0, last.1).1, HostedStep(hosted.0, last.0, last.1).1);
      if AllAlike(ledger.1, hosted.1) {
        StepAgrees(ledger.0, hosted.0, StageAll(map[], Requests(shorter)), last.0, last.1);
      }
    }
  }
}
