/** The in-memory ledger of browser observations: bounded, its runs found by one text key, each run's
    observations kept in order of ply and sequence. */
module Ledgers {
  import opened Positions
  import opened Text
  import opened Observations

  datatype LedgerRun = LedgerRun(context: RunContext, next: nat, entries: seq<Observation>, final: bool)

  datatype Ledger = Ledger(maxRuns: nat, maxObservations: nat, runs: map<string, LedgerRun>)

  // ----- keys -----

  /** The owner's length, the owner and the run as one text. */
  function RunKey(owner: string, runId: string): string {
    NatText(|owner|) + ":" + owner + ":" + runId
  }

  lemma DigitsEnd(number: string, rest: string, key: string)
    requires key == number + rest && forall c :: c in number ==> IsDigit(c)
    ensures forall i :: 0 <= i < |number| ==> IsDigit(key[i])
  {
    forall i | 0 <= i < |number|
      ensures IsDigit(key[i])
    {
      assert key[i] == number[i] && number[i] in number;
    }
  }

  lemma SameNumber(a: string, rest: string, b: string, otherRest: string)
    requires a + rest == b + otherRest && rest != "" && otherRest != "" && rest[0] == ':' && otherRest[0] == ':'
    requires (forall c :: c in a ==> IsDigit(c)) && forall c :: c in b ==> IsDigit(c)
    ensures a == b && rest == otherRest
  {
    var key := a + rest;
    DigitsEnd(a, rest, key);
    DigitsEnd(b, otherRest, key);
    assert key[|a|] == rest[0] && key[|b|] == otherRest[0];
    assert !IsDigit(key[|a|]) && !IsDigit(key[|b|]);
    assert a == key[..|a|] && b == key[..|b|] && rest == key[|a|..] && otherRest == key[|b|..];
  }

  lemma SameOwner(owner: string, runId: string, other: string, otherRun: string)
    requires |owner| == |other| && owner + ":" + runId == other + ":" + otherRun
    ensures owner == other && runId == otherRun
  {
    var rest := owner + ":" + runId;
    assert owner == rest[..|owner|] && other == rest[..|owner|];
    assert runId == rest[|owner| + 1..] && otherRun == rest[|owner| + 1..];
  }

  /** Different owners or runs never share a key, whatever colons their names hold. */
  lemma RunKeyInjective(owner: string, runId: string, other: string, otherRun: string)
    requires RunKey(owner, runId) == RunKey(other, otherRun)
    ensures owner == other && runId == otherRun
  {
    hide NatText, NatValue, IsDigit;
    var rest, otherRest := owner + ":" + runId, other + ":" + otherRun;
    assert RunKey(owner, runId) == NatText(|owner|) + (":" + rest);
    assert RunKey(other, otherRun) == NatText(|other|) + (":" + otherRest);
    SameNumber(NatText(|owner|), ":" + rest, NatText(|other|), ":" + otherRest);
    assert rest == (":" + rest)[1..] && otherRest == (":" + otherRest)[1..];
    NatRoundTrip(|owner|);
    NatRoundTrip(|other|);
    SameOwner(owner, runId, other, otherRun);
  }

  // ----- a map ordered by ply and sequence -----

  predicate Before(a: Observation, b: Observation) {
    a.ply < b.ply || (a.ply == b.ply && a.sequence < b.sequence)
  }

  function Lookup(entries: seq<Observation>, ply: nat, sequence: nat): (found: Option<Observation>)
    ensures found.Some? ==> found.value in entries && found.value.ply == ply && found.value.sequence == sequence
    ensures found.None? ==> forall e :: e in entries ==> e.ply != ply || e.sequence != sequence
  {
    if entries == [] then None
    else if entries[0].ply == ply && entries[0].sequence == sequence then Some(entries[0])
    else Lookup(entries[1..], ply, sequence)
  }

  function Emplaced(entries: seq<Observation>, o: Observation): seq<Observation> {
    if entries == [] || Before(o, entries[0]) then [o] + entries
    else [entries[0]] + Emplaced(entries[1..], o)
  }

  predicate Ordered(entries: seq<Observation>) {
    forall i, j :: 0 <= i < j < |entries| ==> Before(entries[i], entries[j])
  }

  lemma {:induction false} EmplacedHolds(entries: seq<Observation>, o: Observation)
    ensures multiset(Emplaced(entries, o)) == multiset(entries) + multiset{o}
  {
    if entries == [] || Before(o, entries[0]) {
      assert multiset([o] + entries) == multiset{o} + multiset(entries);
    } else {
      EmplacedHolds(entries[1..], o);
      assert entries == [entries[0]] + entries[1..];
    }
  }

  lemma {:induction false} EmplacedOrdered(entries: seq<Observation>, o: Observation)
    requires Ordered(entries)
    requires forall e :: e in entries ==> e.ply != o.ply || e.sequence != o.sequence
    ensures Ordered(Emplaced(entries, o))
  {
    if entries == [] {
    } else if Before(o, entries[0]) {
      assert forall j :: 0 <= j < |entries| ==> Before(o, entries[j]);
    } else {
      var rest := Emplaced(entries[1..], o);
      EmplacedOrdered(entries[1..], o);
      EmplacedHolds(entries[1..], o);
      assert entries[0] in entries;
      forall j | 0 <= j < |rest|
        ensures Before(entries[0], rest[j])
      {
        assert rest[j] in multiset(rest);
      }
    }
  }

  // ----- operations -----

  function LedgerBegan(l: Ledger, owner: string, c: RunContext): (Ledger, Response) {
    if !RunContextValid(c) then (l, Refused(InvalidRun))
    else if !OwnerFits(owner) then (l, Refused(InvalidOwner))
    else
      var key := RunKey(owner, c.runId);
      if key in l.runs then
        var known := l.runs[key].context;
        if known.gameId != c.gameId || known.profile != c.profile then (l, Refused(ContextChanged))
        else if known.expected != 0 && c.expected != 0 && known.expected != c.expected then (l, Refused(LengthChanged))
        else (l.(runs := l.runs[key := l.runs[key].(context := Continued(known, c))]), Begun)
      else if |l.runs| >= l.maxRuns then (l, Refused(RunCapacity))
      else (l.(runs := l.runs[key := LedgerRun(c, 0, [], false)]), Begun)
  }

  /** The verdict on an observation of the run's own game, run and profile. */
  function LedgerVerdict(run: LedgerRun, o: Observation, maxObservations: nat): Response {
    var existing := Lookup(run.entries, o.ply, o.sequence);
    if existing.Some? then if existing.value == o then Duplicate(o.sequence) else Refused(Conflict)
    else if run.final then Refused(AlreadyFinal)
    else if run.context.expected != 0 && |run.entries| >= run.context.expected then Refused(AlreadyComplete)
    else if |run.entries| >= maxObservations then Refused(Capacity)
    else if o.sequence != run.next then Refused(Stale)
    else Accepted(o.sequence)
  }

  ghost function LedgerSubmitted(l: Ledger, owner: string, c: Context, o: Observation): (Ledger, Response) {
    if !Validates(c, o) then (l, Refused(InvalidObservation))
    else if !OwnerFits(owner) then (l, Refused(InvalidOwner))
    else
      var key := RunKey(owner, c.runId);
      if key !in l.runs then (l, Refused(NotRegistered))
      else
        var run := l.runs[key];
        if run.context.gameId != c.gameId || run.context.profile != c.profile || run.context.runId != c.runId
        then (l, Refused(ContextChanged))
        else
          var verdict := LedgerVerdict(run, o, l.maxObservations);
          if verdict.Accepted?
          then (l.(runs := l.runs[key := run.(entries := Emplaced(run.entries, o), next := run.next + 1)]), verdict)
          else (l, verdict)
  }

  function LedgerFinalized(l: Ledger, owner: string, gameId: string, runId: string): (Ledger, Response) {
    var key := RunKey(owner, runId);
    if !OwnerFits(owner) then (l, Refused(InvalidOwner))
    else if key !in l.runs then (l, Refused(NotRegistered))
    else
      var run := l.runs[key];
      if run.context.gameId != gameId then (l, Refused(WrongGame))
      else if run.context.expected == 0 then (l, Refused(NoExpectedCount))
      else if |run.entries| != run.context.expected then (l, Refused(Refusal.Incomplete))
      else (l.(runs := l.runs[key := run.(final := true)]), Bundle(run.context, run.entries))
  }

  ghost function LedgerStep(l: Ledger, request: Request): (Ledger, Response) {
    match request
    case Begin(owner, c) => LedgerBegan(l, owner, c)
    case Submit(owner, c, o) => LedgerSubmitted(l, owner, c, o)
    case Finalize(owner, gameId, runId) => LedgerFinalized(l, owner, gameId, runId)
  }

  // ----- the object -----

  class BrowserObservationLedger {
    const maxRuns: nat
    const maxObservations: nat
    var runs: map<string, LedgerRun>

    ghost function State(): Ledger
      reads this
    {
      Ledger(maxRuns, maxObservations, runs)
    }

    constructor (runBound: nat, observationBound: nat)
      requires runBound > 0 && observationBound > 0
      ensures State() == Ledger(runBound, observationBound, map[])
    {
      maxRuns, maxObservations, runs := runBound, observationBound, map[];
    }

    method Begin(owner: string, c: RunContext) returns (response: Response)
      modifies this
      ensures (State(), response) == LedgerStep(old(State()), Request.Begin(owner, c))
    {
      if !RunContextValid(c) {
        return Refused(InvalidRun);
      }
      if !OwnerFits(owner) {
        return Refused(InvalidOwner);
      }
      var key := RunKey(owner, c.runId);
      if key in runs {
        var run := runs[key];
        if run.context.gameId != c.gameId || run.context.profile != c.profile {
          return Refused(ContextChanged);
        }
        if run.context.expected != 0 && c.expected != 0 && run.context.expected != c.expected {
          return Refused(LengthChanged);
        }
        if run.context.expected == 0 {
          run := run.(context := run.context.(expected := c.expected));
        }
        runs := runs[key := run];
        return Begun;
      }
      if |runs| >= maxRuns {
        return Refused(RunCapacity);
      }
      runs := runs[key := LedgerRun(c, 0, [], false)];
      return Begun;
    }

    /** `valid` is the verdict of the validation that comes first. */
    method Submit(owner: string, c: Context, o: Observation, valid: bool) returns (response: Response)
      requires valid == Validates(c, o)
      modifies this
      ensures (State(), response) == LedgerStep(old(State()), Request.Submit(owner, c, o))
    {
      hide Validates;
      if !valid {
        return Refused(InvalidObservation);
      }
      if !OwnerFits(owner) {
        return Refused(InvalidOwner);
      }
      var key := RunKey(owner, c.runId);
      if key !in runs {
        return Refused(NotRegistered);
      }
      var run := runs[key];
      if run.context.gameId != c.gameId || run.context.profile != c.profile || run.context.runId != c.runId {
        return Refused(ContextChanged);
      }
      var existing := Lookup(run.entries, o.ply, o.sequence);
      if existing.Some? {
        return if existing.value == o then Duplicate(o.sequence) else Refused(Conflict);
      }
      if run.final {
        return Refused(AlreadyFinal);
      }
      if run.context.expected != 0 && |run.entries| >= run.context.expected {
        return Refused(AlreadyComplete);
      }
      if |run.entries| >= maxObservations {
        return Refused(Capacity);
      }
      if o.sequence != run.next {
        return Refused(Stale);
      }
      run := run.(entries := Emplaced(run.entries, o));
      run := run.(next := run.next + 1);
      runs := runs[key := run];
      return Accepted(o.sequence);
    }

    method Finalize(owner: string, gameId: string, runId: string) returns (response: Response)
      modifies this
      ensures (State(), response) == LedgerStep(old(State()), Request.Finalize(owner, gameId, runId))
    {
      if !OwnerFits(owner) {
        return Refused(InvalidOwner);
      }
      var key := RunKey(owner, runId);
      if key !in runs {
        return Refused(NotRegistered);
      }
      var run := runs[key];
      if run.context.gameId != gameId {
        return Refused(WrongGame);
      }
      if run.context.expected == 0 {
        return Refused(NoExpectedCount);
      }
      if |run.entries| != run.context.expected {
        return Refused(Refusal.Incomplete);
      }
      runs := runs[key := run.(final := true)];
      var observations := [];
      for i := 0 to |run.entries|
        invariant observations == run.entries[..i]
        invariant runs == old(runs)[key := run.(final := true)]
      {
        observations := observations + [run.entries[i]];
      }
      assert run.entries[..|run.entries|] == run.entries;
      return Bundle(run.context, observations);
    }
  }
}
