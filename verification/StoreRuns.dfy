/** Runs of the whole store: the bytes of the log, with crashes at any byte, and the snapshot files beside it.
    They are runs of the typed log and its files, so start-up never depends on where a crash struck. */
module StoreRuns {
  import opened Positions
  import opened Records
  import opened Events
  import opened Agreement
  import opened Compaction
  import opened RetainScan
  import opened EventLogs
  import opened Snapshots
  import opened Decodings
  import Crashes
  import SnapshotRuns

  datatype Store = Store(machine: Crashes.Machine, files: map<string, File>)

  /** A step of the log; a snapshot, its file written and then its marker appended, or torn; a file that no
      marker authorises put by anyone else; a file removed. */
  datatype Step =
    | OnLog(step: Crashes.Step)
    | TakeSnapshot(name: string, memory: Projection, marking: Crashes.Step)
    | PutFile(stray: string, file: File)
    | RemoveFile(removed: string)

  // ----- the steps -----

  predicate Appends(step: Crashes.Step) {
    step.AppendRecord? || step.TearAppend?
  }

  function Appended(m: Crashes.Machine, step: Crashes.Step): Event
    requires Appends(step)
  {
    if step.AppendRecord? then Crashes.NewEvent(m, step.kind, step.payload, step.timestamp)
    else Crashes.NewEvent(m, step.tornKind, step.tornPayload, step.tornAt)
  }

  /** Every byte of the record is written. */
  predicate Completes(step: Crashes.Step)
    requires Appends(step)
  {
    step.AppendRecord? || step.written >= MINIMUM_SIZE + |step.tornPayload|
  }

  function LogOf(m: Crashes.Machine, decode: Decoder): seq<Entry> {
    TypedAll(m.completed, decode)
  }

  /** Compaction uses the one decoder, and the records appended decode to complete events, none a marker. */
  ghost predicate Decodes(m: Crashes.Machine, step: Crashes.Step, decode: Decoder) {
    && (step.CompactLog? ==> step.decode == decode)
    && (Appends(step) ==>
          var c := Typed(Appended(m, step), decode).content;
          Complete(c) && !c.ProfileSnapshotCreated?)
  }

  /** The snapshot holds a projection that is up to date, and the marker names it and the last entry. */
  ghost predicate Marks(m: Crashes.Machine, name: string, memory: Projection, marking: Crashes.Step, decode: Decoder) {
    && Appends(marking) && Agree({}, memory, Fold(EMPTY, LogOf(m, decode)))
    && Typed(Appended(m, marking), decode).content == ProfileSnapshotCreated(Marker(name, LastId(LogOf(m, decode)), 2))
  }

  ghost predicate Enabled(s: Store, step: Step, decode: Decoder) {
    match step
    case OnLog(of) => Crashes.Enabled(s.machine, of) && Decodes(s.machine, of, decode)
    case TakeSnapshot(name, memory, marking) =>
      Crashes.Enabled(s.machine, marking) && Marks(s.machine, name, memory, marking, decode)
    case PutFile(name, file) => !Authorised(LogOf(s.machine, decode), name, file)
    case RemoveFile(_) => true
  }

  function SnapshotFile(m: Crashes.Machine, memory: Projection, decode: Decoder): File {
    Snapshot(LastId(LogOf(m, decode)), 2, SnapshotOf(memory))
  }

  ghost function After(s: Store, step: Step, decode: Decoder): Store
    requires Enabled(s, step, decode)
  {
    match step
    case OnLog(of) => s.(machine := Crashes.After(s.machine, of))
    case TakeSnapshot(name, memory, marking) =>
      Store(Crashes.After(s.machine, marking), s.files[name := SnapshotFile(s.machine, memory, decode)])
    case PutFile(name, file) => s.(files := s.files[name := file])
    case RemoveFile(name) => s.(files := s.files - {name})
  }

  // ----- what a step is to the typed log -----

  function TypedLogStep(m: Crashes.Machine, step: Crashes.Step, decode: Decoder): seq<SnapshotRuns.Step> {
    if Appends(step) then if Completes(step) then [SnapshotRuns.Append(Typed(Appended(m, step), decode))] else []
    else if step.CompactLog? then
      [SnapshotRuns.Compacting(TypedAll(Markers(HasLegacySchema(m.completed), m.nextId, step.notes), decode))]
    else []
  }

  /** A step of the store is one of the typed log and its files, or none. A snapshot whose marker is torn is a
      file nothing authorises. */
  function TypedStep(s: Store, step: Step, decode: Decoder): seq<SnapshotRuns.Step> {
    match step
    case OnLog(of) => TypedLogStep(s.machine, of, decode)
    case TakeSnapshot(name, memory, marking) =>
      if Appends(marking) && Completes(marking) then
        [SnapshotRuns.TakeSnapshot(name, memory, Typed(Appended(s.machine, marking), decode))]
      else [SnapshotRuns.PutFile(name, SnapshotFile(s.machine, memory, decode))]
    case PutFile(name, file) => [SnapshotRuns.PutFile(name, file)]
    case RemoveFile(name) => [SnapshotRuns.RemoveFile(name)]
  }

  function DiskOf(s: Store, decode: Decoder): SnapshotRuns.Disk {
    SnapshotRuns.Disk(LogOf(s.machine, decode), s.files)
  }

  lemma {:induction false} NewEntry(m: Crashes.Machine, e: Event, decode: Decoder)
    requires Crashes.Sound(m) && m.running && e.id == m.nextId
    ensures LogOf(m.(completed := m.completed + [e]), decode) == LogOf(m, decode) + [Typed(e, decode)]
    ensures LastId(LogOf(m, decode)) < Typed(e, decode).id && Increasing(LogOf(m, decode))
  {
    hide TypedAll, LastId, Crashes.IncreasingIds;
    TypedConcat(m.completed, [e], decode);
    TypedOne(e, decode);
    TypedIds(m.completed, decode);
  }

  /** What appending, whole or torn, leaves completed. */
  lemma AppendCompletes(m: Crashes.Machine, step: Crashes.Step)
    requires Crashes.Enabled(m, step) && Appends(step)
    ensures m.running && Appended(m, step).id == m.nextId
    ensures Crashes.After(m, step).completed == m.completed + if Completes(step) then [Appended(m, step)] else []
  {
    hide Serialize, Encodable;
  }

  lemma {:induction false} CompactingIs(m: Crashes.Machine, decode: Decoder, notes: Notes)
    requires Crashes.Sound(m) && m.running && KnowsMarkers(decode)
    ensures
      var markers := TypedAll(Markers(HasLegacySchema(m.completed), m.nextId, notes), decode);
      && SnapshotRuns.CompactionMarkers(markers, LastId(LogOf(m, decode)))
      && TypedAll(CompactedEvents(m.completed, decode, m.nextId, notes), decode) == Compact(LogOf(m, decode)) + markers
  {
    hide TypedAll, LastId, Crashes.IncreasingIds, HasLegacySchema, Compact, CompactedEvents, Markers, KnowsMarkers,
         SnapshotRuns.CompactionMarkers;
    TypedIds(m.completed, decode);
    CompactedTyped(m.completed, decode, m.nextId, notes);
    MarkersMark(HasLegacySchema(m.completed), m.nextId, notes, decode);
  }

  lemma {:induction false} OneStep(d: SnapshotRuns.Disk, step: SnapshotRuns.Step)
    ensures SnapshotRuns.Reached(d, [step]) == SnapshotRuns.After(d, step)
    ensures SnapshotRuns.IsProgramRun(d, [step]) <==> SnapshotRuns.Programmed(d, step)
  {
    hide SnapshotRuns.After, SnapshotRuns.Programmed;
    assert [step][1..] == [];
  }

  ghost predicate Refines(s: Store, step: Step, decode: Decoder)
    requires Enabled(s, step, decode)
  {
    var steps, d := TypedStep(s, step, decode), DiskOf(s, decode);
    SnapshotRuns.IsProgramRun(d, steps) && SnapshotRuns.Reached(d, steps) == DiskOf(After(s, step, decode), decode)
  }

  lemma {:induction false} LogStepRefines(s: Store, of: Crashes.Step, decode: Decoder)
    requires Crashes.Sound(s.machine) && Enabled(s, OnLog(of), decode) && KnowsMarkers(decode)
    ensures Refines(s, OnLog(of), decode)
  {
    hide TypedAll, LastId, Serialize, SerializeAll, Encodable, Markers, HasLegacySchema, Compact, CompactedEvents, Complete,
         KnowsMarkers, SnapshotRuns.CompactionMarkers, Crashes.FileHolds, Crashes.Sound, ReplayFrom, Typed, Increasing;
    var steps, d := TypedStep(s, OnLog(of), decode), DiskOf(s, decode);
    if steps != [] {
      OneStep(d, steps[0]);
      assert steps == [steps[0]];
    }
    if Appends(of) {
      AppendCompletes(s.machine, of);
      NewEntry(s.machine, Appended(s.machine, of), decode);
      assert s.machine.completed + [] == s.machine.completed;
    } else if of.CompactLog? {
      CompactingIs(s.machine, decode, of.notes);
    }
  }

  lemma {:induction false} SnapshotRefines(s: Store, name: string, memory: Projection, marking: Crashes.Step, decode: Decoder)
    requires Crashes.Sound(s.machine) && Enabled(s, TakeSnapshot(name, memory, marking), decode)
    ensures Refines(s, TakeSnapshot(name, memory, marking), decode)
  {
    hide TypedAll, LastId, Serialize, SerializeAll, Encodable, Agree, Fold, SnapshotOf, Authorises, Crashes.FileHolds, Crashes.Sound,
         ReplayFrom, Typed, Increasing;
    var steps, d := TypedStep(s, TakeSnapshot(name, memory, marking), decode), DiskOf(s, decode);
    OneStep(d, steps[0]);
    assert steps == [steps[0]];
    AppendCompletes(s.machine, marking);
    NewEntry(s.machine, Appended(s.machine, marking), decode);
    assert s.machine.completed + [] == s.machine.completed;
    var file := SnapshotFile(s.machine, memory, decode);
    if Authorised(d.log, name, file) {
      SnapshotRuns.AuthorisedWatermark(d.log, name, file);
    }
  }

  lemma {:induction false} FileStepRefines(s: Store, step: Step, decode: Decoder)
    requires Enabled(s, step, decode) && (step.PutFile? || step.RemoveFile?)
    ensures Refines(s, step, decode)
  {
    hide TypedAll, Authorised;
    var steps, d := TypedStep(s, step, decode), DiskOf(s, decode);
    OneStep(d, steps[0]);
    assert steps == [steps[0]];
  }

  /** Every step of the store is a step, or none, of the typed log and its files. */
  lemma {:induction false} StepRefines(s: Store, step: Step, decode: Decoder)
    requires Crashes.Sound(s.machine) && Enabled(s, step, decode) && KnowsMarkers(decode)
    ensures Refines(s, step, decode) && Crashes.Sound(After(s, step, decode).machine)
  {
    hide Crashes.Sound, Crashes.Enabled, Crashes.After, KnowsMarkers, Refines, Decodes, Marks;
    match step
    case OnLog(of) =>
      Crashes.StepKeepsSound(s.machine, of);
      LogStepRefines(s, of, decode);
    case TakeSnapshot(name, memory, marking) =>
      Crashes.StepKeepsSound(s.machine, marking);
      SnapshotRefines(s, name, memory, marking, decode);
    case PutFile(_, _) => FileStepRefines(s, step, decode);
    case RemoveFile(_) => FileStepRefines(s, step, decode);
  }

  // ----- runs -----

  ghost predicate IsRun(s: Store, steps: seq<Step>, decode: Decoder)
    decreases |steps|
  {
    steps == [] || (Enabled(s, steps[0], decode) && IsRun(After(s, steps[0], decode), steps[1..], decode))
  }

  ghost function Reached(s: Store, steps: seq<Step>, decode: Decoder): Store
    requires IsRun(s, steps, decode)
    decreases |steps|
  {
    if steps == [] then s else Reached(After(s, steps[0], decode), steps[1..], decode)
  }

  /** The typed steps of a run. */
  ghost function TypedSteps(s: Store, steps: seq<Step>, decode: Decoder): seq<SnapshotRuns.Step>
    requires IsRun(s, steps, decode)
    decreases |steps|
  {
    if steps == [] then []
    else TypedStep(s, steps[0], decode) + TypedSteps(After(s, steps[0], decode), steps[1..], decode)
  }

  lemma {:induction false} RunsJoin(d: SnapshotRuns.Disk, a: seq<SnapshotRuns.Step>, b: seq<SnapshotRuns.Step>)
    requires SnapshotRuns.IsProgramRun(d, a) && SnapshotRuns.IsProgramRun(SnapshotRuns.Reached(d, a), b)
    ensures SnapshotRuns.IsProgramRun(d, a + b)
    ensures SnapshotRuns.Reached(d, a + b) == SnapshotRuns.Reached(SnapshotRuns.Reached(d, a), b)
    decreases |a|
  {
    hide SnapshotRuns.After, SnapshotRuns.Programmed;
    if a == [] {
      assert a + b == b;
    } else {
      assert (a + b)[0] == a[0] && (a + b)[1..] == a[1..] + b;
      RunsJoin(SnapshotRuns.After(d, a[0]), a[1..], b);
    }
  }

  /** Every run of the store, crashes, torn records and torn markers included, is a run of the typed log and
      its files. */
  lemma {:induction false} RunRefines(s: Store, steps: seq<Step>, decode: Decoder)
    requires Crashes.Sound(s.machine) && IsRun(s, steps, decode) && KnowsMarkers(decode)
    ensures
      var typed, d := TypedSteps(s, steps, decode), DiskOf(s, decode);
      && SnapshotRuns.IsProgramRun(d, typed) && SnapshotRuns.Reached(d, typed) == DiskOf(Reached(s, steps, decode), decode)
      && Crashes.Sound(Reached(s, steps, decode).machine)
    decreases |steps|
  {
    hide Crashes.Sound, Enabled, After, KnowsMarkers, TypedStep, SnapshotRuns.After, SnapshotRuns.Programmed, DiskOf;
    if steps != [] {
      var next, rest := After(s, steps[0], decode), steps[1..];
      StepRefines(s, steps[0], decode);
      RunRefines(next, rest, decode);
      RunsJoin(DiskOf(s, decode), TypedStep(s, steps[0], decode), TypedSteps(next, rest, decode));
    }
  }

  /** After any run of appends, compactions, snapshots, crashes at any byte and reopenings, start-up from the
      bytes and the files that are left, listed in any order, reaches the projection of all events left. */
  lemma {:induction false} CrashedRunStartsUp(s: Store, steps: seq<Step>, decode: Decoder, listing: seq<Named>)
    requires Crashes.Sound(s.machine) && IsRun(s, steps, decode) && KnowsMarkers(decode)
    requires SnapshotRuns.Sound(DiskOf(s, decode)) && AllComplete(LogOf(s.machine, decode))
    requires SnapshotRuns.Listed(SnapshotRuns.Disk([], Reached(s, steps, decode).files), listing)
    ensures
      var log := TypedAll(ReplayAll(Reached(s, steps, decode).machine.file).events, decode);
      Agree({}, Startup(listing, log), Fold(EMPTY, log))
  {
    hide Crashes.Sound, Enabled, After, KnowsMarkers, SnapshotRuns.Sound, Agree, Fold, Startup, TypedAll, ReplayFrom, SerializeAll,
         AllComplete, IsRun, Reached, TypedSteps;
    var d, typed := DiskOf(s, decode), TypedSteps(s, steps, decode);
    RunRefines(s, steps, decode);
    SnapshotRuns.ProgramRunIsRun(d, typed);
    Crashes.SoundReplays(Reached(s, steps, decode).machine);
    SnapshotRuns.RunStartupAgrees(d, typed, listing);
  }
}
