/** Runs of appends, compactions, snapshots and stray files: start-up never depends on the snapshots. */
module SnapshotRuns {
  import opened Positions
  import opened Events
  import opened Agreement
  import opened Compaction
  import opened Snapshots

  datatype Disk = Disk(log: seq<Entry>, files: map<string, File>)

  ghost predicate Listed(d: Disk, files: seq<Named>) {
    forall n :: n in files ==> n.name in d.files && d.files[n.name] == n.file
  }

  ghost predicate FilesGood(d: Disk) {
    forall name :: name in d.files && Authorised(d.log, name, d.files[name]) ==> Good(d.files[name], d.log)
  }

  ghost predicate Sound(d: Disk) {
    Increasing(d.log) && FilesGood(d)
  }

  lemma SoundIncreasing(d: Disk)
    requires Sound(d)
    ensures Increasing(d.log)
  {
  }

  /** Compaction loses nothing: neither from the whole log nor from what is replayed on top of a snapshot
      that stays authorised. */
  ghost predicate Compactable(d: Disk) {
    && NothingLost(EMPTY, d.log)
    && forall name :: name in d.files && Authorised(Compact(d.log), name, d.files[name]) ==>
                       d.files[name].Snapshot? && NothingLost(d.files[name].content, Suffix(d.log, d.files[name].watermark))
  }

  // ----- steps -----

  datatype Step =
    | Append(event: Entry)
    | Compacting(markers: seq<Entry>)
    | TakeSnapshot(name: string, memory: Projection, marker: Entry)
    | PutFile(stray: string, file: File)
    | RemoveFile(removed: string)

  /** Events compaction adds at the end: they carry nothing the projection reads. */
  ghost predicate CompactionMarkers(markers: seq<Entry>, last: nat) {
    && Increasing(markers)
    && forall e :: e in markers ==> last < e.id && (e.content.SchemaMigrated? || e.content.LogCompacted?)
  }

  /** What each step needs: events with fresh ids; a log whose compaction loses nothing; a snapshot of a
      projection that is up to date; and no file put by anyone else under a name, watermark and version that
      a marker authorises. */
  ghost predicate Enabled(d: Disk, step: Step) {
    match step
    case Append(e) => LastId(d.log) < e.id && !e.content.ProfileSnapshotCreated?
    case Compacting(markers) => CompactionMarkers(markers, LastId(d.log)) && Compactable(d)
    case TakeSnapshot(name, memory, e) =>
      LastId(d.log) < e.id && Agree({}, memory, Fold(EMPTY, d.log)) &&
      e.content == ProfileSnapshotCreated(Marker(name, LastId(d.log), 2))
    case PutFile(name, file) => !Authorised(d.log, name, file)
    case RemoveFile(_) => true
  }

  function After(d: Disk, step: Step): Disk {
    match step
    case Append(e) => d.(log := d.log + [e])
    case Compacting(markers) => d.(log := Compact(d.log) + markers)
    case TakeSnapshot(name, memory, e) =>
      Disk(d.log + [e], d.files[name := Snapshot(LastId(d.log), 2, SnapshotOf(memory))])
    case PutFile(name, file) => d.(files := d.files[name := file])
    case RemoveFile(name) => d.(files := d.files - {name})
  }

  // ----- appending -----

  lemma IncreasingAppend(log: seq<Entry>, e: Entry)
    requires Increasing(log) && LastId(log) < e.id
    ensures Increasing(log + [e])
  {
  }

  lemma IdsUpToLast(log: seq<Entry>, e: Entry)
    requires Increasing(log) && e in log
    ensures 0 < e.id <= LastId(log)
  {
  }

  lemma AuthorisedWatermark(log: seq<Entry>, name: string, f: File)
    requires Increasing(log) && Authorised(log, name, f)
    ensures f.Snapshot? && f.watermark < LastId(log)
  {
    var e :| e in log && Authorises(e, name, f);
    IdsUpToLast(log, e);
  }

  lemma GoodAppend(f: File, log: seq<Entry>, e: Entry)
    requires Good(f, log) && f.watermark < e.id
    ensures Good(f, log + [e])
  {
    hide Agree, Apply;
    SuffixConcat(log, [e], f.watermark);
    SuffixSingle(e, f.watermark);
    FoldOne(f.content, Suffix(log, f.watermark), e);
    FoldOne(EMPTY, log, e);
    ApplyAgree({}, Fold(f.content, Suffix(log, f.watermark)), Fold(EMPTY, log), e);
  }

  lemma AuthorisedBefore(log: seq<Entry>, e: Entry, name: string, f: File)
    requires Authorised(log + [e], name, f) && !Authorises(e, name, f)
    ensures Authorised(log, name, f)
  {
    hide Authorises;
    var x :| x in log + [e] && Authorises(x, name, f);
    assert x in log;
  }

  lemma AppendKeepsGood(d: Disk, e: Entry)
    requires Sound(d) && LastId(d.log) < e.id && !e.content.ProfileSnapshotCreated?
    ensures FilesGood(d.(log := d.log + [e]))
  {
    hide Authorised, Good, Increasing;
    var log := d.log + [e];
    forall name | name in d.files && Authorised(log, name, d.files[name])
      ensures Good(d.files[name], log)
    {
      assert !Authorises(e, name, d.files[name]);
      OtherFileKept(d, name, e);
    }
  }

  // ----- compacting -----

  lemma {:induction false} UnprojectedFold(p: Projection, markers: seq<Entry>)
    requires forall e :: e in markers ==> e.content.SchemaMigrated? || e.content.LogCompacted?
    ensures Fold(p, markers) == p
    decreases |markers|
  {
    hide Apply;
    if markers != [] {
      assert markers[0] in markers;
      Unprojected(p, markers[0]);
      assert forall e :: e in markers[1..] ==> e in markers;
      UnprojectedFold(p, markers[1..]);
    }
  }

  lemma {:induction false} CompactIncreasing(log: seq<Entry>)
    requires Increasing(log)
    ensures Increasing(Compact(log))
    decreases |log|
  {
    hide Dropped, Increasing;
    if log == [] {
      NothingIncreasing();
    } else {
      TailIncreasing(log);
      FirstPositive(log);
      var e, rest := log[0], log[1..];
      CompactIncreasing(rest);
      forall x | x in Compact(rest)
        ensures e.id < x.id
      {
        CompactIn(rest, x);
      }
      PrependIncreasing(e, Compact(rest));
      assert Compact(log) == if Dropped(e.content, rest) then Compact(rest) else [e] + Compact(rest);
    }
  }

  lemma NothingIncreasing()
    ensures Increasing([])
  {
  }

  lemma FirstPositive(log: seq<Entry>)
    requires Increasing(log) && log != []
    ensures log[0].id > 0
  {
  }

  lemma ConcatIncreasing(a: seq<Entry>, b: seq<Entry>, last: nat)
    requires Increasing(a) && Increasing(b)
    requires (forall e :: e in a ==> e.id <= last) && (forall e :: e in b ==> last < e.id)
    ensures Increasing(a + b)
  {
    var all := a + b;
    forall i, j | 0 <= i < j < |all|
      ensures all[i].id < all[j].id
    {
      assert i < |a| ==> all[i] in a;
      assert j >= |a| ==> all[j] in b;
    }
  }

  lemma CompactedIncreasing(d: Disk, markers: seq<Entry>)
    requires Sound(d) && CompactionMarkers(markers, LastId(d.log))
    ensures Increasing(Compact(d.log) + markers)
  {
    hide FilesGood, Compact;
    CompactIncreasing(d.log);
    forall e | e in Compact(d.log)
      ensures e.id <= LastId(d.log)
    {
      CompactIn(d.log, e);
      IdsUpToLast(d.log, e);
    }
    ConcatIncreasing(Compact(d.log), markers, LastId(d.log));
  }

  lemma PrependIncreasing(e: Entry, log: seq<Entry>)
    requires e.id > 0 && Increasing(log) && forall x :: x in log ==> e.id < x.id
    ensures Increasing([e] + log)
  {
    var all := [e] + log;
    forall i, j | 0 <= i < j < |all|
      ensures all[i].id < all[j].id
    {
      assert all[j] == log[j - 1] && log[j - 1] in log;
      assert i > 0 ==> all[i] == log[i - 1];
    }
  }

  /** The projection of a log survives its compaction, markers included, exactly when nothing is lost. */
  lemma {:induction false} CompactedFold(p: Projection, log: seq<Entry>, markers: seq<Entry>)
    requires forall e :: e in markers ==> e.content.SchemaMigrated? || e.content.LogCompacted?
    ensures Agree({}, Fold(p, log), Fold(p, Compact(log) + markers)) <==> NothingLost(p, log)
  {
    hide Agree, Fold, Compact, NothingLost;
    FoldConcat(p, Compact(log), markers);
    UnprojectedFold(Fold(p, Compact(log)), markers);
    CompactionExact(p, log);
  }

  /** A snapshot stays good over a compaction that loses nothing from the whole log exactly when it loses
      nothing from the events replayed on top of the snapshot. */
  lemma {:induction false} GoodCompact(f: File, log: seq<Entry>, markers: seq<Entry>)
    requires Increasing(log) && CompactionMarkers(markers, LastId(log))
    requires Good(f, log) && f.watermark < LastId(log) && NothingLost(EMPTY, log)
    ensures Good(f, Compact(log) + markers) <==> NothingLost(f.content, Suffix(log, f.watermark))
  {
    var w := f.watermark;
    var compacted := Compact(log) + markers;
    forall e | e in markers
      ensures Passes(e, w)
    {
    }
    SuffixAll(markers, w);
    hide Agree, Fold, Compact, Suffix, Increasing, NothingLost;
    SuffixConcat(Compact(log), markers, w);
    CompactSuffix(log, w);
    CompactedFold(f.content, Suffix(log, w), markers);
    CompactedFold(EMPTY, log, markers);
    SameClass(Fold(f.content, Suffix(log, w)), Fold(EMPTY, log), Fold(EMPTY, compacted), Fold(f.content, Suffix(compacted, w)));
  }

  /** Agreement is an equivalence: of four projections with a, b, c alike, d is like a exactly when like c. */
  lemma SameClass(a: Projection, b: Projection, c: Projection, d: Projection)
    requires Agree({}, a, b) && Agree({}, b, c)
    ensures Agree({}, a, d) <==> Agree({}, d, c)
  {
    hide Agree;
    AgreeTransitive({}, a, b, c);
    if Agree({}, a, d) {
      AgreeSymmetric({}, a, d);
      AgreeTransitive({}, d, a, c);
    } else if Agree({}, d, c) {
      AgreeSymmetric({}, d, c);
      AgreeTransitive({}, a, c, d);
    }
  }

  lemma AuthorisedKept(log: seq<Entry>, markers: seq<Entry>, name: string, f: File)
    requires CompactionMarkers(markers, LastId(log))
    ensures Authorised(Compact(log) + markers, name, f) <==> Authorised(Compact(log), name, f)
    ensures Authorised(Compact(log), name, f) ==> Authorised(log, name, f)
  {
    var compacted := Compact(log) + markers;
    assert forall e :: e in compacted <==> e in Compact(log) || e in markers;
    forall e | e in Compact(log)
      ensures e in log
    {
      CompactIn(log, e);
    }
    if Authorised(compacted, name, f) {
      var e :| e in compacted && Authorises(e, name, f);
      assert e in Compact(log);
    }
  }

  /** A snapshot in a compacted log is good exactly when nothing is lost on top of it. */
  lemma CompactKeepsFile(d: Disk, markers: seq<Entry>, name: string)
    requires Sound(d) && CompactionMarkers(markers, LastId(d.log)) && NothingLost(EMPTY, d.log)
    requires name in d.files && Authorised(Compact(d.log), name, d.files[name])
    ensures d.files[name].Snapshot?
    ensures Good(d.files[name], Compact(d.log) + markers) <==>
            NothingLost(d.files[name].content, Suffix(d.log, d.files[name].watermark))
  {
    hide Good, Authorised, NothingLost, Compact, Suffix, Increasing;
    SoundIncreasing(d);
    AuthorisedKept(d.log, markers, name, d.files[name]);
    AuthorisedWatermark(d.log, name, d.files[name]);
    assert Good(d.files[name], d.log);
    GoodCompact(d.files[name], d.log, markers);
  }

  /** Compaction keeps the projection and every snapshot that stays authorised exactly when the log is
      compactable. */
  lemma CompactingExact(d: Disk, markers: seq<Entry>)
    requires Sound(d) && CompactionMarkers(markers, LastId(d.log))
    ensures
      var next := d.(log := Compact(d.log) + markers);
      Compactable(d) <==> Agree({}, Fold(EMPTY, d.log), Fold(EMPTY, next.log)) && FilesGood(next)
  {
    hide Sound, Good, Authorised, NothingLost, Compact, Suffix, CompactionMarkers, Agree, Fold;
    var next := d.(log := Compact(d.log) + markers);
    assert forall e :: e in markers ==> e.content.SchemaMigrated? || e.content.LogCompacted? by {
      MarkersUnprojected(markers, LastId(d.log));
    }
    CompactedFold(EMPTY, d.log, markers);
    forall name | name in d.files
      ensures Authorised(next.log, name, d.files[name]) <==> Authorised(Compact(d.log), name, d.files[name])
      ensures NothingLost(EMPTY, d.log) && Authorised(Compact(d.log), name, d.files[name]) ==>
                d.files[name].Snapshot? &&
                (Good(d.files[name], next.log) <==> NothingLost(d.files[name].content, Suffix(d.log, d.files[name].watermark)))
    {
      AuthorisedKept(d.log, markers, name, d.files[name]);
      if NothingLost(EMPTY, d.log) && Authorised(Compact(d.log), name, d.files[name]) {
        CompactKeepsFile(d, markers, name);
      }
    }
  }

  lemma MarkersUnprojected(markers: seq<Entry>, last: nat)
    requires CompactionMarkers(markers, last)
    ensures forall e :: e in markers ==> e.content.SchemaMigrated? || e.content.LogCompacted?
  {
  }

  /** Logs of complete events can always be compacted. */
  lemma {:induction false} CompleteCompactable(d: Disk)
    requires Sound(d) && AllComplete(d.log)
    ensures Compactable(d)
  {
    hide Good, NothingLost, Compact, Suffix, Increasing;
    CompleteLosesNothing(EMPTY, d.log);
    forall name | name in d.files && Authorised(Compact(d.log), name, d.files[name])
      ensures d.files[name].Snapshot?
      ensures NothingLost(d.files[name].content, Suffix(d.log, d.files[name].watermark))
    {
      var f := d.files[name];
      assert f.Snapshot? by {
        var e :| e in Compact(d.log) && Authorises(e, name, f);
      }
      forall x | x in Suffix(d.log, f.watermark)
        ensures Complete(x.content)
      {
        SuffixIn(d.log, f.watermark, x);
      }
      CompleteLosesNothing(f.content, Suffix(d.log, f.watermark));
    }
  }

  /** The events compaction adds, under the next ids. */
  function CompactionEnd(legacy: bool, nextId: nat, at: int): (markers: seq<Entry>)
    ensures markers != []
  {
    if legacy then [Entry(nextId, at, SchemaMigrated), Entry(nextId + 1, at, LogCompacted(0, 0))]
    else [Entry(nextId, at, LogCompacted(0, 0))]
  }

  lemma CompactionEndMarks(legacy: bool, nextId: nat, at: int)
    requires nextId > 0
    ensures CompactionMarkers(CompactionEnd(legacy, nextId, at), nextId - 1)
    ensures forall i :: 0 <= i < |CompactionEnd(legacy, nextId, at)| ==> CompactionEnd(legacy, nextId, at)[i].id == nextId + i
  {
  }

  /** What compaction keeps is no later than what was there; its own events come last. */
  lemma {:induction false} KeptIds(log: seq<Entry>, markers: seq<Entry>)
    requires Increasing(log)
    ensures forall i :: 0 <= i < |Compact(log)| ==> (Compact(log) + markers)[i].id <= LastId(log)
    ensures forall i :: |Compact(log)| <= i < |Compact(log)| + |markers| ==> (Compact(log) + markers)[i] == markers[i - |Compact(log)|]
  {
    forall i | 0 <= i < |Compact(log)|
      ensures (Compact(log) + markers)[i].id <= LastId(log)
    {
      CompactIn(log, Compact(log)[i]);
      IdsUpToLast(log, Compact(log)[i]);
    }
  }

  /** A projection that agrees with the log agrees with the compacted log exactly when nothing is lost. */
  lemma {:induction false} CompactedAgrees(memory: Projection, log: seq<Entry>, markers: seq<Entry>)
    requires Agree({}, memory, Fold(EMPTY, log)) && CompactionMarkers(markers, LastId(log))
    ensures Agree({}, memory, Fold(EMPTY, Compact(log) + markers)) <==> NothingLost(EMPTY, log)
  {
    hide Agree, Fold, Compact, NothingLost;
    CompactedFold(EMPTY, log, markers);
    var whole, end := Fold(EMPTY, log), Fold(EMPTY, Compact(log) + markers);
    AgreeSymmetric({}, memory, whole);
    if Agree({}, memory, end) {
      AgreeTransitive({}, whole, memory, end);
    } else if Agree({}, whole, end) {
      AgreeTransitive({}, memory, whole, end);
    }
  }

  /** The compacted log is sound and still gives the projection exactly when it could be compacted. */
  lemma {:induction false} CompactingSound(d: Disk, markers: seq<Entry>, memory: Projection)
    requires Sound(d) && CompactionMarkers(markers, LastId(d.log)) && Agree({}, memory, Fold(EMPTY, d.log))
    ensures
      var next := d.(log := Compact(d.log) + markers);
      && Increasing(next.log)
      && (Compactable(d) <==> Sound(next) && Agree({}, memory, Fold(EMPTY, next.log)))
  {
    MarkersUnprojected(markers, LastId(d.log));
    CompactedIncreasing(d, markers);
    CompactingExact(d, markers);
    CompactedFold(EMPTY, d.log, markers);
    CompactedAgrees(memory, d.log, markers);
    hide Agree, Fold, Compact, NothingLost, Increasing, FilesGood, Compactable;
  }

  // ----- taking a snapshot -----

  /** The events replayed whatever the watermark rebuild exactly the variations and review attempts. */
  lemma {:induction false} AlwaysReplayedFold(p: Projection, q: Projection, log: seq<Entry>, watermark: nat)
    requires p.variations == q.variations && p.reviews == q.reviews
    requires forall e :: e in log ==> e.id <= watermark
    ensures Fold(p, Suffix(log, watermark)) ==
            p.(variations := Fold(q, log).variations, reviews := Fold(q, log).reviews)
    decreases |log|
  {
    if log != [] {
      var e, rest := log[0], log[1..];
      assert e in log && forall x :: x in rest ==> x in log;
      OnlyVariationsAndReviews(p, e);
      OnlyVariationsAndReviews(q, e);
      hide Apply;
      if AlwaysReplayed(e.content) {
        AlwaysReplayedFold(Apply(p, e), Apply(q, e), rest, watermark);
        assert Suffix(log, watermark) == [e] + Suffix(rest, watermark);
        assert ([e] + Suffix(rest, watermark))[1..] == Suffix(rest, watermark);
      } else {
        AlwaysReplayedFold(p, Apply(q, e), rest, watermark);
        assert Suffix(log, watermark) == Suffix(rest, watermark);
      }
    }
  }

  lemma OnlyVariationsAndReviews(p: Projection, e: Entry)
    ensures Apply(p, e).variations == VariationsAfter(p.variations, e) && Apply(p, e).reviews == ReviewsAfter(p.reviews, e)
    ensures AlwaysReplayed(e.content) ==>
              Apply(p, e) == p.(variations := VariationsAfter(p.variations, e), reviews := ReviewsAfter(p.reviews, e))
    ensures !AlwaysReplayed(e.content) ==> Apply(p, e).variations == p.variations && Apply(p, e).reviews == p.reviews
  {
  }

  lemma SnapshotGames(games: map<string, StoredGame>)
    ensures GamesAgree({}, map id | id in games :: Visible(games[id]), games)
  {
  }

  lemma SnapshotAgrees(memory: Projection, whole: Projection)
    requires Agree({}, memory, whole)
    ensures Agree({}, SnapshotOf(memory).(variations := whole.variations, reviews := whole.reviews), whole)
  {
    SnapshotGames(memory.games);
    hide GamesAgree, Visible;
    AgreeSame({}, memory);
    AgreeSame({}, whole);
    var restored := memory.(games := SnapshotOf(memory).games);
    assert Agree({}, restored, memory);
    AgreeTransitive({}, restored, memory, whole);
    hide DrillsAgree, MapsAgree;
  }

  lemma {:induction false} NewSnapshotGood(log: seq<Entry>, memory: Projection)
    requires Increasing(log) && Agree({}, memory, Fold(EMPTY, log))
    ensures Good(Snapshot(LastId(log), 2, SnapshotOf(memory)), log)
  {
    var content := SnapshotOf(memory);
    forall e | e in log
      ensures e.id <= LastId(log)
    {
      IdsUpToLast(log, e);
    }
    hide Increasing, Agree, Fold, Suffix;
    AlwaysReplayedFold(content, EMPTY, log, LastId(log));
    SnapshotAgrees(memory, Fold(EMPTY, log));
  }

  lemma OtherFileKept(d: Disk, other: string, e: Entry)
    requires Sound(d) && LastId(d.log) < e.id && other in d.files && !Authorises(e, other, d.files[other])
    requires Authorised(d.log + [e], other, d.files[other])
    ensures Good(d.files[other], d.log + [e])
  {
    hide Good, Authorised, Authorises;
    AuthorisedBefore(d.log, e, other, d.files[other]);
    AuthorisedWatermark(d.log, other, d.files[other]);
    GoodAppend(d.files[other], d.log, e);
  }

  lemma MarkerOfOther(e: Entry, name: string, other: string, f: File)
    requires e.content.ProfileSnapshotCreated? && e.content.marker.path == name && other != name
    ensures !Authorises(e, other, f)
  {
  }

  lemma SnapshotKeepsGood(d: Disk, name: string, memory: Projection, e: Entry)
    requires Sound(d) && Enabled(d, TakeSnapshot(name, memory, e))
    ensures FilesGood(After(d, TakeSnapshot(name, memory, e)))
  {
    var next := After(d, TakeSnapshot(name, memory, e));
    hide Good, Authorised, Authorises, Agree, Increasing, SnapshotOf;
    assert Good(next.files[name], next.log) by {
      NewSnapshotGood(d.log, memory);
      GoodAppend(next.files[name], d.log, e);
    }
    forall other | other in next.files && Authorised(next.log, other, next.files[other])
      ensures Good(next.files[other], next.log)
    {
      if other != name {
        MarkerOfOther(e, name, other, next.files[other]);
        OtherFileKept(d, other, e);
      }
    }
  }

  // ----- runs -----

  lemma StepKeepsSound(d: Disk, step: Step)
    requires Sound(d) && Enabled(d, step)
    ensures Sound(After(d, step))
  {
    match step
    case Append(e) =>
      IncreasingAppend(d.log, e);
      AppendKeepsGood(d, e);
    case Compacting(markers) =>
      CompactedIncreasing(d, markers);
      CompactingExact(d, markers);
    case TakeSnapshot(name, memory, e) =>
      IncreasingAppend(d.log, e);
      SnapshotKeepsGood(d, name, memory, e);
    case PutFile(name, file) =>
      hide Good, Authorised;
    case RemoveFile(name) =>
      hide Good, Authorised;
  }

  ghost predicate IsRun(d: Disk, steps: seq<Step>)
    decreases |steps|
  {
    steps == [] || (Enabled(d, steps[0]) && IsRun(After(d, steps[0]), steps[1..]))
  }

  function Reached(d: Disk, steps: seq<Step>): Disk
    decreases |steps|
  {
    if steps == [] then d else Reached(After(d, steps[0]), steps[1..])
  }

  lemma {:induction false} RunKeepsSound(d: Disk, steps: seq<Step>)
    requires Sound(d) && IsRun(d, steps)
    ensures Sound(Reached(d, steps))
    decreases |steps|
  {
    hide Sound, Enabled, After;
    if steps != [] {
      StepKeepsSound(d, steps[0]);
      RunKeepsSound(After(d, steps[0]), steps[1..]);
    }
  }

  // ----- the program's own runs -----

  /** A step as the program takes it: what it appends is complete. It compacts without looking. */
  ghost predicate Programmed(d: Disk, step: Step) {
    match step
    case Append(e) => Enabled(d, step) && Complete(e.content)
    case Compacting(markers) => CompactionMarkers(markers, LastId(d.log))
    case _ => Enabled(d, step)
  }

  ghost predicate IsProgramRun(d: Disk, steps: seq<Step>)
    decreases |steps|
  {
    steps == [] || (Programmed(d, steps[0]) && IsProgramRun(After(d, steps[0]), steps[1..]))
  }

  lemma ProgrammedKeepsComplete(d: Disk, step: Step)
    requires Sound(d) && AllComplete(d.log) && Programmed(d, step)
    ensures Enabled(d, step) && AllComplete(After(d, step).log)
  {
    hide Compactable, FilesGood, Agree;
    if step.Compacting? {
      CompleteCompactable(d);
      forall x | x in Compact(d.log)
        ensures x in d.log
      {
        CompactIn(d.log, x);
      }
    }
  }

  /** The program's runs from a log of complete events never compact anything away: they are runs. */
  lemma {:induction false} ProgramRunIsRun(d: Disk, steps: seq<Step>)
    requires Sound(d) && AllComplete(d.log) && IsProgramRun(d, steps)
    ensures IsRun(d, steps) && AllComplete(Reached(d, steps).log)
    decreases |steps|
  {
    hide Sound, Enabled, Programmed, After, AllComplete;
    if steps != [] {
      ProgrammedKeepsComplete(d, steps[0]);
      StepKeepsSound(d, steps[0]);
      ProgramRunIsRun(After(d, steps[0]), steps[1..]);
    }
  }

  /** After any run, start-up over any listing of the snapshot directory, in any order, reaches the
      projection of folding every event. */
  lemma {:induction false} RunStartupAgrees(d: Disk, steps: seq<Step>, files: seq<Named>)
    requires Sound(d) && IsRun(d, steps) && Listed(Reached(d, steps), files)
    ensures Agree({}, Startup(files, Reached(d, steps).log), Fold(EMPTY, Reached(d, steps).log))
  {
    hide Agree, Fold, Startup, IsRun, Reached, Good, Authorised;
    RunKeepsSound(d, steps);
    StartupAgrees(files, Reached(d, steps).log);
  }
}
