/** Snapshot files replace a prefix of the fold when a marker event authorises them. */
module Snapshots {
  import opened Positions
  import opened Events
  import opened Agreement
  import opened Compaction

  // ----- logs -----

  ghost predicate Increasing(log: seq<Entry>) {
    && (forall i :: 0 <= i < |log| ==> 0 < log[i].id)
    && (forall i, j :: 0 <= i < j < |log| ==> log[i].id < log[j].id)
  }

  function LastId(log: seq<Entry>): nat {
    if log == [] then 0 else log[|log| - 1].id
  }

  /** Snapshots do not hold variations and review attempts: these events are always replayed. */
  predicate AlwaysReplayed(c: Content) {
    || c.VariationSaved? || c.VariationDeleted? || c.ReviewAttempted?
    || (c.Undecodable? && c.remnant.Named? && c.remnant.topic.table.VariationTable?)
  }

  predicate Passes(e: Entry, watermark: nat) {
    e.id > watermark || AlwaysReplayed(e.content)
  }

  /** The events replayed on top of a snapshot. */
  function Suffix(log: seq<Entry>, watermark: nat): seq<Entry>
    decreases |log|
  {
    if log == [] then []
    else (if Passes(log[0], watermark) then [log[0]] else []) + Suffix(log[1..], watermark)
  }

  // ----- files -----

  datatype File = Garbled | Snapshot(watermark: nat, version: int, content: Projection)

  /** A directory entry and what it parses to. */
  datatype Named = Named(name: string, file: File)

  /** What a snapshot stores: no variations or reviews, and no shallow analysis under a full one. */
  function SnapshotOf(p: Projection): Projection {
    p.(games := map id | id in p.games :: Visible(p.games[id]), variations := map[], reviews := [])
  }

  predicate PlainName(name: string) {
    name != "" && '/' !in name
  }

  /** A marker that can authorise a file: a known version, a watermark before the marker, a bare name. */
  predicate Authorises(e: Entry, name: string, f: File) {
    && f.Snapshot? && e.content == ProfileSnapshotCreated(Marker(name, f.watermark, f.version))
    && f.version in {1, 2} && f.watermark < e.id && PlainName(name)
  }

  ghost predicate Authorised(log: seq<Entry>, name: string, f: File) {
    exists e :: e in log && Authorises(e, name, f)
  }

  /** The latest marker that authorises a file, or 0. */
  function MarkerFor(log: seq<Entry>, name: string, f: File): nat
    decreases |log|
  {
    if log == [] then 0
    else
      var rest := MarkerFor(log[1..], name, f);
      if Authorises(log[0], name, f) && log[0].id > rest then log[0].id else rest
  }

  datatype Choice = Choice(watermark: nat, marker: nat, content: Projection)

  const NO_CHOICE := Choice(0, 0, EMPTY)

  /** One directory entry: taken if authorised and newer than the choice so far. */
  function Consider(choice: Choice, entry: Named, log: seq<Entry>): Choice {
    if entry.file.Garbled? then choice
    else
      var marker := MarkerFor(log, entry.name, entry.file);
      if marker == 0 || entry.file.watermark < choice.watermark ||
         (entry.file.watermark == choice.watermark && marker <= choice.marker) then choice
      else Choice(entry.file.watermark, marker, entry.file.content)
  }

  function Select(files: seq<Named>, log: seq<Entry>): Choice {
    if files == [] then NO_CHOICE else Consider(Select(files[..|files| - 1], log), files[|files| - 1], log)
  }

  /** The projection a start-up reaches. */
  function Startup(files: seq<Named>, log: seq<Entry>): Projection {
    var choice := Select(files, log);
    Fold(choice.content, Suffix(log, choice.watermark))
  }

  /** A snapshot that can stand for the prefix it covers. */
  ghost predicate Good(f: File, log: seq<Entry>) {
    f.Snapshot? && Agree({}, Fold(f.content, Suffix(log, f.watermark)), Fold(EMPTY, log))
  }

  ghost predicate AllGood(files: set<Named>, log: seq<Entry>) {
    forall n :: n in files && Authorised(log, n.name, n.file) ==> Good(n.file, log)
  }

  // ----- choosing -----

  lemma {:induction false} MarkerExact(log: seq<Entry>, name: string, f: File)
    ensures MarkerFor(log, name, f) > 0 <==> Authorised(log, name, f)
    ensures forall e :: e in log && Authorises(e, name, f) ==> e.id <= MarkerFor(log, name, f)
    decreases |log|
  {
    hide Authorises;
    if log != [] {
      MarkerExact(log[1..], name, f);
      assert log[0] in log && forall e :: e in log <==> e == log[0] || e in log[1..];
      AuthorisingId(log[0], name, f);
    }
  }

  /** What a start-up looks at: snapshots of a known version under a bare name, recorded by an event after the
      watermark. */
  ghost predicate Recorded(n: Named, log: seq<Entry>) {
    && n.file.Snapshot? && (n.file.version == 1 || n.file.version == 2) && n.name != "" && (forall c :: c in n.name ==> c != '/')
    && exists e :: e in log && e.id > n.file.watermark
                   && e.content == ProfileSnapshotCreated(Marker(n.name, n.file.watermark, n.file.version))
  }

  lemma RecordedExact(n: Named, log: seq<Entry>)
    ensures Recorded(n, log) <==> Authorised(log, n.name, n.file)
  {
    if Recorded(n, log) {
      var e :| e in log && e.id > n.file.watermark && e.content == ProfileSnapshotCreated(Marker(n.name, n.file.watermark, n.file.version));
      assert Authorises(e, n.name, n.file);
    }
    if Authorised(log, n.name, n.file) {
      var e :| e in log && Authorises(e, n.name, n.file);
      assert e.id > n.file.watermark;
    }
  }

  ghost function OnlyRecorded(files: seq<Named>, log: seq<Entry>): seq<Named> {
    if files == [] then []
    else
      var last, before := files[|files| - 1], OnlyRecorded(files[..|files| - 1], log);
      if Recorded(last, log) then before + [last] else before
  }

  lemma SelectLast(files: seq<Named>, last: Named, log: seq<Entry>)
    ensures Select(files + [last], log) == Consider(Select(files, log), last, log)
  {
    hide Consider;
    assert (files + [last])[..|files + [last]| - 1] == files;
  }

  lemma OtherIgnored(choice: Choice, n: Named, log: seq<Entry>)
    requires !Recorded(n, log)
    ensures Consider(choice, n, log) == choice
  {
    RecordedExact(n, log);
    MarkerExact(log, n.name, n.file);
    hide Recorded, Authorised, MarkerFor;
  }

  /** All other files of the directory make no difference. */
  lemma {:induction false} OthersIgnored(files: seq<Named>, log: seq<Entry>)
    ensures Select(files, log) == Select(OnlyRecorded(files, log), log)
  {
    hide Recorded, Consider;
    if files != [] {
      var last, before := files[|files| - 1], files[..|files| - 1];
      OthersIgnored(before, log);
      if Recorded(last, log) {
        SelectLast(OnlyRecorded(before, log), last, log);
      } else {
        OtherIgnored(Select(before, log), last, log);
      }
    }
  }

  lemma AuthorisingId(e: Entry, name: string, f: File)
    ensures Authorises(e, name, f) ==> e.id > 0 && f.Snapshot? && f.watermark < e.id
  {
  }

  /** An authorised entry no newer than the choice. */
  ghost predicate NoNewer(n: Named, choice: Choice, log: seq<Entry>) {
    Authorised(log, n.name, n.file) ==>
      n.file.Snapshot? &&
      (n.file.watermark < choice.watermark ||
       (n.file.watermark == choice.watermark && MarkerFor(log, n.name, n.file) <= choice.marker))
  }

  ghost predicate IsChoice(choice: Choice, files: set<Named>, log: seq<Entry>) {
    choice == NO_CHOICE ||
    exists n :: n in files && Authorised(log, n.name, n.file) && n.file.Snapshot? &&
                choice == Choice(n.file.watermark, MarkerFor(log, n.name, n.file), n.file.content)
  }

  /** The choice is an authorised file, if any, and no authorised file is newer: so in any directory
      order the choice has the same watermark and marker. */
  lemma {:induction false} SelectNewest(files: seq<Named>, log: seq<Entry>)
    ensures IsChoice(Select(files, log), (set n | n in files), log)
    ensures forall n :: n in files ==> NoNewer(n, Select(files, log), log)
  {
    hide Authorised, MarkerFor;
    if files != [] {
      var last := files[|files| - 1];
      var before := files[..|files| - 1];
      SelectNewest(before, log);
      MarkerExact(log, last.name, last.file);
      assert files == before + [last];
      assert forall n :: n in files <==> n in before || n == last;
      assert Authorised(log, last.name, last.file) ==> last.file.Snapshot? by {
        AuthorisedIsSnapshot(log, last);
      }
    }
  }

  lemma AuthorisedIsSnapshot(log: seq<Entry>, n: Named)
    ensures Authorised(log, n.name, n.file) ==> n.file.Snapshot?
  {
  }

  // ----- the suffix -----

  lemma {:induction false} SuffixConcat(a: seq<Entry>, b: seq<Entry>, watermark: nat)
    ensures Suffix(a + b, watermark) == Suffix(a, watermark) + Suffix(b, watermark)
    decreases |a|
  {
    hide Passes;
    if a == [] {
      assert a + b == b;
    } else {
      var head := if Passes(a[0], watermark) then [a[0]] else [];
      assert (a + b)[0] == a[0] && (a + b)[1..] == a[1..] + b;
      SuffixConcat(a[1..], b, watermark);
      var tail, more := Suffix(a[1..], watermark), Suffix(b, watermark);
      assert Suffix(a, watermark) == head + tail && Suffix(a + b, watermark) == head + (tail + more);
      assert head + (tail + more) == head + tail + more;
    }
  }

  lemma {:induction false} SuffixAll(log: seq<Entry>, watermark: nat)
    requires forall e :: e in log ==> Passes(e, watermark)
    ensures Suffix(log, watermark) == log
    decreases |log|
  {
    hide Passes;
    if log != [] {
      assert log[0] in log;
      assert forall e :: e in log[1..] ==> e in log;
      SuffixAll(log[1..], watermark);
    }
  }

  lemma {:induction false} SuffixIn(log: seq<Entry>, watermark: nat, e: Entry)
    ensures e in Suffix(log, watermark) <==> e in log && Passes(e, watermark)
    decreases |log|
  {
    hide Passes;
    if log != [] {
      SuffixIn(log[1..], watermark, e);
      assert e in log <==> e == log[0] || e in log[1..];
    }
  }

  lemma {:induction false} CompactIn(log: seq<Entry>, e: Entry)
    ensures e in Compact(log) ==> e in log
    decreases |log|
  {
    hide Dropped;
    if log != [] {
      CompactIn(log[1..], e);
      assert e in log <==> e == log[0] || e in log[1..];
    }
  }

  lemma TailIncreasing(log: seq<Entry>)
    requires Increasing(log) && log != []
    ensures Increasing(log[1..]) && forall e :: e in log[1..] ==> log[0].id < e.id
  {
    var rest := log[1..];
    forall i | 0 <= i < |rest|
      ensures rest[i] == log[i + 1]
    {
    }
  }

  lemma SupersedingReplayed(later: Content, earlier: Content)
    requires Supersedes(later, earlier) && AlwaysReplayed(earlier)
    ensures AlwaysReplayed(later)
  {
    VariationsReplayed(earlier);
    VariationsReplayed(later);
    hide TopicOf, AlwaysReplayed;
  }

  lemma VariationsReplayed(c: Content)
    ensures TopicOf(c).Some? && TopicOf(c).value.table.VariationTable? ==> AlwaysReplayed(c)
    ensures TopicOf(c).Some? && !TopicOf(c).value.table.VariationTable? ==> !AlwaysReplayed(c)
    ensures c.SchemaMigrated? || IsMarker(c) ==> !AlwaysReplayed(c)
  {
    hide CheckpointKey;
  }

  /** Whether an event that passes is dropped depends only on the later events that pass. */
  lemma {:induction false} DroppedInSuffix(e: Entry, rest: seq<Entry>, watermark: nat)
    requires Passes(e, watermark) && forall x :: x in rest ==> e.id < x.id
    ensures Dropped(e.content, Suffix(rest, watermark)) <==> Dropped(e.content, rest)
  {
    hide Supersedes;
    forall x | x in rest && Supersedes(x.content, e.content)
      ensures x in Suffix(rest, watermark)
    {
      SuffixIn(rest, watermark, x);
      if e.id <= watermark {
        SupersedingReplayed(x.content, e.content);
      }
    }
    forall x | x in Suffix(rest, watermark)
      ensures x in rest
    {
      SuffixIn(rest, watermark, x);
    }
  }

  /** Compaction and the snapshot filter commute. */
  lemma {:induction false} CompactSuffix(log: seq<Entry>, watermark: nat)
    requires Increasing(log)
    ensures Compact(Suffix(log, watermark)) == Suffix(Compact(log), watermark)
    decreases |log|
  {
    hide Dropped, Passes;
    if log != [] {
      var e, rest := log[0], log[1..];
      TailIncreasing(log);
      CompactSuffix(rest, watermark);
      var kept := if Dropped(e.content, rest) then [] else [e];
      assert Compact(log) == kept + Compact(rest);
      SuffixConcat(kept, Compact(rest), watermark);
      SuffixSingle(e, watermark);
      if Passes(e, watermark) {
        DroppedInSuffix(e, rest, watermark);
        assert Suffix(log, watermark) == [e] + Suffix(rest, watermark);
        assert ([e] + Suffix(rest, watermark))[1..] == Suffix(rest, watermark);
      } else {
        assert Suffix(log, watermark) == Suffix(rest, watermark);
      }
    }
  }

  lemma {:induction false} SuffixSingle(e: Entry, watermark: nat)
    ensures Suffix([e], watermark) == if Passes(e, watermark) then [e] else []
    ensures Suffix([], watermark) == []
  {
    assert [e][1..] == [];
  }

  // ----- start-up -----

  /** Start-up reaches the projection of the whole log, whatever files there are and in whatever
      order they are listed. */
  lemma {:induction false} StartupAgrees(files: seq<Named>, log: seq<Entry>)
    requires Increasing(log) && AllGood((set n | n in files), log)
    ensures Agree({}, Startup(files, log), Fold(EMPTY, log))
  {
    hide Authorised, MarkerFor, Fold, Agree, NoNewer, Select, Suffix;
    SelectNewest(files, log);
    if Select(files, log) == NO_CHOICE {
      forall e | e in log
        ensures Passes(e, 0)
      {
      }
      SuffixAll(log, 0);
      AgreeSame({}, Fold(EMPTY, log));
    }
  }
}
