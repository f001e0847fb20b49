/** Compaction's reverse scan over stored records, with the sets of keys it has seen. */
module RetainScan {
  import opened Positions
  import opened Bytes
  import opened Records
  import opened Events
  import opened Agreement
  import opened Compaction

  /** The reading of a record's kind and payload; what does not decode is `Undecodable`, with what can still be
      read of it. */
  type Decoder = (nat, Bytes) -> Content

  function Typed(e: Event, decode: Decoder): Entry {
    Entry(e.id, e.timestamp, decode(e.kind, e.payload))
  }

  function TypedAll(events: seq<Event>, decode: Decoder): (log: seq<Entry>)
    ensures |log| == |events| && forall i :: 0 <= i < |log| ==> log[i] == Typed(events[i], decode)
  {
    if events == [] then [] else [Typed(events[0], decode)] + TypedAll(events[1..], decode)
  }

  /** The records whose events compaction keeps. */
  function Retained(events: seq<Event>, decode: Decoder): seq<Event> {
    if events == [] then []
    else
      (if Dropped(Typed(events[0], decode).content, TypedAll(events[1..], decode)) then [] else [events[0]]) +
      Retained(events[1..], decode)
  }

  lemma {:induction false} TypedConcat(a: seq<Event>, b: seq<Event>, decode: Decoder)
    ensures TypedAll(a + b, decode) == TypedAll(a, decode) + TypedAll(b, decode)
  {
    hide Typed;
    if a == [] {
      assert a + b == b;
    } else {
      assert (a + b)[1..] == a[1..] + b;
      TypedConcat(a[1..], b, decode);
    }
  }

  /** Dropping records is compaction of the events they hold. */
  lemma {:induction false} RetainedIsCompact(events: seq<Event>, decode: Decoder)
    ensures TypedAll(Retained(events, decode), decode) == Compact(TypedAll(events, decode))
  {
    hide Dropped, Typed;
    if events != [] {
      var log := TypedAll(events, decode);
      assert log[0] == Typed(events[0], decode) && log[1..] == TypedAll(events[1..], decode);
      RetainedIsCompact(events[1..], decode);
      var head := if Dropped(log[0].content, log[1..]) then [] else [events[0]];
      TypedConcat(head, Retained(events[1..], decode), decode);
      assert [events[0]][1..] == [];
    }
  }

  // ----- the scan -----

  datatype Keys = Keys(jobGames: set<string>, resources: set<string>, sessions: set<string>, analyses: set<string>,
                       shallows: set<string>, months: set<string>, variations: set<string>, queueState: bool, profile: bool,
                       identity: bool, syncState: bool)

  datatype Scan = Scan(keys: Keys, snapshot: bool, migration: bool)

  const NOTHING_SEEN := Scan(Keys({}, {}, {}, {}, {}, {}, {}, false, false, false, false), false, false)

  predicate TopicSeen(keys: Keys, topic: Topic) {
    match topic.table
    case ShallowTable => topic.key in keys.analyses || topic.key in keys.shallows
    case SessionTable => topic.key in keys.sessions
    case JobTable => topic.key in keys.jobGames
    case CompletionTable => topic.key in keys.resources
    case CheckpointTable => topic.key in keys.months
    case VariationTable => topic.key in keys.variations
    case PausedField => keys.queueState
    case ProfileField => keys.profile
    case IdentityField => keys.identity
    case SyncField => keys.syncState
  }

  function NoteTopic(keys: Keys, topic: Topic): Keys {
    match topic.table
    case ShallowTable => if topic.key in keys.analyses then keys else keys.(shallows := keys.shallows + {topic.key})
    case SessionTable => keys.(sessions := keys.sessions + {topic.key})
    case JobTable => keys.(jobGames := keys.jobGames + {topic.key})
    case CompletionTable => keys.(resources := keys.resources + {topic.key})
    case CheckpointTable => keys.(months := keys.months + {topic.key})
    case VariationTable => keys.(variations := keys.variations + {topic.key})
    case PausedField => keys.(queueState := true)
    case ProfileField => keys.(profile := true)
    case IdentityField => keys.(identity := true)
    case SyncField => keys.(syncState := true)
  }

  /** Whether the scan so far makes an earlier event redundant. */
  predicate SeenLater(scan: Scan, c: Content) {
    || c.LogCompacted?
    || (IsMarker(c) && scan.snapshot)
    || (c.SchemaMigrated? && scan.migration)
    || (TopicOf(c).Some? && TopicSeen(scan.keys, TopicOf(c).value))
  }

  function Noting(scan: Scan, c: Content): Scan {
    if AnalysedGame(c).Some? then scan.(keys := scan.keys.(analyses := scan.keys.analyses + {AnalysedGame(c).value}))
    else if IsMarker(c) then scan.(snapshot := true)
    else if c.SchemaMigrated? then scan.(migration := true)
    else if TopicOf(c).Some? then scan.(keys := NoteTopic(scan.keys, TopicOf(c).value))
    else scan
  }

  lemma NoteTopicExact(keys: Keys, noted: Topic, topic: Topic)
    ensures TopicSeen(NoteTopic(keys, noted), topic) <==> TopicSeen(keys, topic) || topic == noted
  {
    if topic.table == noted.table {
      SameTableNoted(keys, noted, topic);
      assert topic == noted <==> topic.key == noted.key;
    } else {
      OtherTableNoted(keys, noted, topic);
    }
    hide TopicSeen, NoteTopic;
  }

  lemma SameTableNoted(keys: Keys, noted: Topic, topic: Topic)
    requires topic.table == noted.table
    ensures TopicSeen(NoteTopic(keys, noted), topic) <==> TopicSeen(keys, topic) || topic.key == noted.key
  {
  }

  lemma OtherTableNoted(keys: Keys, noted: Topic, topic: Topic)
    requires topic.table != noted.table
    ensures TopicSeen(NoteTopic(keys, noted), topic) == TopicSeen(keys, topic)
  {
  }

  lemma TopicKinds(c: Content)
    ensures AnalysedGame(c).Some? || IsMarker(c) || c.SchemaMigrated? || c.LogCompacted? ==> TopicOf(c) == None
    ensures AnalysedGame(c).Some? ==> !IsMarker(c) && !c.SchemaMigrated? && !c.LogCompacted?
    ensures IsMarker(c) ==> !c.SchemaMigrated? && !c.LogCompacted?
  {
    hide CheckpointKey;
  }

  lemma AnalysisNoted(keys: Keys, game: string, topic: Topic)
    ensures TopicSeen(keys.(analyses := keys.analyses + {game}), topic) <==>
              TopicSeen(keys, topic) || topic == Cell(ShallowTable, game)
  {
  }

  lemma NotingTopic(scan: Scan, x: Content, topic: Topic)
    ensures TopicSeen(Noting(scan, x).keys, topic) <==> TopicSeen(scan.keys, topic) || SupersedesTopic(x, topic)
  {
    hide TopicOf, TopicSeen, NoteTopic, AnalysedGame, IsMarker;
    TopicKinds(x);
    if AnalysedGame(x).Some? {
      AnalysisNoted(scan.keys, AnalysedGame(x).value, topic);
    } else if TopicOf(x).Some? {
      NoteTopicExact(scan.keys, TopicOf(x).value, topic);
    }
  }

  lemma NotingFlags(scan: Scan, x: Content)
    ensures Noting(scan, x).snapshot == (scan.snapshot || IsMarker(x))
    ensures Noting(scan, x).migration == (scan.migration || x.SchemaMigrated?)
  {
    hide TopicOf, TopicSeen, NoteTopic, AnalysedGame, IsMarker;
    TopicKinds(x);
  }

  lemma TopicNoted(scan: Scan, x: Content, c: Content)
    requires TopicOf(c).Some?
    ensures SeenLater(Noting(scan, x), c) <==> SeenLater(scan, c) || Supersedes(x, c)
  {
    TopicKinds(c);
    hide TopicOf, TopicSeen, SupersedesTopic, IsMarker, Noting, AnalysedGame;
    NotingTopic(scan, x, TopicOf(c).value);
  }

  lemma FlagNoted(scan: Scan, x: Content, c: Content)
    requires TopicOf(c).None?
    ensures SeenLater(Noting(scan, x), c) <==> SeenLater(scan, c) || Supersedes(x, c)
  {
    hide TopicOf, TopicSeen, SupersedesTopic, IsMarker, Noting, AnalysedGame;
    NotingFlags(scan, x);
  }

  /** Noting an event makes redundant exactly what it supersedes. */
  lemma NotingExact(scan: Scan, x: Content, c: Content)
    ensures SeenLater(Noting(scan, x), c) <==> SeenLater(scan, c) || Supersedes(x, c)
  {
    hide *;
    if TopicOf(c).Some? {
      TopicNoted(scan, x, c);
    } else {
      FlagNoted(scan, x, c);
    }
  }

  ghost predicate ScanExact(scan: Scan, later: seq<Entry>) {
    forall c :: SeenLater(scan, c) <==> Dropped(c, later)
  }

  lemma NothingSeen()
    ensures ScanExact(NOTHING_SEEN, [])
  {
    hide Supersedes;
  }

  lemma ScanStep(scan: Scan, x: Entry, later: seq<Entry>)
    requires ScanExact(scan, later)
    ensures ScanExact(Noting(scan, x.content), [x] + later)
  {
    hide Supersedes, SeenLater, Noting;
    forall c
      ensures SeenLater(Noting(scan, x.content), c) <==> Dropped(c, [x] + later)
    {
      NotingExact(scan, x.content, c);
      assert SeenLater(scan, c) <==> Dropped(c, later);
      assert forall y :: y in [x] + later <==> y == x || y in later;
    }
  }

  /** One event of the scan: whether to keep it, and the keys seen from now on. Only its kind and key are
      read; an event whose key cannot be read is kept and notes nothing. */
  method Visit(scan: Scan, c: Content) returns (keep: bool, next: Scan)
    ensures keep <==> !SeenLater(scan, c)
    ensures next == Noting(scan, c)
  {
    hide TopicOf, AnalysedGame, IsMarker;
    TopicKinds(c);
    keep, next := true, scan;
    if AnalysedGame(c).Some? {
      next := scan.(keys := scan.keys.(analyses := scan.keys.analyses + {AnalysedGame(c).value}));
    } else if IsMarker(c) {
      keep, next := !scan.snapshot, scan.(snapshot := true);
    } else if c.SchemaMigrated? {
      keep, next := !scan.migration, scan.(migration := true);
    } else if c.LogCompacted? {
      keep := false;
    } else if TopicOf(c).Some? {
      var keys;
      keep, keys := VisitTopic(scan.keys, TopicOf(c).value);
      next := scan.(keys := keys);
    }
  }

  method VisitTopic(keys: Keys, topic: Topic) returns (keep: bool, next: Keys)
    ensures keep <==> !TopicSeen(keys, topic)
    ensures next == NoteTopic(keys, topic)
  {
    var key := topic.key;
    match topic.table
    case ShallowTable =>
      keep, next := key !in keys.analyses && key !in keys.shallows, keys;
      if key !in keys.analyses {
        next := keys.(shallows := keys.shallows + {key});
      }
    case JobTable =>
      keep, next := key !in keys.jobGames, keys.(jobGames := keys.jobGames + {key});
    case CompletionTable =>
      keep, next := key !in keys.resources, keys.(resources := keys.resources + {key});
    case SessionTable =>
      keep, next := key !in keys.sessions, keys.(sessions := keys.sessions + {key});
    case PausedField =>
      keep, next := !keys.queueState, keys.(queueState := true);
    case ProfileField =>
      keep, next := !keys.profile, keys.(profile := true);
    case IdentityField =>
      keep, next := !keys.identity, keys.(identity := true);
    case SyncField =>
      keep, next := !keys.syncState, keys.(syncState := true);
    case CheckpointTable =>
      keep, next := key !in keys.months, keys.(months := keys.months + {key});
    case VariationTable =>
      keep, next := key !in keys.variations, keys.(variations := keys.variations + {key});
  }

  /** The reverse scan keeps the records in reverse; they are reversed at the end. */
  method RetainReverse(events: seq<Event>, decode: Decoder) returns (retained: seq<Event>)
    ensures retained == Retained(events, decode)
  {
    hide Dropped, SeenLater, Noting, Typed, ScanExact;
    retained := [];
    var scan := NOTHING_SEEN;
    var i := |events|;
    NothingSeen();
    assert events[|events|..] == [];
    while i > 0
      invariant 0 <= i <= |events|
      invariant ScanExact(scan, TypedAll(events[i..], decode))
      invariant Reversed(retained) == Retained(events[i..], decode)
    {
      i := i - 1;
      ghost var later := events[i + 1..];
      assert events[i..][0] == events[i] && events[i..][1..] == later;
      var c := Typed(events[i], decode).content;
      ScanDecides(scan, c, TypedAll(later, decode));
      ScanStep(scan, Typed(events[i], decode), TypedAll(later, decode));
      var keep;
      keep, scan := Visit(scan, c);
      if keep {
        ReversedPush(retained, events[i]);
        retained := retained + [events[i]];
      }
    }
    assert events[0..] == events;
    retained := Reverse(retained);
  }

  lemma ScanDecides(scan: Scan, c: Content, later: seq<Entry>)
    requires ScanExact(scan, later)
    ensures SeenLater(scan, c) <==> Dropped(c, later)
  {
    hide SeenLater, Dropped;
  }

  function Reversed<T>(s: seq<T>): seq<T> {
    if s == [] then [] else [s[|s| - 1]] + Reversed(s[..|s| - 1])
  }

  lemma {:induction false} ReversedPush<T>(s: seq<T>, x: T)
    ensures Reversed(s + [x]) == [x] + Reversed(s)
  {
    assert (s + [x])[..|s|] == s;
  }

  method Reverse<T>(s: seq<T>) returns (reversed: seq<T>)
    ensures reversed == Reversed(s)
  {
    reversed := [];
    for i := 0 to |s|
      invariant reversed == Reversed(s[..i])
    {
      ReversedPush(s[..i], s[i]);
      assert s[..i] + [s[i]] == s[..i + 1];
      reversed := [s[i]] + reversed;
    }
    assert s[..|s|] == s;
  }
}
