/** Observations as JSON objects, and back. */
module ObservationJson {
  import opened Positions
  import opened Observations
  import opened Json
  import opened JsonRoundTrip

  const INT_LIMIT := 0x8000_0000

  predicate IsInt(n: int) {
    -INT_LIMIT <= n < INT_LIMIT
  }

  predicate LineEncodable(line: Line) {
    && IsInt(line.rank) && (line.centipawns.Some? ==> IsInt(line.centipawns.value))
    && (line.mate.Some? ==> IsInt(line.mate.value))
  }

  /** The numbers fit the types that hold them and are exact as JSON numbers. */
  predicate Encodable(o: Observation) {
    && o.ply <= MAX_EXACT && o.sequence <= MAX_EXACT && IsInt(o.search.depth) && o.search.nodes <= MAX_EXACT
    && o.search.timeMs <= MAX_EXACT && IsInt(o.search.multipv)
    && forall i :: 0 <= i < |o.search.lines| ==> LineEncodable(o.search.lines[i])
  }

  // ----- objects with given keys -----

  function LineKeys(): seq<string> {
    ["centipawns", "mate", "moves", "rank"]
  }

  function Keys(): seq<string> {
    ["analysisRunId", "bestMove", "contractVersion", "depth", "engineHash", "engineName", "engineSource", "engineVersion",
     "fen", "gameId", "lines", "multipv", "nodes", "ply", "profile", "sequence", "timeMs"]
  }

  function Zipped(keys: seq<string>, values: seq<Value>): (fields: seq<Field>)
    requires |keys| == |values|
    ensures |fields| == |keys| && forall i :: 0 <= i < |keys| ==> fields[i] == Field(keys[i], values[i])
  {
    seq(|keys|, i requires 0 <= i < |keys| => Field(keys[i], values[i]))
  }

  predicate KeysRise(keys: seq<string>) {
    forall i :: 0 < i < |keys| ==> Below(keys[i - 1], keys[i])
  }

  /** The value under a key, if the fields hold it. */
  function At(fields: seq<Field>, key: string): Option<Value> {
    if fields == [] then None
    else if fields[0].key == key then Some(fields[0].value)
    else At(fields[1..], key)
  }

  /** Every key is one of those expected, and each of those is there. */
  predicate HasExactly(fields: seq<Field>, keys: seq<string>) {
    && (forall i :: 0 <= i < |fields| ==> fields[i].key in keys)
    && (forall i :: 0 <= i < |keys| ==> At(fields, keys[i]).Some?)
  }

  // ----- writing -----

  function Whole(n: int): Value
    requires -MAX_EXACT <= n <= MAX_EXACT
  {
    Num(Integer(n))
  }

  function Optional(n: Option<int>): Value
    requires n.Some? ==> IsInt(n.value)
  {
    if n.Some? then Whole(n.value) else Null
  }

  function Texts(texts: seq<string>): (values: seq<Value>)
    ensures |values| == |texts| && forall i :: 0 <= i < |texts| ==> values[i] == Str(texts[i])
  {
    seq(|texts|, i requires 0 <= i < |texts| => Str(texts[i]))
  }

  function LineJson(line: Line): Value
    requires LineEncodable(line)
  {
    Object(Zipped(LineKeys(), [Optional(line.centipawns), Optional(line.mate), Array(Texts(line.moves)), Whole(line.rank)]))
  }

  function LinesJson(lines: seq<Line>): (values: seq<Value>)
    requires forall i :: 0 <= i < |lines| ==> LineEncodable(lines[i])
    ensures |values| == |lines| && forall i :: 0 <= i < |lines| ==> values[i] == LineJson(lines[i])
  {
    seq(|lines|, i requires 0 <= i < |lines| => LineJson(lines[i]))
  }

  function Values(o: Observation): (values: seq<Value>)
    requires Encodable(o)
    ensures |values| == |Keys()|
  {
    [Str(o.runId), Str(o.search.bestMove), Str(o.contract), Whole(o.search.depth), Str(o.engine.hash), Str(o.engine.name),
     Str(o.engine.source), Str(o.engine.version), Str(o.fen), Str(o.gameId), Array(LinesJson(o.search.lines)),
     Whole(o.search.multipv), Whole(o.search.nodes), Whole(o.ply), Str(o.profile), Whole(o.sequence), Whole(o.search.timeMs)]
  }

  function ToJson(o: Observation): Value
    requires Encodable(o)
  {
    Object(Zipped(Keys(), Values(o)))
  }

  // ----- reading -----

  function AsText(v: Option<Value>): Option<string> {
    if v.Some? && v.value.Str? then Some(v.value.text) else None
  }

  function AsWhole(v: Option<Value>): Option<int> {
    if v.None? || !v.value.Num? || v.value.number.Other? then None
    else if v.value.number.MinusZero? then Some(0)
    else Some(v.value.number.n)
  }

  function AsSize(v: Option<Value>): (size: Option<nat>) {
    var n := AsWhole(v);
    if n.Some? && n.value >= 0 then Some(n.value) else None
  }

  function AsInt(v: Option<Value>): Option<int> {
    var n := AsWhole(v);
    if n.Some? && IsInt(n.value) then n else None
  }

  /** A number that may be null; the outer option says whether it is one of the two. */
  function AsOptional(v: Option<Value>): Option<Option<int>> {
    if v == Some(Null) then Some(None)
    else
      var n := AsInt(v);
      if n.Some? then Some(n) else None
  }

  function AsTexts(values: seq<Value>): Option<seq<string>> {
    if values == [] then Some([])
    else
      var first, rest := AsText(Some(values[0])), AsTexts(values[1..]);
      if first.None? || rest.None? then None else Some([first.value] + rest.value)
  }

  function LineFrom(v: Value): Option<Line> {
    if !v.Object? || !HasExactly(v.fields, LineKeys()) then None
    else
      var rank, moves := AsInt(At(v.fields, "rank")), At(v.fields, "moves");
      var centipawns, mate := AsOptional(At(v.fields, "centipawns")), AsOptional(At(v.fields, "mate"));
      if rank.None? || centipawns.None? || mate.None? || moves.None? || !moves.value.Array? then None
      else
        var texts := AsTexts(moves.value.items);
        if texts.None? then None else Some(Line(rank.value, centipawns.value, mate.value, texts.value))
  }

  function LinesFrom(values: seq<Value>): Option<seq<Line>> {
    if values == [] then Some([])
    else
      var first, rest := LineFrom(values[0]), LinesFrom(values[1..]);
      if first.None? || rest.None? then None else Some([first.value] + rest.value)
  }

  function EngineFrom(fields: seq<Field>): Option<Engine> {
    var name, version := AsText(At(fields, "engineName")), AsText(At(fields, "engineVersion"));
    var source, hash := AsText(At(fields, "engineSource")), AsText(At(fields, "engineHash"));
    if name.None? || version.None? || source.None? || hash.None? then None
    else Some(Engine(name.value, version.value, source.value, hash.value))
  }

  function SearchFrom(fields: seq<Field>): Option<Search> {
    var depth, multipv := AsInt(At(fields, "depth")), AsInt(At(fields, "multipv"));
    var nodes, timeMs := AsSize(At(fields, "nodes")), AsSize(At(fields, "timeMs"));
    var bestMove, encoded := AsText(At(fields, "bestMove")), At(fields, "lines");
    if depth.None? || multipv.None? || nodes.None? || timeMs.None? || bestMove.None? || encoded.None? || !encoded.value.Array?
    then None
    else
      var lines := LinesFrom(encoded.value.items);
      if lines.None? then None
      else Some(Search(depth.value, nodes.value, timeMs.value, multipv.value, bestMove.value, lines.value))
  }

  function FromJson(v: Value): Option<Observation> {
    if !v.Object? || !HasExactly(v.fields, Keys()) then None
    else
      var contract, runId := AsText(At(v.fields, "contractVersion")), AsText(At(v.fields, "analysisRunId"));
      var gameId, fen, profile := AsText(At(v.fields, "gameId")), AsText(At(v.fields, "fen")), AsText(At(v.fields, "profile"));
      var ply, sequence := AsSize(At(v.fields, "ply")), AsSize(At(v.fields, "sequence"));
      var engine, search := EngineFrom(v.fields), SearchFrom(v.fields);
      if contract.None? || runId.None? || gameId.None? || fen.None? || profile.None? || ply.None? || sequence.None? ||
         engine.None? || search.None? then None
      else Some(Observation(contract.value, runId.value, gameId.value, ply.value, sequence.value, fen.value, profile.value,
                            engine.value, search.value))
  }

  // ----- the keys are in order -----

  lemma {:induction false} RisingInOrder(fields: seq<Field>, i: nat, j: nat)
    requires forall k :: 0 < k < |fields| ==> Below(fields[k - 1].key, fields[k].key)
    requires i < j < |fields|
    ensures Below(fields[i].key, fields[j].key)
    decreases j
  {
    if i < j - 1 {
      RisingInOrder(fields, i, j - 1);
      BelowTransitive(fields[i].key, fields[j - 1].key, fields[j].key);
    }
  }

  lemma ZippedInOrder(keys: seq<string>, values: seq<Value>)
    requires |keys| == |values| && KeysRise(keys)
    ensures InOrder(Zipped(keys, values))
  {
    hide Below;
    var fields := Zipped(keys, values);
    forall i, j | 0 <= i < j < |fields|
      ensures Below(fields[i].key, fields[j].key)
    {
      RisingInOrder(fields, i, j);
    }
  }

  /** Fields in order give back each value under its key. */
  lemma {:induction false} AtFinds(fields: seq<Field>, i: nat)
    requires InOrder(fields) && i < |fields|
    ensures At(fields, fields[i].key) == Some(fields[i].value)
  {
    hide Below;
    if i > 0 {
      BelowOrders(fields[0].key, fields[i].key);
      assert fields[1..][i - 1] == fields[i];
      AtFinds(fields[1..], i - 1);
    }
  }

  lemma ZippedAt(keys: seq<string>, values: seq<Value>, i: nat)
    requires |keys| == |values| && KeysRise(keys) && i < |keys|
    ensures At(Zipped(keys, values), keys[i]) == Some(values[i])
  {
    hide Below, At, KeysRise;
    ZippedInOrder(keys, values);
    AtFinds(Zipped(keys, values), i);
  }

  lemma ZippedExactly(keys: seq<string>, values: seq<Value>)
    requires |keys| == |values| && KeysRise(keys)
    ensures HasExactly(Zipped(keys, values), keys)
  {
    hide At, KeysRise;
    forall i | 0 <= i < |keys|
      ensures At(Zipped(keys, values), keys[i]).Some?
    {
      ZippedAt(keys, values, i);
    }
  }

  /** Texts that first differ at a place are in the order of their characters there. */
  lemma {:induction false} DifferAt(a: string, b: string, k: nat)
    requires k < |a| && k < |b| && a[..k] == b[..k] && a[k] < b[k]
    ensures Below(a, b)
  {
    if k > 0 {
      assert a[0] == a[..k][0] && b[0] == b[..k][0];
      assert a[1..][..k - 1] == a[..k][1..] && b[1..][..k - 1] == b[..k][1..];
      DifferAt(a[1..], b[1..], k - 1);
    }
  }

  /** The place where each key first differs from the one before it. */
  function Differences(): seq<nat> {
    [0, 0, 0, 0, 0, 6, 6, 6, 0, 0, 0, 0, 0, 0, 1, 0, 0]
  }

  lemma KeyRises(i: nat)
    requires 0 < i < |Keys()|
    ensures Below(Keys()[i - 1], Keys()[i])
  {
    hide Below;
    DifferAt(Keys()[i - 1], Keys()[i], Differences()[i]);
  }

  lemma LineKeysRise()
    ensures KeysRise(LineKeys())
  {
    hide Below;
    DifferAt("centipawns", "mate", 0);
    DifferAt("mate", "moves", 1);
    DifferAt("moves", "rank", 0);
  }

  lemma ObservationKeysRise()
    ensures KeysRise(Keys())
  {
    hide Below, Keys;
    forall i | 0 < i < |Keys()|
      ensures Below(Keys()[i - 1], Keys()[i])
    {
      KeyRises(i);
    }
  }

  // ----- the round trip -----

  lemma {:induction false} TextsRead(texts: seq<string>)
    ensures AsTexts(Texts(texts)) == Some(texts)
  {
    if texts != [] {
      assert Texts(texts)[1..] == Texts(texts[1..]);
      TextsRead(texts[1..]);
      assert texts == [texts[0]] + texts[1..];
    }
  }

  lemma OptionalReads(n: Option<int>)
    requires n.Some? ==> IsInt(n.value)
    ensures AsOptional(Some(Optional(n))) == Some(n)
  {
  }

  lemma LineReads(line: Line)
    requires LineEncodable(line)
    ensures LineFrom(LineJson(line)) == Some(line)
    ensures AsInt(At(LineJson(line).fields, "rank")) == Some(line.rank)
    ensures AsOptional(At(LineJson(line).fields, "centipawns")) == Some(line.centipawns)
    ensures AsOptional(At(LineJson(line).fields, "mate")) == Some(line.mate)
    ensures At(LineJson(line).fields, "moves") == Some(Array(Texts(line.moves)))
  {
    hide At, HasExactly, KeysRise, AsTexts, Texts, AsOptional, Optional;
    var values := [Optional(line.centipawns), Optional(line.mate), Array(Texts(line.moves)), Whole(line.rank)];
    LineKeysRise();
    ZippedExactly(LineKeys(), values);
    forall i | 0 <= i < 4
      ensures At(Zipped(LineKeys(), values), LineKeys()[i]) == Some(values[i])
    {
      ZippedAt(LineKeys(), values, i);
    }
    assert LineKeys()[0] == "centipawns" && LineKeys()[1] == "mate" && LineKeys()[2] == "moves" && LineKeys()[3] == "rank";
    OptionalReads(line.centipawns);
    OptionalReads(line.mate);
    TextsRead(line.moves);
  }

  lemma {:induction false} LinesRead(lines: seq<Line>)
    requires forall i :: 0 <= i < |lines| ==> LineEncodable(lines[i])
    ensures LinesFrom(LinesJson(lines)) == Some(lines)
  {
    hide LineFrom, LineJson, LineEncodable;
    if lines != [] {
      assert LinesJson(lines)[1..] == LinesJson(lines[1..]);
      LineReads(lines[0]);
      LinesRead(lines[1..]);
      assert lines == [lines[0]] + lines[1..];
    }
  }

  lemma ValueAt(o: Observation, i: nat, key: string)
    requires Encodable(o) && i < |Keys()| && Keys()[i] == key
    ensures At(ToJson(o).fields, key) == Some(Values(o)[i])
  {
    hide Keys, Values, At;
    ObservationKeysRise();
    ZippedAt(Keys(), Values(o), i);
  }

  /** Each part of an observation stands under its own name: its engine, its search and, in `OthersRead`, the rest. */
  lemma EngineReads(o: Observation)
    requires Encodable(o)
    ensures EngineFrom(ToJson(o).fields) == Some(o.engine)
    ensures AsText(At(ToJson(o).fields, "engineName")) == Some(o.engine.name)
    ensures AsText(At(ToJson(o).fields, "engineVersion")) == Some(o.engine.version)
    ensures AsText(At(ToJson(o).fields, "engineSource")) == Some(o.engine.source)
    ensures AsText(At(ToJson(o).fields, "engineHash")) == Some(o.engine.hash)
  {
    hide At, ToJson;
    ValueAt(o, 4, "engineHash");
    ValueAt(o, 5, "engineName");
    ValueAt(o, 6, "engineSource");
    ValueAt(o, 7, "engineVersion");
  }

  lemma SearchReads(o: Observation)
    requires Encodable(o)
    ensures SearchFrom(ToJson(o).fields) == Some(o.search)
    ensures AsInt(At(ToJson(o).fields, "depth")) == Some(o.search.depth)
    ensures AsInt(At(ToJson(o).fields, "multipv")) == Some(o.search.multipv)
    ensures AsSize(At(ToJson(o).fields, "nodes")) == Some(o.search.nodes)
    ensures AsSize(At(ToJson(o).fields, "timeMs")) == Some(o.search.timeMs)
    ensures AsText(At(ToJson(o).fields, "bestMove")) == Some(o.search.bestMove)
    ensures At(ToJson(o).fields, "lines") == Some(Array(LinesJson(o.search.lines)))
  {
    hide At, ToJson, LinesFrom, LinesJson;
    ValueAt(o, 1, "bestMove");
    ValueAt(o, 3, "depth");
    ValueAt(o, 10, "lines");
    ValueAt(o, 11, "multipv");
    ValueAt(o, 12, "nodes");
    ValueAt(o, 16, "timeMs");
    LinesRead(o.search.lines);
  }

  lemma OthersRead(o: Observation)
    requires Encodable(o)
    ensures AsText(At(ToJson(o).fields, "contractVersion")) == Some(o.contract)
    ensures AsText(At(ToJson(o).fields, "analysisRunId")) == Some(o.runId)
    ensures AsText(At(ToJson(o).fields, "gameId")) == Some(o.gameId)
    ensures AsText(At(ToJson(o).fields, "fen")) == Some(o.fen)
    ensures AsText(At(ToJson(o).fields, "profile")) == Some(o.profile)
    ensures AsSize(At(ToJson(o).fields, "ply")) == Some(o.ply)
    ensures AsSize(At(ToJson(o).fields, "sequence")) == Some(o.sequence)
  {
    hide At, ToJson;
    ValueAt(o, 0, "analysisRunId");
    ValueAt(o, 2, "contractVersion");
    ValueAt(o, 8, "fen");
    ValueAt(o, 9, "gameId");
    ValueAt(o, 13, "ply");
    ValueAt(o, 14, "profile");
    ValueAt(o, 15, "sequence");
  }

  /** An observation is read back from its object. */
  lemma ObservationReads(o: Observation)
    requires Encodable(o)
    ensures FromJson(ToJson(o)) == Some(o)
  {
    hide Keys, Values, At, AsText, AsSize, EngineFrom, SearchFrom, HasExactly;
    ObservationKeysRise();
    ZippedExactly(Keys(), Values(o));
    EngineReads(o);
    SearchReads(o);
    OthersRead(o);
  }

  // ----- as text -----

  /** What the round trip of texts needs of a value. */
  predicate Textual(v: Value, depth: nat) {
    Writable(v) && KeysInOrder(v) && Depth(v) <= depth
  }

  lemma {:induction false} ItemsShallow(items: seq<Value>, depth: nat)
    requires forall i :: 0 <= i < |items| ==> Depth(items[i]) <= depth
    ensures ItemsDepth(items) <= depth + 1
  {
    hide Depth;
    if items != [] {
      ItemsShallow(items[1..], depth);
    }
  }

  lemma {:induction false} FieldsShallow(fields: seq<Field>, depth: nat)
    requires forall i :: 0 <= i < |fields| ==> Depth(fields[i].value) <= depth
    ensures FieldsDepth(fields) <= depth + 1
  {
    hide Depth;
    if fields != [] {
      FieldsShallow(fields[1..], depth);
    }
  }

  lemma ArrayTextual(items: seq<Value>, depth: nat)
    requires forall i :: 0 <= i < |items| ==> Textual(items[i], depth)
    ensures Textual(Array(items), depth + 1)
  {
    ItemsShallow(items, depth);
    hide ItemsDepth;
  }

  lemma ObjectTextual(keys: seq<string>, values: seq<Value>, depth: nat)
    requires |keys| == |values| && KeysRise(keys) && forall i :: 0 <= i < |values| ==> Textual(values[i], depth)
    ensures Textual(Object(Zipped(keys, values)), depth + 1)
  {
    hide KeysRise;
    ZippedInOrder(keys, values);
    FieldsShallow(Zipped(keys, values), depth);
    hide FieldsDepth, InOrder;
  }

  lemma LineTextual(line: Line)
    requires LineEncodable(line)
    ensures Textual(LineJson(line), 2)
  {
    hide KeysRise, ItemsDepth;
    ArrayTextual(Texts(line.moves), 0);
    LineKeysRise();
    ObjectTextual(LineKeys(), [Optional(line.centipawns), Optional(line.mate), Array(Texts(line.moves)), Whole(line.rank)], 1);
  }

  lemma ObservationTextual(o: Observation)
    requires Encodable(o)
    ensures Textual(ToJson(o), 4)
  {
    hide KeysRise, ItemsDepth, LineJson, LineEncodable, Keys;
    forall i | 0 <= i < |o.search.lines|
      ensures Textual(LinesJson(o.search.lines)[i], 2)
    {
      LineTextual(o.search.lines[i]);
    }
    ArrayTextual(LinesJson(o.search.lines), 2);
    ObservationKeysRise();
    forall i | 0 <= i < |Values(o)|
      ensures Textual(Values(o)[i], 3)
    {
    }
    ObjectTextual(Keys(), Values(o), 3);
  }

  /** Two observations have the same text exactly when they are the same. */
  lemma TextsTell(a: Observation, b: Observation)
    requires Encodable(a) && Encodable(b)
    ensures Writable(ToJson(a)) && Writable(ToJson(b))
    ensures Dump(ToJson(a)) == Dump(ToJson(b)) <==> a == b
  {
    hide ToJson, FromJson, Dump, KeysInOrder, Depth, Writable;
    ObservationTextual(a);
    ObservationTextual(b);
    if Dump(ToJson(a)) == Dump(ToJson(b)) {
      DumpInjective(ToJson(a), ToJson(b));
      ObservationReads(a);
      ObservationReads(b);
    }
  }

  /** An observation is read back from its text. */
  lemma TextReads(o: Observation)
    requires Encodable(o)
    ensures Writable(ToJson(o)) && Parse(Dump(ToJson(o))) == Got(ToJson(o), "") && FromJson(ToJson(o)) == Some(o)
  {
    hide ToJson, FromJson, Dump, KeysInOrder, Depth, Writable, Parse;
    ObservationTextual(o);
    DumpParses(ToJson(o));
    ObservationReads(o);
  }

  /** A valid observation has a text. */
  lemma ValidEncodable(c: Context, o: Observation)
    requires Validates(c, o)
    ensures Encodable(o)
  {
    hide LinePlays;
  }
}
