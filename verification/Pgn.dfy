/** Portable Game Notation: reading a game's tags and main line, and writing its canonical form. */
module Pgn {
  import opened Positions
  import opened MoveGen
  import opened MakeMove
  import opened Text
  import opened Fen
  import opened San
  import opened InitialPosition
  import PerftSpec

  datatype Ply = Ply(move: Move, san: string, before: string, after: string)

  datatype Game = Game(tags: map<string, string>, plies: seq<Ply>, identity: string)

  function Tag(tags: map<string, string>, key: string): string {
    if key in tags then tags[key] else ""
  }

  // ----- searching text -----

  /** The first place of a character at or after `start`, or the length. */
  function Find(text: string, c: char, start: nat): (index: nat)
    requires start <= |text|
    ensures start <= index <= |text| && c !in text[start..index]
    ensures index < |text| ==> text[index] == c
    decreases |text| - start
  {
    if start == |text| || text[start] == c then start
    else
      var index := Find(text, c, start + 1);
      assert text[start..index] == [text[start]] + text[start + 1..index];
      index
  }

  /** The last place of a character, or the length. */
  function FindLast(text: string, c: char): (index: nat)
    ensures index <= |text|
    ensures index < |text| ==> text[index] == c
    ensures forall k :: index < k < |text| ==> text[k] != c
    ensures index == |text| ==> c !in text
  {
    if text == "" then 0
    else if text[|text| - 1] == c then |text| - 1
    else
      var index := FindLast(text[..|text| - 1], c);
      if index == |text| - 1 then |text| else index
  }

  /** The first blank of a tag line, or the length. */
  function FindBlank(text: string, start: nat): (index: nat)
    requires start <= |text|
    ensures start <= index <= |text|
    decreases |text| - start
  {
    if start == |text| || text[start] == ' ' || text[start] == '\t' then start else FindBlank(text, start + 1)
  }

  function SkipSpace(text: string): (rest: string)
    ensures |rest| <= |text|
  {
    if text != "" && IsSpace(text[0]) then SkipSpace(text[1..]) else text
  }

  // ----- tags -----

  /** The key and value of a tag's text: up to the first blank, and between the first quote after it
      and the last one. */
  function ReadTag(line: string): Parsed<(string, string)> {
    var blank := FindBlank(line, 0);
    var quote := Find(line, '"', blank);
    var last := FindLast(line, '"');
    if blank == |line| || quote == |line| || last == quote then Err(InvalidTag)
    else
      assert quote < last;
      Ok((line[..blank], line[quote + 1..last]))
  }

  /** Keeps the first value of a key. */
  function AddTag(tags: map<string, string>, key: string, value: string): map<string, string> {
    if key in tags then tags else tags[key := value]
  }

  function ReadTags(text: string, tags: map<string, string>): Parsed<(map<string, string>, string)>
    decreases |text|
  {
    var t := SkipSpace(text);
    if t == "" || t[0] != '[' then Ok((tags, t))
    else
      var end := Find(t, ']', 0);
      if end == |t| then Err(UnterminatedTag)
      else
        var tag :- ReadTag(t[1..end]);
        ReadTags(t[end + 1..], AddTag(tags, tag.0, tag.1))
  }

  function StartOf(tags: map<string, string>): Parsed<Position> {
    if Tag(tags, "SetUp") == "1" then FromFen(Tag(tags, "FEN")) else Ok(Initial())
  }

  // ----- the main line -----

  function Prepend(output: string, stripped: Parsed<string>): Parsed<string> {
    match stripped
    case Ok(rest) => Ok(output + rest)
    case Err(fault) => Err(fault)
  }

  /** Drops comments and variations; inside a variation only parentheses count. */
  function Strip(text: string, depth: nat, brace: bool, line: bool): Parsed<string> {
    if text == "" then if brace || depth != 0 then Err(Unterminated) else Ok("")
    else
      var c, rest := text[0], text[1..];
      if line then
        if c == '\n' then Prepend(" ", Strip(rest, depth, brace, false)) else Strip(rest, depth, brace, true)
      else if brace then Strip(rest, depth, c != '}', false)
      else if c == ';' && depth == 0 then Strip(rest, depth, false, true)
      else if c == '{' && depth == 0 then Strip(rest, depth, true, false)
      else if c == '(' then Strip(rest, depth + 1, false, false)
      else if c == ')' then
        if depth == 0 then Err(UnbalancedVariation) else Strip(rest, depth - 1, false, false)
      else if depth == 0 then Prepend([c], Strip(rest, depth, false, false))
      else Strip(rest, depth, false, false)
  }

  predicate IsResult(token: string) {
    token == "1-0" || token == "0-1" || token == "1/2-1/2" || token == "*"
  }

  function DigitRun(token: string): (count: nat)
    ensures count <= |token|
  {
    if token != "" && IsDigit(token[0]) then 1 + DigitRun(token[1..]) else 0
  }

  /** Digits, then one or more full stops. */
  predicate IsMoveNumber(token: string) {
    var digits := DigitRun(token);
    0 < digits < |token| && forall i :: digits <= i < |token| ==> token[i] == '.'
  }

  predicate IsSkipped(token: string) {
    (token != "" && token[0] == '$') || IsMoveNumber(token)
  }

  /** A move written right after its number, as in `12.Nf3`, without that number. */
  function Unnumbered(token: string): string {
    var dot := FindLast(token, '.');
    if dot + 1 < |token| && IsDigit(token[0]) then token[dot + 1..] else token
  }

  lemma FoundPlayable(p: Position, token: string)
    ensures ParseSan(p, token).Some? ==> Playable(p, ParseSan(p, token).value)
  {
    hide IsPseudoLegal, InCheck, Normalize, ToSan, ParseSan, PerftSpec.LegalMovesOf;
    if ParseSan(p, token).Some? {
      ParseSanExact(p, token, ParseSan(p, token).value);
    }
  }

  /** One move token: the ply it records and the position after it. */
  ghost function ReadMove(p: Position, token: string): Parsed<(Ply, Position)> {
    var found := ParseSan(p, token);
    if found.None? then Err(IllegalMove)
    else
      FoundPlayable(p, token);
      var next := Play(p, found.value);
      Ok((Ply(found.value, ToSan(p, found.value), ToFen(p), ToFen(next)), next))
  }

  ghost function PlayTokens(p: Position, tokens: seq<string>): Parsed<seq<Ply>>
    decreases |tokens|
  {
    if tokens == [] then Ok([])
    else if IsSkipped(tokens[0]) then PlayTokens(p, tokens[1..])
    else if IsResult(Unnumbered(tokens[0])) then Ok([])
    else
      var step :- ReadMove(p, Unnumbered(tokens[0]));
      var plies :- PlayTokens(step.1, tokens[1..]);
      Ok([step.0] + plies)
  }

  // ----- identity -----

  function UciText(m: Move): string {
    if m.from < 64 && m.to < 64 then
      SquareName(m.from) + SquareName(m.to) +
      if m.flags.promotion && m.promotion.Some? then [KindSymbol(m.promotion.value)] else ""
    else ""
  }

  function UciTexts(plies: seq<Ply>): string {
    if plies == [] then "" else UciText(plies[0].move) + " " + UciTexts(plies[1..])
  }

  function ByteBits(c: char): bv64 {
    (c as int % 256) as bv64
  }

  function Hashed(hash: bv64, byte: bv64): bv64 {
    (hash ^ byte) * 1099511628211
  }

  /** The 64-bit FNV-1a hash of a byte string. */
  function Fnv1a(text: string, hash: bv64): bv64 {
    if text == "" then hash
    else Fnv1a(text[1..], Hashed(hash, ByteBits(text[0])))
  }

  function HexText(n: bv64, digits: nat): string {
    if digits == 0 then "" else HexText(n >> 4, digits - 1) + ["0123456789abcdef"[(n & 15) as int]]
  }

  function IdentityText(tags: map<string, string>, plies: seq<Ply>): string {
    Tag(tags, "Site") + "|" + Tag(tags, "Date") + "|" + Tag(tags, "Round") + "|" + Tag(tags, "White") + "|" + Tag(tags, "Black") + "|" +
    Tag(tags, "Result") + "|" + UciTexts(plies)
  }

  /** A game is identified by six of its tags and the moves played. */
  function Identity(tags: map<string, string>, plies: seq<Ply>): string {
    HexText(Fnv1a(IdentityText(tags, plies), 14695981039346656037), 16)
  }

  ghost function ParsePgn(text: string): Parsed<Game> {
    var head :- ReadTags(text, map[]);
    var start :- StartOf(head.0);
    var line :- Strip(head.1, 0, false, false);
    var plies :- PlayTokens(start, Words(line));
    if plies == [] then Err(NoMoves) else Ok(Game(head.0, plies, Identity(head.0, plies)))
  }

  // ----- writing -----

  const KEYS: seq<string> := ["Site", "Date", "UTCDate", "UTCTime", "Round", "White", "Black", "WhiteElo", "BlackElo",
                              "Result", "TimeControl", "ECO", "Termination", "SetUp", "FEN"]

  function TagLine(key: string, value: string): string {
    "[" + (key + " \"" + value + "\"") + "]\n"
  }

  function TagLines(tags: map<string, string>, i: nat): string
    requires i <= |KEYS|
    decreases |KEYS| - i
  {
    if i == |KEYS| then ""
    else (if Tag(tags, KEYS[i]) == "" then "" else TagLine(KEYS[i], Tag(tags, KEYS[i]))) + TagLines(tags, i + 1)
  }

  function MoveNumberText(side: Color, number: nat, first: bool): string {
    if side.White? then NatText(number) + ". " else if first then NatText(number) + "... " else ""
  }

  function NextNumber(side: Color, number: nat): nat {
    if side.Black? then (number + 1) % 0x1_0000 else number
  }

  function MoveText(plies: seq<Ply>, side: Color, number: nat, first: bool): string {
    if plies == [] then ""
    else MoveNumberText(side, number, first) + (plies[0].san + " " +
         MoveText(plies[1..], side.Opposite(), NextNumber(side, number), false))
  }

  function ResultText(tags: map<string, string>): string {
    if Tag(tags, "Result") == "" then "*" else Tag(tags, "Result")
  }

  function CanonicalPgn(game: Game): Parsed<string>
    requires game.plies != []
  {
    var start :- FromFen(game.plies[0].before);
    Ok(TagLines(game.tags, 0) + ("\n" + (MoveText(game.plies, start.side, start.fullmove, true) + ResultText(game.tags))))
  }
}
