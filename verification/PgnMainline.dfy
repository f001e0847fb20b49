/** What stripping comments and variations leaves of a movetext, told by how a movetext is put together. */
module PgnMainline {
  import opened Text
  import opened Pgn

  /** How much deeper in variations a text ends than it starts. */
  function Net(text: string): int {
    if text == "" then 0 else Turn(text[0]) + Net(text[1..])
  }

  function Turn(c: char): int {
    if c == '(' then 1 else if c == ')' then -1 else 0
  }

  /** Parentheses match, whatever else stands among them. */
  predicate Balanced(text: string) {
    Net(text) == 0 && forall k :: 0 <= k <= |text| ==> Net(text[..k]) >= 0
  }

  /** A movetext is made of characters of the main line, comments in braces, comments to the end of a line,
      and variations in parentheses. */
  datatype Piece = Plain(c: char) | Brace(comment: string) | Line(comment: string) | Variation(text: string)

  predicate Proper(piece: Piece) {
    match piece
    case Plain(c) => c !in ";{()"
    case Brace(comment) => '}' !in comment
    case Line(comment) => '\n' !in comment
    case Variation(text) => Balanced(text)
  }

  predicate AllProper(pieces: seq<Piece>) {
    forall i :: 0 <= i < |pieces| ==> Proper(pieces[i])
  }

  function PieceText(piece: Piece): string {
    match piece
    case Plain(c) => [c]
    case Brace(comment) => "{" + (comment + "}")
    case Line(comment) => ";" + (comment + "\n")
    case Variation(text) => "(" + (text + ")")
  }

  function Written(pieces: seq<Piece>, end: string): string {
    if pieces == [] then end else PieceText(pieces[0]) + Written(pieces[1..], end)
  }

  /** Of the pieces the main line has its own characters, and a blank for the end of each commented line. */
  function Mainline(pieces: seq<Piece>): string {
    if pieces == [] then ""
    else (if pieces[0].Plain? then [pieces[0].c] else if pieces[0].Line? then " " else "") + Mainline(pieces[1..])
  }

  /** A movetext may end in a comment whose line is not closed. */
  predicate IsEnd(end: string) {
    end == "" || (end[0] == ';' && '\n' !in end)
  }

  // ----- every such text is stripped to its main line -----

  lemma {:induction false} LineSkipped(comment: string, rest: string)
    requires '\n' !in comment
    ensures Strip(comment + ("\n" + rest), 0, false, true) == Prepend(" ", Strip(rest, 0, false, false))
    ensures Strip(comment, 0, false, true) == Ok("")
  {
    if comment == "" {
      assert comment + ("\n" + rest) == "\n" + rest && ("\n" + rest)[1..] == rest;
    } else {
      assert (comment + ("\n" + rest))[1..] == comment[1..] + ("\n" + rest);
      LineSkipped(comment[1..], rest);
    }
  }

  lemma {:induction false} BraceSkipped(comment: string, rest: string)
    requires '}' !in comment
    ensures Strip(comment + ("}" + rest), 0, true, false) == Strip(rest, 0, false, false)
  {
    if comment == "" {
      assert comment + ("}" + rest) == "}" + rest && ("}" + rest)[1..] == rest;
    } else {
      assert (comment + ("}" + rest))[1..] == comment[1..] + ("}" + rest);
      BraceSkipped(comment[1..], rest);
    }
  }

  lemma NetFirst(text: string, k: nat)
    requires text != "" && 0 < k <= |text|
    ensures Net(text[..k]) == Turn(text[0]) + Net(text[1..][..k - 1])
  {
    assert text[..k][0] == text[0] && text[..k][1..] == text[1..][..k - 1];
  }

  /** The text never leaves the variation it starts in, at that depth. */
  predicate Inside(text: string, depth: nat) {
    forall k :: 0 <= k <= |text| ==> depth + Net(text[..k]) >= 1
  }

  lemma InsideFirst(text: string, depth: nat)
    requires text != ""
    ensures Inside(text, depth) <==> depth >= 1 && depth + Turn(text[0]) >= 1 && Inside(text[1..], depth + Turn(text[0]))
  {
    assert Net(text[..0]) == 0;
    if Inside(text, depth) {
      forall k | 0 <= k <= |text[1..]|
        ensures depth + Turn(text[0]) + Net(text[1..][..k]) >= 1
      {
        NetFirst(text, k + 1);
      }
      assert depth + Turn(text[0]) + Net(text[1..][..0]) >= 1;
    } else if depth >= 1 && depth + Turn(text[0]) >= 1 && Inside(text[1..], depth + Turn(text[0])) {
      forall k | 0 <= k <= |text|
        ensures depth + Net(text[..k]) >= 1
      {
        if k > 0 {
          NetFirst(text, k);
        }
      }
    }
  }

  lemma {:induction false} InsideSkipped(text: string, rest: string, depth: nat)
    requires Inside(text, depth)
    ensures depth + Net(text) >= 1 && Strip(text + rest, depth, false, false) == Strip(rest, depth + Net(text), false, false)
  {
    if text == "" {
      assert text[..0] == text && text + rest == rest;
    } else {
      InsideFirst(text, depth);
      assert (text + rest)[0] == text[0] && (text + rest)[1..] == text[1..] + rest;
      InsideSkipped(text[1..], rest, depth + Turn(text[0]));
    }
  }

  lemma VariationSkipped(text: string, rest: string)
    requires Balanced(text)
    ensures Strip("(" + (text + ")") + rest, 0, false, false) == Strip(rest, 0, false, false)
  {
    var s := "(" + (text + ")") + rest;
    assert s[1..] == text + (")" + rest) && (")" + rest)[1..] == rest;
    assert Inside(text, 1);
    InsideSkipped(text, ")" + rest, 1);
  }

  /** A text that starts with an opening character and goes on to its closing one. */
  lemma Framed(text: string, opening: char, inner: string, closing: char, rest: string)
    requires text == [opening] + (inner + [closing]) + rest
    ensures text != "" && text[0] == opening && text[1..] == inner + ([closing] + rest)
  {
  }

  lemma LineStripped(comment: string, rest: string)
    requires '\n' !in comment
    ensures Strip(";" + (comment + "\n") + rest, 0, false, false) == Prepend(" ", Strip(rest, 0, false, false))
  {
    Framed(";" + (comment + "\n") + rest, ';', comment, '\n', rest);
    LineSkipped(comment, rest);
  }

  lemma BraceStripped(comment: string, rest: string)
    requires '}' !in comment
    ensures Strip("{" + (comment + "}") + rest, 0, false, false) == Strip(rest, 0, false, false)
  {
    Framed("{" + (comment + "}") + rest, '{', comment, '}', rest);
    BraceSkipped(comment, rest);
  }

  lemma PlainStripped(c: char, rest: string)
    requires c !in ";{()"
    ensures Strip([c] + rest, 0, false, false) == Prepend([c], Strip(rest, 0, false, false))
  {
    assert ([c] + rest)[1..] == rest;
    assert c != ';' && c != '{' && c != '(' && c != ')' by {
      NotAmong(c);
    }
  }

  lemma NotAmong(c: char)
    requires c !in ";{()"
    ensures c != ';' && c != '{' && c != '(' && c != ')'
  {
    assert ";{()"[0] == ';' && ";{()"[1] == '{' && ";{()"[2] == '(' && ";{()"[3] == ')';
  }

  lemma MainlineOne(piece: Piece)
    ensures Mainline([piece]) == if piece.Plain? then [piece.c] else if piece.Line? then " " else ""
  {
    assert [piece][1..] == [];
  }

  lemma NothingPrepended(stripped: Parsed<string>)
    ensures Prepend("", stripped) == stripped
  {
    if stripped.Ok? {
      assert "" + stripped.value == stripped.value;
    }
  }

  lemma PieceStripped(piece: Piece, rest: string)
    requires Proper(piece)
    ensures Strip(PieceText(piece) + rest, 0, false, false) == Prepend(Mainline([piece]), Strip(rest, 0, false, false))
  {
    MainlineOne(piece);
    NothingPrepended(Strip(rest, 0, false, false));
    match piece
    case Plain(c) => hide Strip, Mainline, Balanced; PlainStripped(c, rest);
    case Brace(comment) => hide Strip, Mainline, Balanced; BraceStripped(comment, rest);
    case Line(comment) => hide Strip, Mainline, Balanced; LineStripped(comment, rest);
    case Variation(text) => hide Strip, Mainline, Balanced; VariationSkipped(text, rest);
  }

  lemma {:induction false} WrittenStripped(pieces: seq<Piece>, end: string)
    requires AllProper(pieces) && IsEnd(end)
    ensures Strip(Written(pieces, end), 0, false, false) == Ok(Mainline(pieces))
  {
    hide Strip, Proper, PieceText;
    if pieces == [] {
      EndStripped(end);
    } else {
      WrittenStripped(pieces[1..], end);
      PieceStripped(pieces[0], Written(pieces[1..], end));
      assert [pieces[0]][1..] == [];
      assert Mainline(pieces) == Mainline([pieces[0]]) + Mainline(pieces[1..]);
    }
  }

  lemma EndStripped(end: string)
    requires IsEnd(end)
    ensures Strip(end, 0, false, false) == Ok("")
  {
    if end != "" {
      LineSkipped(end[1..], "");
    }
  }

  // ----- and every text stripped is such a text -----

  /** The place where the variation a text starts in ends. */
  lemma {:induction false} VariationEnds(text: string, depth: nat) returns (k: nat)
    requires depth >= 1 && Strip(text, depth, false, false).Ok?
    ensures k < |text| && text[k] == ')' && Inside(text[..k], depth) && depth + Net(text[..k]) == 1
    ensures Strip(text, depth, false, false) == Strip(text[k + 1..], 0, false, false)
  {
    if text[0] == ')' && depth == 1 {
      k := 0;
      assert Net(text[..0]) == 0 && forall j :: 0 <= j <= 0 ==> text[..0][..j] == "";
    } else {
      var next := VariationEnds(text[1..], depth + Turn(text[0]));
      k := next + 1;
      NetFirst(text, k);
      InsideFirst(text[..k], depth);
      assert text[..k][1..] == text[1..][..next];
    }
  }

  lemma {:induction false} BraceEnds(text: string) returns (k: nat)
    requires Strip(text, 0, true, false).Ok?
    ensures k < |text| && text[k] == '}' && '}' !in text[..k]
    ensures Strip(text, 0, true, false) == Strip(text[k + 1..], 0, false, false)
  {
    if text[0] == '}' {
      k := 0;
    } else {
      var next := BraceEnds(text[1..]);
      k := next + 1;
      assert text[..k] == [text[0]] + text[1..][..next];
    }
  }

  lemma {:induction false} LineEnds(text: string) returns (k: nat)
    requires '\n' in text
    ensures k < |text| && text[k] == '\n' && '\n' !in text[..k]
    ensures Strip(text, 0, false, true) == Prepend(" ", Strip(text[k + 1..], 0, false, false))
  {
    if text[0] == '\n' {
      k := 0;
    } else {
      var next := LineEnds(text[1..]);
      k := next + 1;
      assert text[..k] == [text[0]] + text[1..][..next];
    }
  }

  lemma Reframed(text: string, opening: char, k: nat, closing: char)
    requires text != "" && text[0] == opening && k < |text[1..]| && text[1..][k] == closing
    ensures text == [opening] + (text[1..][..k] + [closing]) + text[1..][k + 1..]
  {
  }

  lemma StartsAs(text: string)
    requires text != ""
    ensures text[0] == ';' ==> Strip(text, 0, false, false) == Strip(text[1..], 0, false, true)
    ensures text[0] == '{' ==> Strip(text, 0, false, false) == Strip(text[1..], 0, true, false)
    ensures text[0] == '(' ==> Strip(text, 0, false, false) == Strip(text[1..], 1, false, false)
    ensures text[0] == ')' ==> Strip(text, 0, false, false).Err?
    ensures text[0] !in ";{()" ==> Strip(text, 0, false, false) == Prepend([text[0]], Strip(text[1..], 0, false, false))
  {
    if text[0] !in ";{()" {
      NotAmong(text[0]);
    }
  }

  lemma LinePiece(text: string) returns (piece: Piece, rest: string)
    requires text != "" && text[0] == ';' && '\n' in text && Strip(text, 0, false, false).Ok?
    ensures Proper(piece) && text == PieceText(piece) + rest && |rest| < |text| && Strip(rest, 0, false, false).Ok?
  {
    StartsAs(text);
    var k := LineEnds(text[1..]);
    Reframed(text, ';', k, '\n');
    piece, rest := Line(text[1..][..k]), text[1..][k + 1..];
    hide Strip;
  }

  lemma BracePiece(text: string) returns (piece: Piece, rest: string)
    requires text != "" && text[0] == '{' && Strip(text, 0, false, false).Ok?
    ensures Proper(piece) && text == PieceText(piece) + rest && |rest| < |text| && Strip(rest, 0, false, false).Ok?
  {
    StartsAs(text);
    var k := BraceEnds(text[1..]);
    Reframed(text, '{', k, '}');
    piece, rest := Brace(text[1..][..k]), text[1..][k + 1..];
    hide Strip;
  }

  lemma VariationPiece(text: string) returns (piece: Piece, rest: string)
    requires text != "" && text[0] == '(' && Strip(text, 0, false, false).Ok?
    ensures Proper(piece) && text == PieceText(piece) + rest && |rest| < |text| && Strip(rest, 0, false, false).Ok?
  {
    StartsAs(text);
    var k := VariationEnds(text[1..], 1);
    Reframed(text, '(', k, ')');
    piece, rest := Variation(text[1..][..k]), text[1..][k + 1..];
    hide Strip;
  }

  lemma PlainPiece(text: string) returns (piece: Piece, rest: string)
    requires text != "" && text[0] !in ";{()" && Strip(text, 0, false, false).Ok?
    ensures Proper(piece) && text == PieceText(piece) + rest && |rest| < |text| && Strip(rest, 0, false, false).Ok?
  {
    StartsAs(text);
    piece, rest := Plain(text[0]), text[1..];
    hide Strip;
  }

  lemma AmongFour(c: char)
    requires c in ";{()"
    ensures c == ';' || c == '{' || c == '(' || c == ')'
  {
  }

  lemma FirstPiece(text: string) returns (piece: Piece, rest: string)
    requires text != "" && !IsEnd(text) && Strip(text, 0, false, false).Ok?
    ensures Proper(piece) && text == PieceText(piece) + rest && |rest| < |text| && Strip(rest, 0, false, false).Ok?
  {
    StartsAs(text);
    hide Strip, Proper, PieceText;
    if text[0] == ';' {
      piece, rest := LinePiece(text);
    } else if text[0] == '{' {
      piece, rest := BracePiece(text);
    } else if text[0] == '(' {
      piece, rest := VariationPiece(text);
    } else {
      if text[0] in ";{()" {
        AmongFour(text[0]);
      }
      piece, rest := PlainPiece(text);
    }
  }

  lemma {:induction false} StrippedWritten(text: string) returns (pieces: seq<Piece>, end: string)
    requires Strip(text, 0, false, false).Ok?
    ensures AllProper(pieces) && IsEnd(end) && text == Written(pieces, end)
    decreases |text|
  {
    if IsEnd(text) {
      pieces, end := [], text;
    } else {
      var piece, rest := FirstPiece(text);
      var others;
      others, end := StrippedWritten(rest);
      pieces := [piece] + others;
      hide Strip, Proper, PieceText;
      assert pieces[1..] == others;
    }
  }

  ghost predicate IsMovetext(text: string, pieces: seq<Piece>, end: string) {
    AllProper(pieces) && IsEnd(end) && text == Written(pieces, end)
  }

  /** A text is stripped exactly if it is a movetext, and what is left is its main line. */
  lemma StripExact(text: string, mainline: string)
    ensures Strip(text, 0, false, false) == Ok(mainline) <==>
            exists pieces, end :: IsMovetext(text, pieces, end) && mainline == Mainline(pieces)
  {
    hide Strip, AllProper, Written, Mainline;
    if Strip(text, 0, false, false) == Ok(mainline) {
      var pieces, end := StrippedWritten(text);
      WrittenStripped(pieces, end);
      assert IsMovetext(text, pieces, end);
    }
    if pieces, end :| IsMovetext(text, pieces, end) && mainline == Mainline(pieces) {
      WrittenStripped(pieces, end);
    }
  }

  // ----- what is refused -----

  /** What closes the comment and the variations a text is in. */
  function Closing(depth: nat, brace: bool, line: bool): string {
    (if line then "\n" else "") + ((if brace then "}" else "") + Closings(depth))
  }

  function Closings(depth: nat): string {
    if depth == 0 then "" else ")" + Closings(depth - 1)
  }

  lemma {:induction false} ClosingsStrip(depth: nat)
    ensures Strip(Closings(depth), depth, false, false) == Ok("")
  {
    if depth > 0 {
      ClosingsStrip(depth - 1);
      assert Closings(depth)[1..] == Closings(depth - 1);
    }
  }

  lemma ClosingStrips(depth: nat, brace: bool, line: bool)
    ensures Strip(Closing(depth, brace, line), depth, brace, line).Ok?
  {
    ClosingsStrip(depth);
    var open := (if brace then "}" else "") + Closings(depth);
    if brace {
      assert open[0] == '}' && open[1..] == Closings(depth);
    } else {
      assert open == Closings(depth);
    }
    hide Closings;
    assert Strip(open, depth, brace, false).Ok?;
    if line {
      assert ("\n" + open)[0] == '\n' && ("\n" + open)[1..] == open;
    } else {
      assert "" + open == open;
    }
  }

  /** An unterminated text can be completed; after a closing parenthesis too many nothing helps. */
  lemma {:induction false} FaultsTell(text: string, depth: nat, brace: bool, line: bool, more: string) returns (closing: string)
    ensures Strip(text, depth, brace, line) == Err(Unterminated) ==> Strip(text + closing, depth, brace, line).Ok?
    ensures Strip(text, depth, brace, line) == Err(UnbalancedVariation) ==> Strip(text + more, depth, brace, line) == Err(UnbalancedVariation)
    ensures Strip(text, depth, brace, line) in {Err(Unterminated), Err(UnbalancedVariation)} || Strip(text, depth, brace, line).Ok?
    decreases |text|
  {
    if text == "" {
      closing := Closing(depth, brace, line);
      assert text + closing == closing;
      ClosingStrips(depth, brace, line);
    } else {
      StripFirst(text, depth, brace, line);
      StripFirst(text + more, depth, brace, line);
      assert (text + more)[1..] == text[1..] + more;
      var c := text[0];
      var d, b, l := NextDepth(depth, brace, line, c), NextBrace(depth, brace, line, c), NextLine(depth, brace, line, c);
      if Strays(depth, brace, line, c) {
        closing := "";
      } else {
        closing := FaultsTell(text[1..], d, b, l, more);
        StripFirst(text + closing, depth, brace, line);
        assert (text + closing)[1..] == text[1..] + closing;
      }
      hide Strip;
    }
  }

  function NextDepth(depth: nat, brace: bool, line: bool, c: char): nat {
    if line || brace then depth else if c == '(' then depth + 1 else if c == ')' && depth > 0 then depth - 1 else depth
  }

  predicate NextBrace(depth: nat, brace: bool, line: bool, c: char) {
    if line then brace else if brace then c != '}' else c == '{' && depth == 0
  }

  predicate NextLine(depth: nat, brace: bool, line: bool, c: char) {
    if line then c != '\n' else !brace && c == ';' && depth == 0
  }

  predicate Strays(depth: nat, brace: bool, line: bool, c: char) {
    !line && !brace && c == ')' && depth == 0
  }

  lemma StripFirst(text: string, depth: nat, brace: bool, line: bool)
    requires text != ""
    ensures
      var c := text[0];
      var rest := Strip(text[1..], NextDepth(depth, brace, line, c), NextBrace(depth, brace, line, c), NextLine(depth, brace, line, c));
      if Strays(depth, brace, line, c) then Strip(text, depth, brace, line) == Err(UnbalancedVariation)
      else if rest.Ok? then Strip(text, depth, brace, line).Ok?
      else Strip(text, depth, brace, line) == rest
  {
  }

  /** A text is refused as unterminated exactly if it is no movetext but can be made one by writing on. */
  lemma UnterminatedExact(text: string)
    ensures Strip(text, 0, false, false) == Err(Unterminated) <==>
            !Strip(text, 0, false, false).Ok? && exists more :: Strip(text + more, 0, false, false).Ok?
  {
    hide Strip;
    if Strip(text, 0, false, false) == Err(Unterminated) {
      var closing := FaultsTell(text, 0, false, false, "");
      assert Strip(text + closing, 0, false, false).Ok?;
    } else if more :| Strip(text + more, 0, false, false).Ok? {
      var closing := FaultsTell(text, 0, false, false, more);
    }
  }
}
