/** Words and decimal numbers in text, as input streams split and print them. */
module Text {

  /** What the readers of positions and games reject. */
  datatype Fault = FieldCount | Rows | EmptyCount | Placement | Incomplete | SideToMove | CastlingRights
                 | EnPassantSquare | HalfmoveClock | FullmoveNumber | ZeroFullmove | MissingKing
                 | UnterminatedTag | InvalidTag | UnbalancedVariation | Unterminated | IllegalMove | NoMoves

  datatype Parsed<+T> = Ok(value: T) | Err(fault: Fault) {
    predicate IsFailure() {
      Err?
    }
    function PropagateFailure<U>(): Parsed<U>
      requires Err?
    {
      Err(fault)
    }
    function Extract(): T
      requires Ok?
    {
      value
    }
  }

  predicate IsSpace(c: char) {
    c == ' ' || c == '\t' || c == '\n' || c == '\r' || c as int == 11 || c as int == 12
  }

  predicate IsDigit(c: char) {
    '0' <= c <= '9'
  }

  // ----- words -----

  /** The words of a text, given the part of a word already read. */
  function Split(text: string, word: string): seq<string> {
    if text == "" then (if word == "" then [] else [word])
    else if IsSpace(text[0]) then (if word == "" then [] else [word]) + Split(text[1..], "")
    else Split(text[1..], word + [text[0]])
  }

  function Words(text: string): seq<string> {
    Split(text, "")
  }

  predicate NoSpace(word: string) {
    forall c :: c in word ==> !IsSpace(c)
  }

  lemma {:induction false} SplitReadsWord(word: string, rest: string, read: string)
    requires NoSpace(word)
    ensures Split(word + rest, read) == Split(rest, read + word)
  {
    if word == "" {
      assert word + rest == rest && read + word == read;
    } else {
      assert (word + rest)[1..] == word[1..] + rest && (word + rest)[0] == word[0];
      assert read + [word[0]] + word[1..] == read + word;
      SplitReadsWord(word[1..], rest, read + [word[0]]);
    }
  }

  /** A word followed by a space is the first word; the rest splits as before. */
  lemma WordThenSpace(word: string, space: char, rest: string)
    requires NoSpace(word) && word != "" && IsSpace(space)
    ensures Words(word + [space] + rest) == [word] + Words(rest)
  {
    assert word + [space] + rest == word + ([space] + rest);
    SplitReadsWord(word, [space] + rest, "");
    assert "" + word == word;
    assert ([space] + rest)[1..] == rest;
  }

  lemma LastWord(word: string)
    requires NoSpace(word) && word != ""
    ensures Words(word) == [word]
  {
    assert word + "" == word && "" + word == word;
    SplitReadsWord(word, "", "");
  }

  /** Splitting with the loop of a stream reader. */
  method ReadWords(text: string) returns (words: seq<string>)
    ensures words == Words(text)
  {
    words := [];
    var word := "";
    assert text[0..] == text;
    for i := 0 to |text|
      invariant words + Split(text[i..], word) == Words(text)
    {
      assert text[i..][1..] == text[i + 1..];
      if IsSpace(text[i]) {
        if word != "" {
          words := words + [word];
        }
        word := "";
      } else {
        word := word + [text[i]];
      }
    }
    if word != "" {
      words := words + [word];
    }
  }

  // ----- decimal numbers -----

  function DigitChar(digit: nat): (c: char)
    requires digit < 10
    ensures IsDigit(c) && c as int - '0' as int == digit
  {
    ('0' as int + digit) as char
  }

  function DigitValue(c: char): nat
    requires IsDigit(c)
  {
    c as int - '0' as int
  }

  function NatText(n: nat): (text: string)
    ensures text != "" && forall c :: c in text ==> IsDigit(c)
  {
    if n < 10 then [DigitChar(n)] else NatText(n / 10) + [DigitChar(n % 10)]
  }

  function NatValue(text: string): nat
    requires forall c :: c in text ==> IsDigit(c)
  {
    if text == "" then 0 else NatValue(text[..|text| - 1]) * 10 + DigitValue(text[|text| - 1])
  }

  lemma {:induction false} NatRoundTrip(n: nat)
    ensures NatValue(NatText(n)) == n
  {
    if n >= 10 {
      NatRoundTrip(n / 10);
      var text := NatText(n);
      assert text[..|text| - 1] == NatText(n / 10) && text[|text| - 1] == DigitChar(n % 10);
    }
  }

  lemma {:induction false} NatTextIsWord(n: nat)
    ensures NoSpace(NatText(n))
  {
  }
}
