/** What a game's identity is taken of: a text that tells the six tags and the moves. */
module PgnIdentity {
  import opened Positions
  import opened Fen
  import opened Pgn

  const NAMES: seq<string> := ["Site", "Date", "Round", "White", "Black", "Result"]

  lemma CutWithin(a: string, x: string, b: string, y: string, cut: char)
    requires a + [cut] + x == b + [cut] + y && |a| < |b|
    ensures cut in b
  {
    assert (a + [cut] + x)[|a|] == cut && (b + [cut] + y)[|a|] == b[|a|];
  }

  /** Texts up to the same character. */
  lemma CutTells(a: string, x: string, b: string, y: string, cut: char)
    requires cut !in a && cut !in b && a + [cut] + x == b + [cut] + y
    ensures a == b && x == y
  {
    var s, t := a + [cut] + x, b + [cut] + y;
    if |a| < |b| {
      CutWithin(a, x, b, y, cut);
    } else if |b| < |a| {
      CutWithin(b, y, a, x, cut);
    } else {
      assert s[..|a|] == a && t[..|b|] == b && s[|a| + 1..] == x && t[|b| + 1..] == y;
    }
  }

  lemma NoBlank(m: Move)
    ensures ' ' !in UciText(m)
  {
    if m.from < 64 && m.to < 64 && m.promotion.Some? {
      assert KindSymbol(m.promotion.value) != ' ';
    }
  }

  lemma {:induction false} MovesTold(a: seq<Ply>, b: seq<Ply>)
    requires UciTexts(a) == UciTexts(b)
    ensures |a| == |b| && forall i :: 0 <= i < |a| ==> UciText(a[i].move) == UciText(b[i].move)
  {
    hide UciText;
    if a == [] || b == [] {
    } else {
      NoBlank(a[0].move);
      NoBlank(b[0].move);
      CutTells(UciText(a[0].move), UciTexts(a[1..]), UciText(b[0].move), UciTexts(b[1..]), ' ');
      MovesTold(a[1..], b[1..]);
      assert forall i :: 0 < i < |a| ==> a[i] == a[1..][i - 1] && b[i] == b[1..][i - 1];
    }
  }

  predicate Barless(tags: map<string, string>) {
    forall name :: name in NAMES ==> '|' !in Tag(tags, name)
  }

  function Joined(parts: seq<string>, end: string): string {
    if parts == [] then end else parts[0] + "|" + Joined(parts[1..], end)
  }

  lemma {:induction false} PartsTold(a: seq<string>, x: string, b: seq<string>, y: string)
    requires |a| == |b| && Joined(a, x) == Joined(b, y) && forall i :: 0 <= i < |a| ==> '|' !in a[i] && '|' !in b[i]
    ensures a == b && x == y
  {
    if a != [] {
      CutTells(a[0], Joined(a[1..], x), b[0], Joined(b[1..], y), '|');
      PartsTold(a[1..], x, b[1..], y);
      assert a == [a[0]] + a[1..] && b == [b[0]] + b[1..];
    }
  }

  function Values(tags: map<string, string>): seq<string> {
    seq(|NAMES|, i requires 0 <= i < |NAMES| => Tag(tags, NAMES[i]))
  }

  lemma TextJoins(tags: map<string, string>, plies: seq<Ply>)
    ensures IdentityText(tags, plies) == Joined(Values(tags), UciTexts(plies))
  {
    hide UciTexts, Tag;
    JoinedSix(Tag(tags, "Site"), Tag(tags, "Date"), Tag(tags, "Round"), Tag(tags, "White"), Tag(tags, "Black"), Tag(tags, "Result"),
              UciTexts(plies));
    ValuesAre(tags);
  }

  lemma ValuesAre(tags: map<string, string>)
    ensures Values(tags) == [Tag(tags, "Site"), Tag(tags, "Date"), Tag(tags, "Round"), Tag(tags, "White"), Tag(tags, "Black"),
                             Tag(tags, "Result")]
  {
    hide Tag;
  }

  lemma JoinedSix(a: string, b: string, c: string, d: string, e: string, f: string, end: string)
    ensures Joined([a, b, c, d, e, f], end) == a + "|" + b + "|" + c + "|" + d + "|" + e + "|" + f + "|" + end
  {
    JoinedOne(f, [], end);
    JoinedOne(e, [f], end);
    JoinedOne(d, [e, f], end);
    JoinedOne(c, [d, e, f], end);
    JoinedOne(b, [c, d, e, f], end);
    JoinedOne(a, [b, c, d, e, f], end);
    assert [f] + [] == [f] && [e] + [f] == [e, f] && [d] + [e, f] == [d, e, f] && [c] + [d, e, f] == [c, d, e, f];
    assert [b] + [c, d, e, f] == [b, c, d, e, f] && [a] + [b, c, d, e, f] == [a, b, c, d, e, f];
  }

  lemma JoinedOne(part: string, parts: seq<string>, end: string)
    ensures Joined([part] + parts, end) == part + "|" + Joined(parts, end)
  {
    assert ([part] + parts)[1..] == parts;
  }

  /** Two games of one identity text have the six tags and the moves in common, if no tag holds a bar. */
  lemma IdentityTells(a: map<string, string>, plies: seq<Ply>, b: map<string, string>, others: seq<Ply>)
    requires Barless(a) && Barless(b) && IdentityText(a, plies) == IdentityText(b, others)
    ensures Tag(a, "Site") == Tag(b, "Site") && Tag(a, "Date") == Tag(b, "Date") && Tag(a, "Round") == Tag(b, "Round")
    ensures Tag(a, "White") == Tag(b, "White") && Tag(a, "Black") == Tag(b, "Black") && Tag(a, "Result") == Tag(b, "Result")
    ensures |plies| == |others| && forall i :: 0 <= i < |plies| ==> UciText(plies[i].move) == UciText(others[i].move)
  {
    TextJoins(a, plies);
    TextJoins(b, others);
    hide IdentityText, Joined, UciTexts, Tag;
    PartsTold(Values(a), UciTexts(plies), Values(b), UciTexts(others));
    MovesTold(plies, others);
    ValuesAre(a);
    ValuesAre(b);
    hide Values;
    SixTold(Tag(a, "Site"), Tag(a, "Date"), Tag(a, "Round"), Tag(a, "White"), Tag(a, "Black"), Tag(a, "Result"), Values(b));
  }

  lemma SixTold(a: string, b: string, c: string, d: string, e: string, f: string, parts: seq<string>)
    requires parts == [a, b, c, d, e, f]
    ensures parts[0] == a && parts[1] == b && parts[2] == c && parts[3] == d && parts[4] == e && parts[5] == f
  {
  }

  lemma LetterInt()
    ensures (0x61 as bv64) as int == 97
  {
  }

  lemma IntRoundTrip(x: bv64)
    ensures ((x as int) as bv64) == x
  {
  }

  lemma LetterBits()
    ensures ByteBits('a') == 0x61
  {
    LetterInt();
    IntRoundTrip(0x61);
  }

  lemma OneByte(c: char, hash: bv64)
    ensures Fnv1a([c], hash) == Hashed(hash, ByteBits(c))
  {
    hide ByteBits, Hashed;
    assert [c][1..] == "";
  }

  lemma Multiplied()
    ensures Hashed(0xcbf29ce484222325, 0x61) == 0xaf63dc4c8601ec8c
  {
  }

  /** The hash of the letter a, as published with the algorithm. */
  lemma HashKnown()
    ensures Fnv1a("a", 14695981039346656037) == 0xaf63dc4c8601ec8c
  {
    LetterBits();
    Multiplied();
    hide Fnv1a, ByteBits, Hashed;
    OneByte('a', 14695981039346656037);
  }
}
