/** MatchPattern of internal/git/refs.go: `*` stands for any text, `/` included. */
module Wildcards {
  import opened Bytes

  const STAR: byte := 42

  function Stars(pattern: Text): nat {
    if pattern == [] then 0 else (if pattern[0] == STAR then 1 else 0) + Stars(pattern[1..])
  }

  /** The pattern with its stars replaced, left to right, by `fills`. */
  ghost function Substitute(pattern: Text, fills: seq<Text>): Text
    requires |fills| == Stars(pattern)
  {
    if pattern == [] then []
    else if pattern[0] == STAR then fills[0] + Substitute(pattern[1..], fills[1..])
    else [pattern[0]] + Substitute(pattern[1..], fills)
  }

  /** Some choice of texts for the stars turns the pattern into the name. */
  ghost predicate Matches(pattern: Text, name: Text) {
    exists fills :: |fills| == Stars(pattern) && Substitute(pattern, fills) == name
  }

  // ----- the library calls the matcher is written with -----

  predicate HasPrefix(text: Text, p: Text) {
    p <= text
  }

  predicate HasSuffix(text: Text, p: Text) {
    |p| <= |text| && text[|text| - |p|..] == p
  }

  predicate OccursAt(p: Text, text: Text, i: nat) {
    i + |p| <= |text| && text[i..i + |p|] == p
  }

  /** strings.Split(pattern, "*"): the literal pieces around the stars. */
  function Pieces(pattern: Text): (pieces: seq<Text>)
    ensures |pieces| == Stars(pattern) + 1
  {
    if pattern == [] then [[]]
    else
      var rest := Pieces(pattern[1..]);
      if pattern[0] == STAR then [[]] + rest else [[pattern[0]] + rest[0]] + rest[1..]
  }

  /** strings.Index: the leftmost occurrence, or -1. */
  method Index(text: Text, p: Text) returns (idx: int)
    ensures idx < 0 ==> forall i: nat :: !OccursAt(p, text, i)
    ensures idx >= 0 ==> OccursAt(p, text, idx) && forall i: nat :: i < idx ==> !OccursAt(p, text, i)
  {
    idx := 0;
    while idx + |p| <= |text|
      invariant 0 <= idx
      invariant forall i: nat :: i < idx ==> !OccursAt(p, text, i)
    {
      if text[idx..idx + |p|] == p {
        return;
      }
      idx := idx + 1;
    }
    idx := -1;
  }

  // ----- from texts for the stars to pieces in order -----

  /** Pieces with `fills` in between. */
  ghost function Weave(pieces: seq<Text>, fills: seq<Text>): Text
    requires |pieces| == |fills| + 1
  {
    if fills == [] then pieces[0] else pieces[0] + fills[0] + Weave(pieces[1..], fills[1..])
  }

  lemma {:induction false} WeaveIsSubstitute(pattern: Text, fills: seq<Text>)
    requires |fills| == Stars(pattern)
    ensures Weave(Pieces(pattern), fills) == Substitute(pattern, fills)
  {
    if pattern != [] {
      var rest := Pieces(pattern[1..]);
      if pattern[0] == STAR {
        WeaveIsSubstitute(pattern[1..], fills[1..]);
        assert Pieces(pattern)[1..] == rest;
      } else {
        WeaveIsSubstitute(pattern[1..], fills);
        assert Pieces(pattern)[1..] == rest[1..];
        if fills != [] {
          assert [pattern[0]] + rest[0] + fills[0] + Weave(rest[1..], fills[1..])
              == [pattern[0]] + (rest[0] + fills[0] + Weave(rest[1..], fills[1..]));
        }
      }
    }
  }

  /** `text` is any text, then each piece in turn with any text between, ending exactly
      with the last piece. */
  ghost predicate EndsWithPieces(pieces: seq<Text>, text: Text)
    requires pieces != []
    decreases |pieces|
  {
    if |pieces| == 1 then HasSuffix(text, pieces[0])
    else exists i: nat :: OccursAt(pieces[0], text, i) && EndsWithPieces(pieces[1..], text[i + |pieces[0]|..])
  }

  lemma {:induction false} WeaveEnds(pieces: seq<Text>, fills: seq<Text>)
    requires |pieces| == |fills| > 0
    ensures EndsWithPieces(pieces, fills[0] + Weave(pieces, fills[1..]))
    decreases |pieces|
  {
    var text := fills[0] + Weave(pieces, fills[1..]);
    var i := |fills[0]|;
    if |pieces| > 1 {
      assert Weave(pieces, fills[1..]) == pieces[0] + fills[1] + Weave(pieces[1..], fills[2..]);
      WeaveEnds(pieces[1..], fills[1..]);
      assert fills[1..][1..] == fills[2..];
      assert OccursAt(pieces[0], text, i);
      assert text[i + |pieces[0]|..] == fills[1] + Weave(pieces[1..], fills[2..]);
    }
  }

  lemma {:induction false} EndsGivesFills(pieces: seq<Text>, text: Text) returns (fills: seq<Text>)
    requires pieces != [] && EndsWithPieces(pieces, text)
    ensures |fills| == |pieces| && text == fills[0] + Weave(pieces, fills[1..])
    decreases |pieces|
  {
    if |pieces| == 1 {
      fills := [text[..|text| - |pieces[0]|]];
    } else {
      var i: nat :| OccursAt(pieces[0], text, i) && EndsWithPieces(pieces[1..], text[i + |pieces[0]|..]);
      var rest := EndsGivesFills(pieces[1..], text[i + |pieces[0]|..]);
      fills := [text[..i]] + rest;
      assert fills[1..] == rest;
      AfterOccurrence(text, pieces[0], i, rest[0], Weave(pieces[1..], rest[1..]));
    }
  }

  lemma AfterOccurrence(text: Text, piece: Text, i: nat, fill: Text, rest: Text)
    requires OccursAt(piece, text, i) && text[i + |piece|..] == fill + rest
    ensures text == text[..i] + (piece + fill + rest)
  {
    assert text == text[..i] + (piece + text[i + |piece|..]);
  }

  /** The middle pieces occur one after the other. */
  ghost predicate InOrder(pieces: seq<Text>, text: Text)
    decreases |pieces|
  {
    pieces == [] || exists i: nat :: OccursAt(pieces[0], text, i) && InOrder(pieces[1..], text[i + |pieces[0]|..])
  }

  /** More text in front never hurts. */
  lemma InOrderEarlier(pieces: seq<Text>, text: Text, i: nat)
    requires i <= |text| && InOrder(pieces, text[i..])
    ensures InOrder(pieces, text)
  {
    if pieces != [] {
      var p := pieces[0];
      var k: nat :| OccursAt(p, text[i..], k) && InOrder(pieces[1..], text[i..][k + |p|..]);
      assert text[i..][k..k + |p|] == text[i + k..i + k + |p|];
      assert text[i..][k + |p|..] == text[i + k + |p|..];
      assert OccursAt(p, text, i + k);
    }
  }

  /** Taking the leftmost occurrence of the next piece never loses a match. */
  lemma Greedy(pieces: seq<Text>, text: Text, idx: nat)
    requires pieces != [] && OccursAt(pieces[0], text, idx)
    requires forall i: nat :: i < idx ==> !OccursAt(pieces[0], text, i)
    ensures InOrder(pieces, text) <==> InOrder(pieces[1..], text[idx + |pieces[0]|..])
  {
    var n := |pieces[0]|;
    if InOrder(pieces, text) {
      var k: nat :| OccursAt(pieces[0], text, k) && InOrder(pieces[1..], text[k + n..]);
      assert idx <= k;
      assert text[idx + n..][k - idx..] == text[k + n..];
      InOrderEarlier(pieces[1..], text[idx + n..], k - idx);
    }
  }

  /** Shortening the text after an occurrence. */
  lemma CutAfter(p: Text, text: Text, i: nat, last: Text)
    requires i + |p| + |last| <= |text|
    ensures OccursAt(p, text, i) <==> OccursAt(p, text[..|text| - |last|], i)
    ensures text[..|text| - |last|][i + |p|..] == text[i + |p|..][..|text| - |p| - i - |last|]
    ensures HasSuffix(text, last) <==> HasSuffix(text[i + |p|..], last)
  {
    var inner := text[..|text| - |last|];
    assert inner[i..i + |p|] == text[i..i + |p|];
    var after := text[i + |p|..];
    assert after[|after| - |last|..] == text[|text| - |last|..];
  }

  ghost predicate LastThenMiddle(pieces: seq<Text>, text: Text)
    requires pieces != []
  {
    var last := pieces[|pieces| - 1];
    HasSuffix(text, last) && InOrder(pieces[..|pieces| - 1], text[..|text| - |last|])
  }

  /** The last piece can be cut off the end before the middle ones are looked for. */
  lemma {:induction false} LastPieceFirst(pieces: seq<Text>, text: Text)
    requires pieces != [] && EndsWithPieces(pieces, text)
    ensures LastThenMiddle(pieces, text)
    decreases |pieces|
  {
    if |pieces| > 1 {
      var p, rest, last := pieces[0], pieces[1..], pieces[|pieces| - 1];
      var i: nat :| OccursAt(p, text, i) && EndsWithPieces(rest, text[i + |p|..]);
      LastPieceFirst(rest, text[i + |p|..]);
      CutAfter(p, text, i, last);
      assert rest[..|rest| - 1] == pieces[..|pieces| - 1][1..];
    }
  }

  lemma {:induction false} LastPieceLast(pieces: seq<Text>, text: Text)
    requires pieces != [] && LastThenMiddle(pieces, text)
    ensures EndsWithPieces(pieces, text)
    decreases |pieces|
  {
    if |pieces| > 1 {
      var p, rest, last := pieces[0], pieces[1..], pieces[|pieces| - 1];
      var inner, middle := text[..|text| - |last|], pieces[..|pieces| - 1];
      var i: nat :| OccursAt(p, inner, i) && InOrder(middle[1..], inner[i + |p|..]);
      CutAfter(p, text, i, last);
      assert rest[..|rest| - 1] == middle[1..];
      LastPieceLast(rest, text[i + |p|..]);
    }
  }

  /** A pattern with a star matches exactly when its first piece begins the name and the
      others end what is left. */
  ghost predicate FirstThenRest(pieces: seq<Text>, name: Text)
    requires |pieces| > 1
  {
    HasPrefix(name, pieces[0]) && EndsWithPieces(pieces[1..], name[|pieces[0]|..])
  }

  lemma PiecesOfMatch(pattern: Text, name: Text, fills: seq<Text>)
    requires |fills| == Stars(pattern) > 0 && Substitute(pattern, fills) == name
    ensures FirstThenRest(Pieces(pattern), name)
  {
    var pieces := Pieces(pattern);
    WeaveIsSubstitute(pattern, fills);
    var rest := fills[0] + Weave(pieces[1..], fills[1..]);
    assert name == pieces[0] + rest;
    WeaveEnds(pieces[1..], fills);
    assert name[|pieces[0]|..] == rest;
  }

  lemma MatchOfPieces(pattern: Text, name: Text)
    requires Stars(pattern) > 0 && FirstThenRest(Pieces(pattern), name)
    ensures Matches(pattern, name)
  {
    var pieces := Pieces(pattern);
    var fills := EndsGivesFills(pieces[1..], name[|pieces[0]|..]);
    assert name == pieces[0] + name[|pieces[0]|..];
    assert name == pieces[0] + fills[0] + Weave(pieces[1..], fills[1..]);
    WeaveIsSubstitute(pattern, fills);
  }

  lemma MatchesIsPieces(pattern: Text, name: Text)
    requires Stars(pattern) > 0
    ensures Matches(pattern, name) <==> FirstThenRest(Pieces(pattern), name)
  {
    if Matches(pattern, name) {
      var fills :| |fills| == Stars(pattern) && Substitute(pattern, fills) == name;
      PiecesOfMatch(pattern, name, fills);
    } else if FirstThenRest(Pieces(pattern), name) {
      MatchOfPieces(pattern, name);
    }
  }

  lemma {:induction false} NoStars(pattern: Text)
    requires Stars(pattern) == 0
    ensures Substitute(pattern, []) == pattern
  {
    if pattern != [] {
      NoStars(pattern[1..]);
    }
  }

  lemma {:induction false} StarsCounted(pattern: Text)
    ensures Stars(pattern) == 0 <==> STAR !in pattern
    ensures Stars(pattern) <= |pattern|
  {
    if pattern != [] {
      StarsCounted(pattern[1..]);
      assert pattern == [pattern[0]] + pattern[1..];
    }
  }

  lemma ExactMatch(pattern: Text, name: Text)
    requires STAR !in pattern
    ensures Matches(pattern, name) <==> pattern == name
  {
    StarsCounted(pattern);
    NoStars(pattern);
    if Matches(pattern, name) {
      var fills: seq<Text> :| |fills| == 0 && Substitute(pattern, fills) == name;
      assert fills == [];
    }
  }

  method MatchPattern(pattern: Text, name: Text) returns (ok: bool)
    ensures ok <==> Matches(pattern, name)
  {
    if STAR !in pattern {
      ExactMatch(pattern, name);
      return pattern == name;
    }
    StarsCounted(pattern);
    var parts := Pieces(pattern);
    var last := parts[|parts| - 1];
    MatchesByEnds(pattern, name, parts, last);
    if !HasPrefix(name, parts[0]) {
      return false;
    }
    var rest := name[|parts[0]|..];
    if !HasSuffix(rest, last) {
      return false;
    }
    rest := rest[..|rest| - |last|];
    ok := TakeMiddle(parts[1..|parts| - 1], rest);
  }

  /** The first piece at the start, the last one at the end, the others in between. */
  ghost predicate EndsFit(parts: seq<Text>, name: Text, last: Text)
    requires |parts| >= 2
  {
    && HasPrefix(name, parts[0])
    && var rest := name[|parts[0]|..];
    HasSuffix(rest, last) && InOrder(parts[1..|parts| - 1], rest[..|rest| - |last|])
  }

  lemma MatchesByEnds(pattern: Text, name: Text, parts: seq<Text>, last: Text)
    requires Stars(pattern) > 0 && parts == Pieces(pattern) && last == parts[|parts| - 1]
    ensures |parts| >= 2 && (Matches(pattern, name) <==> EndsFit(parts, name, last))
  {
    MatchesIsPieces(pattern, name);
    RestByEnds(parts, name, last);
  }

  lemma RestByEnds(parts: seq<Text>, name: Text, last: Text)
    requires |parts| >= 2 && last == parts[|parts| - 1]
    ensures FirstThenRest(parts, name) <==> EndsFit(parts, name, last)
  {
    if HasPrefix(name, parts[0]) {
      EndsEitherWay(parts[1..], name[|parts[0]|..]);
      LastOfRest(parts, name[|parts[0]|..], last);
    }
  }

  /** The last piece may be cut off first. */
  lemma EndsEitherWay(pieces: seq<Text>, text: Text)
    requires pieces != []
    ensures EndsWithPieces(pieces, text) <==> LastThenMiddle(pieces, text)
  {
    if EndsWithPieces(pieces, text) {
      LastPieceFirst(pieces, text);
    } else if LastThenMiddle(pieces, text) {
      LastPieceLast(pieces, text);
    }
  }

  lemma LastOfRest(parts: seq<Text>, text: Text, last: Text)
    requires |parts| >= 2 && last == parts[|parts| - 1]
    ensures LastThenMiddle(parts[1..], text) <==> HasSuffix(text, last) && InOrder(parts[1..|parts| - 1], text[..|text| - |last|])
  {
    var rest, n := parts[1..], |parts| - 2;
    assert rest[n] == last;
    assert rest[..n] == parts[1..|parts| - 1];
  }

  lemma TakeOne(middle: seq<Text>, i: nat, rest: Text, idx: nat)
    requires i < |middle| && OccursAt(middle[i], rest, idx)
    requires forall k: nat :: k < idx ==> !OccursAt(middle[i], rest, k)
    ensures InOrder(middle[i..], rest) <==> InOrder(middle[i + 1..], rest[idx + |middle[i]|..])
  {
    var pieces := middle[i..];
    assert pieces[0] == middle[i] && pieces[1..] == middle[i + 1..];
    Greedy(pieces, rest, idx);
  }

  lemma NoPlace(middle: seq<Text>, i: nat, rest: Text)
    requires i < |middle| && forall k: nat :: !OccursAt(middle[i], rest, k)
    ensures !InOrder(middle[i..], rest)
  {
    assert middle[i..][0] == middle[i];
  }

  /** Takes the leftmost occurrence of each middle piece in turn. */
  method TakeMiddle(middle: seq<Text>, text: Text) returns (ok: bool)
    ensures ok <==> InOrder(middle, text)
  {
    var rest, i := text, 0;
    assert middle[0..] == middle;
    while i < |middle|
      invariant 0 <= i <= |middle|
      invariant InOrder(middle, text) <==> InOrder(middle[i..], rest)
    {
      var idx := Index(rest, middle[i]);
      if idx < 0 {
        NoPlace(middle, i, rest);
        return false;
      }
      TakeOne(middle, i, rest, idx);
      rest := rest[idx + |middle[i]|..];
      i := i + 1;
    }
    return true;
  }
}
