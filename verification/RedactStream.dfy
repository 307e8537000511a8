/** The stream of internal/redact: bytes go in, masked bytes come out as soon as no
    later byte can change how they are shown. */
module RedactStream {
  import opened Bytes
  import opened AhoCorasick
  import opened RedactSpec

  /** Node `state` spells the longest ending of `text` that begins a pattern. */
  ghost predicate Tracks(paths: seq<Text>, state: nat, text: Text) {
    && state < |paths|
    && Suffix(paths[state], text)
    && (forall g {:trigger Suffix(paths[g], text)} ::
          0 <= g < |paths| && Suffix(paths[g], text) ==> |paths[g]| <= |paths[state]|)
  }

  /** As Candidate, for a suffix of the text read so far that may be the whole of it. */
  ghost predicate Resuming(nodes: seq<Node>, paths: seq<Text>, text: Text, b: byte, f: nat)
    requires |nodes| == |paths|
  {
    && f < |nodes|
    && Suffix(paths[f], text)
    && (forall g :: 0 <= g < |nodes| && Suffix(paths[g], text) && b in nodes[g].next ==> |paths[g]| <= |paths[f]|)
  }

  lemma ResumeAtFail(nodes: seq<Node>, paths: seq<Text>, text: Text, b: byte, f: nat)
    requires Trie(nodes, paths) && Resuming(nodes, paths, text, b, f)
    requires b !in nodes[f].next && f != 0 && FailIsLongestSuffix(nodes, paths, f)
    ensures Resuming(nodes, paths, text, b, nodes[f].fail)
  {
    var n := nodes[f].fail;
    SuffixTransitive(paths[n], paths[f], text);
    forall g | 0 <= g < |nodes| && Suffix(paths[g], text) && b in nodes[g].next
      ensures |paths[g]| <= |paths[n]|
    {
      SuffixOfSuffix(paths[g], paths[f], text);
      assert ProperSuffix(paths[g], paths[f]) by {
        assert paths[g] != paths[f];
      }
    }
  }

  lemma Advanced(nodes: seq<Node>, paths: seq<Text>, text: Text, b: byte, f: nat, next: nat)
    requires Trie(nodes, paths) && Resuming(nodes, paths, text, b, f)
    requires b in nodes[f].next || f == 0
    requires next == if b in nodes[f].next then nodes[f].next[b] else 0
    ensures Tracks(paths, next, text + [b])
  {
    if b in nodes[f].next {
      SuffixExtend(paths[f], text, b);
    }
    forall g | 0 <= g < |paths| && Suffix(paths[g], text + [b]) ensures |paths[g]| <= |paths[next]| {
      if paths[g] != [] {
        var s := paths[g];
        var t := s[..|s| - 1];
        assert s == t + [b];
        var u := ParentPath(nodes, paths, t, b);
        SuffixExtend(t, text, b);
        RootIsEmpty(nodes, paths, u);
      }
    }
  }

  /** The transition both loops of Append share. */
  method Step(m: Matcher, ghost paths: seq<Text>, ghost patterns: seq<Text>, ghost text: Text, state: nat, b: byte)
    returns (next: nat)
    requires Automaton(m, paths, patterns) && Tracks(paths, state, text)
    ensures Tracks(paths, next, text + [b])
    ensures |paths[next]| <= |paths[state]| + 1
  {
    var f := state;
    while f != 0
      invariant Resuming(m.nodes, paths, text, b, f)
      invariant |paths[f]| <= |paths[state]|
      decreases |paths[f]|
    {
      if b in m.nodes[f].next {
        break;
      }
      assert Linked(m.nodes, paths, patterns, f);
      ResumeAtFail(m.nodes, paths, text, b, f);
      f := m.nodes[f].fail;
    }
    if b in m.nodes[f].next {
      next := m.nodes[f].next[b];
    } else {
      next := 0;
    }
    Advanced(m.nodes, paths, text, b, f, next);
  }

  /** The match length of the tracked node is the longest pattern ending the text. */
  lemma LongestOfText(m: Matcher, paths: seq<Text>, patterns: seq<Text>, state: nat, text: Text)
    requires Automaton(m, paths, patterns) && Tracks(paths, state, text)
    ensures LongestEnding(patterns, text, m.nodes[state].longest)
    ensures m.nodes[state].longest <= |paths[state]|
  {
    assert Linked(m.nodes, paths, patterns, state);
    var n := m.nodes[state].longest;
    if n != 0 {
      var p :| p in patterns && |p| == n && Suffix(p, paths[state]);
      SuffixTransitive(p, paths[state], text);
    }
    forall p | p in patterns && Suffix(p, text) ensures |p| <= n {
      assert Begins(p, patterns);
      var g := PathIndex(paths, p);
      SuffixOfSuffix(p, paths[state], text);
    }
  }

  /** Positions that may be shown: already hidden, or older than any unfinished match. */
  ghost predicate Settled(patterns: seq<Text>, text: Text, depth: nat, i: nat) {
    i < |text| && (Covered(patterns, text, i) || i + depth < |text|)
  }

  /** The held-back bytes are the end of `text` and carry their true marks; everything
      before them has been shown as it should be. */
  ghost predicate Faithful(text: Text, marks: seq<bool>, carry: bool, pending: Text, masked: seq<bool>, masking: bool, shown: Text)
    requires |text| == |marks|
  {
    && |pending| == |masked| <= |text|
    && var base := |text| - |pending|;
    && Suffix(pending, text)
    && Suffix(masked, marks)
    && masking == HiddenBefore(marks, carry, base)
    && shown == Shown(text, marks, carry, base)
  }

  ghost predicate AllSettled(patterns: seq<Text>, text: Text, depth: nat, n: int) {
    forall i :: 0 <= i < n ==> Settled(patterns, text, depth, i)
  }

  /** Nothing that could still change was written, and nothing that could not change is
      held back. */
  ghost predicate Prompt(patterns: seq<Text>, text: Text, depth: nat, held: nat, masked: seq<bool>) {
    && AllSettled(patterns, text, depth, |text| - held)
    && held == |masked| <= depth
    && (masked == [] || !masked[0])
  }

  /** A settled byte keeps its cover when one more byte is read, and stays settled. */
  lemma StaysSettled(patterns: seq<Text>, text: Text, b: byte, longest: nat, before: nat, depth: nat, i: nat)
    requires LongestEnding(patterns, text + [b], longest) && longest <= depth <= before + 1
    requires Settled(patterns, text, before, i)
    ensures Covered(patterns, text, i) <==> Covered(patterns, text + [b], i)
    ensures Settled(patterns, text + [b], depth, i)
  {
    CoverStep(patterns, text, b, longest, i);
  }

  lemma ByteRead(patterns: seq<Text>, text: Text, carry: bool, pending: Text, masked: seq<bool>, masking: bool, shown: Text,
                 b: byte, longest: nat, before: nat, depth: nat, newMasked: seq<bool>)
    requires Faithful(text, Cover(patterns, text), carry, pending, masked, masking, shown)
    requires AllSettled(patterns, text, before, |text| - |pending|)
    requires LongestEnding(patterns, text + [b], longest) && longest <= depth <= before + 1
    requires |newMasked| == |masked| + 1
    requires forall k :: 0 <= k < |newMasked| ==>
      newMasked[k] == ((k < |masked| && masked[k]) || k + longest >= |newMasked|)
    ensures Faithful(text + [b], Cover(patterns, text + [b]), carry, pending + [b], newMasked, masking, shown)
    ensures AllSettled(patterns, text + [b], depth, |text| - |pending|)
  {
    var base := |text| - |pending|;
    var marks, newMarks := Cover(patterns, text), Cover(patterns, text + [b]);
    forall i | 0 <= i < base
      ensures marks[i] == newMarks[i]
      ensures Settled(patterns, text + [b], depth, i)
    {
      StaysSettled(patterns, text, b, longest, before, depth, i);
    }
    ShownAgrees(text, marks, text + [b], newMarks, carry, base);
    MarksRead(patterns, text, b, longest, masked, newMasked);
    SuffixExtend(pending, text, b);
  }

  /** The held-back marks after one more byte are the cover of the longer text. */
  lemma MarksRead(patterns: seq<Text>, text: Text, b: byte, longest: nat, masked: seq<bool>, newMasked: seq<bool>)
    requires Suffix(masked, Cover(patterns, text)) && LongestEnding(patterns, text + [b], longest)
    requires |newMasked| == |masked| + 1
    requires forall k :: 0 <= k < |newMasked| ==>
      newMasked[k] == ((k < |masked| && masked[k]) || k + longest >= |newMasked|)
    ensures Suffix(newMasked, Cover(patterns, text + [b]))
  {
    var base, newMarks := |text| - |masked|, Cover(patterns, text + [b]);
    forall k | 0 <= k < |newMasked| ensures newMasked[k] == newMarks[base + k] {
      CoverStep(patterns, text, b, longest, base + k);
    }
  }

  lemma OnePiece(text: Text, marks: seq<bool>, carry: bool, shown: Text, out: Text, i: nat)
    requires i < |text| == |marks| && shown + out == Shown(text, marks, carry, i)
    ensures !marks[i] ==> shown + (out + [text[i]]) == Shown(text, marks, carry, i + 1)
    ensures marks[i] && HiddenBefore(marks, carry, i) ==> shown + out == Shown(text, marks, carry, i + 1)
    ensures marks[i] && !HiddenBefore(marks, carry, i) ==> shown + (out + STARS) == Shown(text, marks, carry, i + 1)
  {
    var piece := Piece(text, marks, carry, i);
    assert shown + (out + piece) == (shown + out) + piece;
    assert out + [] == out;
  }

  /** The loop of emit: collapses the first `n` held-back bytes. */
  method Write(ghost text: Text, ghost marks: seq<bool>, ghost carry: bool, ghost shown: Text,
               pending: Text, masked: seq<bool>, wasMasking: bool, n: nat)
    returns (out: Text, masking: bool)
    requires |text| == |marks| && Faithful(text, marks, carry, pending, masked, wasMasking, shown)
    requires n <= |pending|
    ensures Faithful(text, marks, carry, pending[n..], masked[n..], masking, shown + out)
  {
    ghost var base := |text| - |pending|;
    out, masking := [], wasMasking;
    var i := 0;
    while i < n
      invariant 0 <= i <= n
      invariant masking == HiddenBefore(marks, carry, base + i)
      invariant shown + out == Shown(text, marks, carry, base + i)
    {
      assert masked[i] == marks[base + i] && pending[i] == text[base + i];
      OnePiece(text, marks, carry, shown, out, base + i);
      if masked[i] {
        if !masking {
          out := out + STARS;
        }
        masking := true;
      } else {
        out := out + [pending[i]];
        masking := false;
      }
      i := i + 1;
    }
    Dropped(text, marks, carry, pending, masked, n, masking, shown + out);
  }

  lemma Dropped(text: Text, marks: seq<bool>, carry: bool, pending: Text, masked: seq<bool>, n: nat, masking: bool, shown: Text)
    requires |marks| == |text| && n <= |pending| == |masked| <= |text| && Suffix(pending, text) && Suffix(masked, marks)
    requires masking == HiddenBefore(marks, carry, |text| - |pending| + n)
    requires shown == Shown(text, marks, carry, |text| - |pending| + n)
    ensures Faithful(text, marks, carry, pending[n..], masked[n..], masking, shown)
  {
    SuffixTransitive(pending[n..], pending, text);
    SuffixTransitive(masked[n..], masked, marks);
  }

  /** Marks the last `length` held-back bytes. */
  method Mark(masked0: seq<bool>, length: nat) returns (masked: seq<bool>)
    ensures |masked| == |masked0|
    ensures forall k :: 0 <= k < |masked| ==> masked[k] == (masked0[k] || k + length >= |masked|)
  {
    masked := masked0;
    var i := if |masked| > length then |masked| - length else 0;
    ghost var from := i;
    while i < |masked|
      invariant from <= i <= |masked| == |masked0|
      invariant forall k :: 0 <= k < |masked| ==> masked[k] == (masked0[k] || from <= k < i)
    {
      masked := masked[i := true];
      i := i + 1;
    }
  }

  lemma FreshlyOpened(m: Matcher, paths: seq<Text>, patterns: seq<Text>, masking: bool)
    requires Automaton(m, paths, patterns)
    ensures Tracks(paths, 0, [])
    ensures Faithful([], Cover(patterns, []), masking, [], [], masking, [])
    ensures Prompt(patterns, [], |paths[0]|, 0, [])
  {
  }

  class Stream {
    const matcher: Matcher
    var state: nat
    var pending: Text
    var masked: seq<bool>
    var masking: bool

    ghost const patterns: seq<Text>
    ghost const paths: seq<Text>
    /** The text appended since the last final call, and whether it began in a hidden run. */
    ghost var seen: Text
    ghost var carry: bool
    /** What has been written for `seen`. */
    ghost var shown: Text

    ghost predicate Honest()
      reads this
    {
      Faithful(seen, Cover(patterns, seen), carry, pending, masked, masking, shown)
    }

    ghost predicate Valid()
      reads this
    {
      && Automaton(matcher, paths, patterns)
      && Tracks(paths, state, seen)
      && Honest()
      && Prompt(patterns, seen, |paths[state]|, |pending|, masked)
    }

    constructor (m: Matcher, ghost patterns: seq<Text>)
      requires Recognises(m, patterns)
      ensures Valid() && this.patterns == patterns && matcher == m
      ensures seen == [] && !carry && shown == []
    {
      matcher := m;
      this.patterns := patterns;
      ghost var spelled :| Automaton(m, spelled, patterns);
      paths := spelled;
      state, pending, masked, masking := 0, [], [], false;
      seen, carry, shown := [], false, [];
      FreshlyOpened(m, spelled, patterns, false);
    }

    /** Writes out the first `n` held-back bytes. */
    method Emit(n: nat) returns (out: Text)
      requires Honest() && n <= |pending|
      modifies this`pending, this`masked, this`masking, this`shown
      ensures Honest()
      ensures pending == old(pending)[n..] && masked == old(masked)[n..]
      ensures shown == old(shown) + out
    {
      out, masking := Write(seen, Cover(patterns, seen), carry, shown, pending, masked, masking, n);
      shown := shown + out;
      pending := pending[n..];
      masked := masked[n..];
    }

    /** Moves to the next state, whose match length and depth it reports. */
    method Advance(b: byte) returns (length: nat, depth: nat)
      requires Automaton(matcher, paths, patterns) && Tracks(paths, state, seen)
      modifies this`state
      ensures Tracks(paths, state, seen + [b]) && depth == |paths[state]| <= old(|paths[state]|) + 1
      ensures LongestEnding(patterns, seen + [b], length) && length <= depth
    {
      state := Step(matcher, paths, patterns, seen, state, b);
      LongestOfText(matcher, paths, patterns, state, seen + [b]);
      length, depth := matcher.nodes[state].longest, matcher.nodes[state].depth;
    }

    /** One turn of Append's loop: reads one byte. */
    method Take(b: byte) returns (out: Text)
      requires Valid()
      modifies this`state, this`pending, this`masked, this`masking, this`seen, this`shown
      ensures Valid()
      ensures seen == old(seen) + [b] && shown == old(shown) + out
    {
      var length, depth := Advance(b);
      Hold(b, length, depth, old(|paths[state]|));
      out := Flush(depth);
    }

    /** Holds the byte back and marks what it completes. */
    method Hold(b: byte, length: nat, ghost depth: nat, ghost before: nat)
      requires Honest() && AllSettled(patterns, seen, before, |seen| - |pending|)
      requires LongestEnding(patterns, seen + [b], length) && length <= depth <= before + 1
      modifies this`pending, this`masked, this`seen
      ensures seen == old(seen) + [b]
      ensures Honest() && AllSettled(patterns, seen, depth, |seen| - |pending|)
    {
      pending := pending + [b];
      masked := masked + [false];
      if length > 0 {
        masked := Mark(masked, length);
      }
      ByteRead(patterns, seen, carry, old(pending), old(masked), masking, shown, b, length, before, depth, masked);
      seen := seen + [b];
    }

    /** Writes out every held-back byte that needs no more lookahead. */
    method Flush(depth: nat) returns (out: Text)
      requires Honest() && AllSettled(patterns, seen, depth, |seen| - |pending|)
      modifies this`pending, this`masked, this`masking, this`shown
      ensures shown == old(shown) + out
      ensures Honest() && Prompt(patterns, seen, depth, |pending|, masked)
    {
      var n := ReadyToShow(depth);
      out := Emit(n);
    }

    /** How many held-back bytes need no more lookahead. */
    method ReadyToShow(depth: nat) returns (n: nat)
      requires Honest() && AllSettled(patterns, seen, depth, |seen| - |pending|)
      ensures n <= |pending| <= n + depth || n == |pending|
      ensures n == |pending| || !masked[n]
      ensures AllSettled(patterns, seen, depth, |seen| - |pending| + n)
    {
      n := if |pending| > depth then |pending| - depth else 0;
      ghost var base := |seen| - |pending|;
      while n < |pending| && masked[n]
        invariant n <= |pending| <= n + depth
        invariant AllSettled(patterns, seen, depth, base + n)
      {
        assert Covered(patterns, seen, base + n);
        n := n + 1;
      }
    }

    /** Reads a chunk; a final one also resolves everything still held back. Fewer bytes
        stay held back than the longest pattern has. */
    method Append(p: Text, final: bool) returns (out: Text)
      requires Valid()
      modifies this
      ensures Valid()
      ensures !final ==> seen == old(seen) + p && carry == old(carry) && shown == old(shown) + out
      ensures !final ==> pending == [] || exists q :: q in patterns && |pending| < |q|
      ensures final ==> old(shown) + out == Redacted(patterns, old(seen) + p, old(carry))
      ensures final ==> pending == [] && seen == [] && shown == []
      ensures final ==>
        carry == HiddenBefore(Cover(patterns, old(seen) + p), old(carry), |old(seen) + p|)
    {
      out := TakeAll(p);
      if final {
        var rest := Resolve();
        Associative(old(shown), out, rest);
        out := out + rest;
      } else {
        HeldBack(matcher, paths, patterns, state, seen, carry, pending, masked, masking, shown);
      }
    }

    method TakeAll(p: Text) returns (out: Text)
      requires Valid()
      modifies this`state, this`pending, this`masked, this`masking, this`seen, this`shown
      ensures Valid()
      ensures seen == old(seen) + p && shown == old(shown) + out
    {
      out := [];
      var i := 0;
      while i < |p|
        invariant 0 <= i <= |p|
        invariant Valid()
        invariant seen == old(seen) + p[..i]
        invariant shown == old(shown) + out
      {
        OneMoreByte(old(seen), p, i);
        var more := Take(p[i]);
        Associative(old(shown), out, more);
        out := out + more;
        i := i + 1;
      }
      assert p[..|p|] == p;
    }

    /** The end of a final Append: nothing is held back any more. */
    method Resolve() returns (out: Text)
      requires Valid()
      modifies this
      ensures Valid()
      ensures old(shown) + out == Redacted(patterns, old(seen), old(carry))
      ensures pending == [] && seen == [] && shown == []
      ensures carry == HiddenBefore(Cover(patterns, old(seen)), old(carry), |old(seen)|)
    {
      out := Emit(|pending|);
      state := 0;
      seen, carry, shown := [], masking, [];
      FreshlyOpened(matcher, paths, patterns, masking);
    }
  }

  lemma OneMoreByte(seen: Text, p: Text, i: nat)
    requires i < |p|
    ensures seen + p[..i] + [p[i]] == seen + p[..i + 1]
  {
  }

  lemma Associative(a: Text, b: Text, c: Text)
    ensures a + b + c == a + (b + c)
  {
  }

  /** Held-back bytes end a proper beginning of some pattern, so they are fewer than it has. */
  lemma HeldBack(m: Matcher, paths: seq<Text>, patterns: seq<Text>, state: nat,
                 text: Text, carry: bool, pending: Text, masked: seq<bool>, masking: bool, shown: Text)
    requires Automaton(m, paths, patterns) && Tracks(paths, state, text)
    requires Faithful(text, Cover(patterns, text), carry, pending, masked, masking, shown)
    requires Prompt(patterns, text, |paths[state]|, |pending|, masked)
    ensures pending == [] || exists p :: p in patterns && |pending| < |p|
    ensures pending == [] || exists p :: p in patterns && paths[state] <= p && paths[state] != p && Suffix(pending, paths[state])
  {
    if pending != [] {
      var path := paths[state];
      SuffixOfSuffix(pending, path, text);
      assert Begins(path, patterns);
      var p :| p in patterns && path <= p;
      var first := |text| - |pending|;
      assert masked[0] == Cover(patterns, text)[first];
      if p == path {
        EndIsCovered(patterns, text, p, first);
      }
    }
  }

  lemma EndIsCovered(patterns: seq<Text>, text: Text, p: Text, i: nat)
    requires p in patterns && p != [] && Suffix(p, text) && |text| - |p| <= i < |text|
    ensures Covered(patterns, text, i)
  {
    assert OccursAt(p, text, |text| - |p|);
  }

  function Join(chunks: seq<Text>): Text {
    if chunks == [] then [] else Join(chunks[..|chunks| - 1]) + chunks[|chunks| - 1]
  }

  /** However a text is cut into chunks, only the last one final, the output is the
      redacted text. */
  method RedactChunks(patterns: seq<Text>, chunks: seq<Text>, last: Text) returns (out: Text)
    ensures out == Redacted(patterns, Join(chunks) + last, false)
  {
    var m := New(patterns);
    var stream := new Stream(m, patterns);
    out := [];
    var i := 0;
    while i < |chunks|
      invariant 0 <= i <= |chunks|
      invariant stream.Valid() && stream.patterns == patterns && fresh(stream)
      invariant stream.seen == Join(chunks[..i]) && !stream.carry
      invariant stream.shown == out
    {
      assert chunks[..i + 1][..i] == chunks[..i];
      var more := stream.Append(chunks[i], false);
      out := out + more;
      i := i + 1;
    }
    assert chunks[..|chunks|] == chunks;
    var more := stream.Append(last, true);
    out := out + more;
  }

  method Mask(m: Matcher, ghost patterns: seq<Text>, text: Text) returns (out: Text)
    requires Recognises(m, patterns)
    ensures out == Redacted(patterns, text, false)
  {
    var stream := new Stream(m, patterns);
    out := stream.Append(text, true);
    assert [] + text == text;
  }
}
