/** What redaction means, independently of how the stream computes it. */
module RedactSpec {
  import opened Bytes

  const STARS: Text := [42, 42, 42]

  ghost predicate OccursAt(p: Text, text: Text, s: nat) {
    p != [] && s + |p| <= |text| && text[s..s + |p|] == p
  }

  /** Byte `i` lies inside an occurrence of a non-empty pattern. */
  ghost predicate Covered(patterns: seq<Text>, text: Text, i: nat) {
    exists p, s: nat :: p in patterns && OccursAt(p, text, s) && s <= i < s + |p|
  }

  /** The marks of a text: one per byte, set where the byte is covered. */
  ghost function Cover(patterns: seq<Text>, text: Text): (marks: seq<bool>)
    ensures |marks| == |text|
  {
    seq(|text|, i requires 0 <= i < |text| => Covered(patterns, text, i))
  }

  /** Whether the byte before position `i` is hidden; `carry` answers for position 0. */
  ghost predicate HiddenBefore(marks: seq<bool>, carry: bool, i: nat)
    requires i <= |marks|
  {
    if i == 0 then carry else marks[i - 1]
  }

  /** Visible bytes stay, the first byte of a hidden run becomes the stars, the rest vanish. */
  ghost function Piece(text: Text, marks: seq<bool>, carry: bool, i: nat): Text
    requires i < |text| == |marks|
  {
    if !marks[i] then [text[i]]
    else if HiddenBefore(marks, carry, i) then []
    else STARS
  }

  ghost function Shown(text: Text, marks: seq<bool>, carry: bool, n: nat): Text
    requires n <= |text| == |marks|
  {
    if n == 0 then [] else Shown(text, marks, carry, n - 1) + Piece(text, marks, carry, n - 1)
  }

  /** The whole text with every maximal hidden run shown as one group of stars. */
  ghost function Redacted(patterns: seq<Text>, text: Text, carry: bool): Text {
    Shown(text, Cover(patterns, text), carry, |text|)
  }

  /** Reading on never uncovers a byte, and covers no byte before the last match. */
  lemma CoverGrows(patterns: seq<Text>, text: Text, b: byte, i: nat)
    requires i < |text|
    ensures Covered(patterns, text, i) ==> Covered(patterns, text + [b], i)
  {
    if Covered(patterns, text, i) {
      var p, s: nat :| p in patterns && OccursAt(p, text, s) && s <= i < s + |p|;
      assert OccursAt(p, text + [b], s);
    }
  }

  /** One more byte covers exactly the bytes of the longest pattern it completes. */
  lemma CoverStep(patterns: seq<Text>, text: Text, b: byte, longest: nat, i: nat)
    requires longest == 0 || exists p :: p in patterns && |p| == longest && Suffix(p, text + [b])
    requires forall p :: p in patterns && Suffix(p, text + [b]) ==> |p| <= longest
    requires i <= |text|
    ensures Covered(patterns, text + [b], i) <==>
            (i < |text| && Covered(patterns, text, i)) || i + longest > |text|
  {
    var more := text + [b];
    if i < |text| {
      CoverGrows(patterns, text, b, i);
    }
    if i + longest > |text| {
      assert longest != 0;
      var p :| p in patterns && |p| == longest && Suffix(p, more);
      assert OccursAt(p, more, |more| - longest);
    }
    if Covered(patterns, more, i) {
      var p, s: nat :| p in patterns && OccursAt(p, more, s) && s <= i < s + |p|;
      if s + |p| <= |text| {
        assert text[s..s + |p|] == more[s..s + |p|];
        assert OccursAt(p, text, s);
      } else {
        assert Suffix(p, more);
      }
    }
  }

  /** What was shown depends only on the bytes shown and their marks. */
  lemma {:induction false} ShownAgrees(text: Text, marks: seq<bool>, more: Text, moreMarks: seq<bool>, carry: bool, n: nat)
    requires n <= |text| == |marks| && n <= |more| == |moreMarks|
    requires text[..n] == more[..n] && marks[..n] == moreMarks[..n]
    ensures Shown(text, marks, carry, n) == Shown(more, moreMarks, carry, n)
    ensures HiddenBefore(marks, carry, n) == HiddenBefore(moreMarks, carry, n)
  {
    if n != 0 {
      assert forall i :: 0 <= i < n ==> text[..n][i] == text[i] && more[..n][i] == more[i];
      assert forall i :: 0 <= i < n ==> marks[..n][i] == marks[i] && moreMarks[..n][i] == moreMarks[i];
      assert text[..n - 1] == text[..n][..n - 1] && more[..n - 1] == more[..n][..n - 1];
      assert marks[..n - 1] == marks[..n][..n - 1] && moreMarks[..n - 1] == moreMarks[..n][..n - 1];
      ShownAgrees(text, marks, more, moreMarks, carry, n - 1);
    }
  }
}
