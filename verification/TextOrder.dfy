/** Go's `<` on strings. */
module TextOrder {
  import opened Bytes

  predicate Less(a: Text, b: Text) {
    if b == [] then false
    else if a == [] then true
    else if a[0] != b[0] then a[0] < b[0]
    else Less(a[1..], b[1..])
  }

  lemma {:induction false} LessTransitive(a: Text, b: Text, c: Text)
    requires Less(a, b) && Less(b, c)
    ensures Less(a, c)
    decreases |a|
  {
    if a != [] && a[0] == b[0] == c[0] {
      LessTransitive(a[1..], b[1..], c[1..]);
    }
  }

  lemma {:induction false} LessTotal(a: Text, b: Text)
    ensures !(Less(a, b) && Less(b, a))
    ensures a != b <==> Less(a, b) || Less(b, a)
    decreases |a|
  {
    if a != [] && b != [] && a[0] == b[0] {
      LessTotal(a[1..], b[1..]);
      assert a == [a[0]] + a[1..] && b == [b[0]] + b[1..];
    }
  }

  /** `a` is smaller than `b` at the first place where they differ, or is a proper beginning of it. */
  ghost predicate SmallerAtFirstDifference(a: Text, b: Text) {
    exists k :: IsFirstDifference(a, b, k)
  }

  ghost predicate IsFirstDifference(a: Text, b: Text, k: nat) {
    k <= |a| && k < |b| && (forall i :: 0 <= i < k ==> a[i] == b[i]) && (k < |a| ==> a[k] < b[k])
  }

  lemma {:induction false} LessAt(a: Text, b: Text, k: nat)
    requires IsFirstDifference(a, b, k)
    ensures Less(a, b)
    decreases |a|
  {
    if k > 0 {
      assert a[0] == b[0];
      LessAt(a[1..], b[1..], k - 1);
    }
  }

  lemma {:induction false} LessDiffers(a: Text, b: Text) returns (k: nat)
    requires Less(a, b)
    ensures IsFirstDifference(a, b, k)
    decreases |a|
  {
    k := 0;
    if a != [] && a[0] == b[0] {
      var j := LessDiffers(a[1..], b[1..]);
      k := j + 1;
      forall i | 0 <= i < k ensures a[i] == b[i] {
        assert i > 0 ==> a[1..][i - 1] == b[1..][i - 1];
      }
    }
  }

  /** The order compares at the first difference. */
  lemma LessMeans(a: Text, b: Text)
    ensures Less(a, b) <==> SmallerAtFirstDifference(a, b)
  {
    if Less(a, b) {
      var k := LessDiffers(a, b);
    }
    if k :| IsFirstDifference(a, b, k) {
      LessAt(a, b, k);
    }
  }
}
