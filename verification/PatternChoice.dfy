/** SelectPattern of internal/git/refs.go, and the two callers that share it: ref rules
    (internal/repo/rules.go) and pipeline targets (internal/ci/pipeline.go). */
module PatternChoice {
  import opened Bytes
  import opened TextOrder
  import opened Wildcards

  function Specificity(pattern: Text): int {
    |pattern| - Stars(pattern)
  }

  predicate MoreSpecific(a: Text, b: Text) {
    var sa, sb := Specificity(a), Specificity(b);
    if sa != sb then sa > sb
    else if |a| != |b| then |a| < |b|
    else Less(a, b)
  }

  /** `MoreSpecific` is a strict total order, so ties are impossible. */
  lemma MoreSpecificIsStrictTotalOrder(a: Text, b: Text, c: Text)
    ensures !MoreSpecific(a, a)
    ensures MoreSpecific(a, b) && MoreSpecific(b, c) ==> MoreSpecific(a, c)
    ensures a != b <==> MoreSpecific(a, b) || MoreSpecific(b, a)
    ensures !(MoreSpecific(a, b) && MoreSpecific(b, a))
  {
    LessTotal(a, a);
    LessTotal(a, b);
    if Less(a, b) && Less(b, c) {
      LessTransitive(a, b, c);
    }
  }

  /** How many bytes of the pattern are not stars. */
  ghost function Literals(pattern: Text): int {
    |pattern| - multiset(pattern)[STAR]
  }

  /** More literal bytes win, then fewer bytes, then the smaller text. */
  ghost predicate Beats(a: Text, b: Text) {
    || Literals(a) > Literals(b)
    || (Literals(a) == Literals(b) && |a| < |b|)
    || (Literals(a) == Literals(b) && |a| == |b| && SmallerAtFirstDifference(a, b))
  }

  lemma {:induction false} StarsAreCounted(pattern: Text)
    ensures Stars(pattern) == multiset(pattern)[STAR]
  {
    if pattern != [] {
      assert pattern == [pattern[0]] + pattern[1..];
      StarsAreCounted(pattern[1..]);
    }
  }

  lemma MoreSpecificMeans(a: Text, b: Text)
    ensures MoreSpecific(a, b) <==> Beats(a, b)
  {
    StarsAreCounted(a);
    StarsAreCounted(b);
    LessMeans(a, b);
  }

  /** What the best match is preferred for: it is the name itself without a star, or no match
      is, and it beats each of them. */
  ghost predicate Outranks(best: Text, name: Text, other: Text) {
    (STAR !in best && best == name) || (STAR in best && STAR in other && Beats(best, other))
  }

  ghost predicate OutranksAll(patterns: seq<Text>, name: Text, best: Text) {
    forall k :: 0 <= k < |patterns| && patterns[k] != best && Matches(patterns[k], name) ==> Outranks(best, name, patterns[k])
  }

  lemma BestOutranks(patterns: seq<Text>, name: Text, best: Text)
    requires IsBest(Listed(patterns), name, best)
    ensures OutranksAll(patterns, name, best)
  {
    forall k | 0 <= k < |patterns| && patterns[k] != best && Matches(patterns[k], name) ensures Outranks(best, name, patterns[k]) {
      var p := patterns[k];
      assert p in Listed(patterns);
      MoreSpecificMeans(best, p);
      if Exact(best) {
        ExactMatch(best, name);
      } else {
        assert Preferred(best, p);
      }
    }
  }

  predicate Exact(pattern: Text) {
    STAR !in pattern
  }

  /** A pattern without a wildcard beats every pattern with one. */
  predicate Preferred(a: Text, b: Text) {
    if Exact(a) != Exact(b) then Exact(a) else MoreSpecific(a, b)
  }

  /** `best` matches and is preferred to every other pattern that matches. */
  ghost predicate IsBest(patterns: set<Text>, name: Text, best: Text) {
    && best in patterns && Matches(best, name)
    && (forall p :: p in patterns && p != best && Matches(p, name) ==> Preferred(best, p))
  }

  /** There is at most one best pattern, whatever the order they are listed in. */
  lemma BestIsUnique(patterns: set<Text>, name: Text, a: Text, b: Text)
    requires IsBest(patterns, name, a) && IsBest(patterns, name, b)
    ensures a == b
  {
    MoreSpecificIsStrictTotalOrder(a, b, a);
  }

  ghost function Listed(patterns: seq<Text>): set<Text> {
    set p | p in patterns
  }

  /** The index of the best match, the first one listed if it is listed twice. */
  method SelectPattern(patterns: seq<Text>, name: Text) returns (best: int)
    ensures -1 <= best < |patterns|
    ensures best == -1 <==> forall p :: p in patterns ==> !Matches(p, name)
    ensures best >= 0 ==> IsBest(Listed(patterns), name, patterns[best])
    ensures best >= 0 ==> Matches(patterns[best], name)
    ensures best >= 0 ==> OutranksAll(patterns, name, patterns[best])
    ensures best >= 0 ==> patterns[best] !in patterns[..best]
  {
    best := -1;
    var i := 0;
    while i < |patterns|
      invariant 0 <= i <= |patterns|
      invariant -1 <= best < i
      invariant forall k :: 0 <= k < i && Matches(patterns[k], name) ==> !Exact(patterns[k])
      invariant best == -1 ==> forall k :: 0 <= k < i ==> !Matches(patterns[k], name)
      invariant best >= 0 ==> Matches(patterns[best], name)
      invariant best >= 0 ==> forall k :: 0 <= k < i && Matches(patterns[k], name) && patterns[k] != patterns[best] ==>
        MoreSpecific(patterns[best], patterns[k])
      invariant best >= 0 ==> forall k :: 0 <= k < best ==> patterns[k] != patterns[best]
    {
      var pattern := patterns[i];
      var matches := MatchPattern(pattern, name);
      if matches {
        if STAR !in pattern {
          ExactIsBest(patterns, name, i);
          BestOutranks(patterns, name, pattern);
          return i;
        }
        if best == -1 || MoreSpecific(pattern, patterns[best]) {
          forall k | 0 <= k < i && best >= 0 && Matches(patterns[k], name)
            ensures MoreSpecific(pattern, patterns[k])
          {
            MoreSpecificIsStrictTotalOrder(pattern, patterns[best], patterns[k]);
          }
          forall k | 0 <= k < i ensures patterns[k] != pattern {
            MoreSpecificIsStrictTotalOrder(pattern, pattern, pattern);
          }
          best := i;
        } else {
          MoreSpecificIsStrictTotalOrder(pattern, patterns[best], pattern);
        }
      }
      i := i + 1;
    }
    if best >= 0 {
      BestOutranks(patterns, name, patterns[best]);
    }
  }

  lemma ExactIsBest(patterns: seq<Text>, name: Text, i: nat)
    requires i < |patterns| && Exact(patterns[i]) && Matches(patterns[i], name)
    ensures IsBest(Listed(patterns), name, patterns[i])
  {
    forall p | p in patterns && p != patterns[i] && Matches(p, name) ensures Preferred(patterns[i], p) {
      ExactMatch(patterns[i], name);
      if Exact(p) {
        ExactMatch(p, name);
      }
    }
  }
}
