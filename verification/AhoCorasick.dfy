/** The matcher of internal/redact: a trie of the patterns whose failure links and
    match lengths are filled in by one breadth-first pass. */
module AhoCorasick {
  import opened Bytes

  datatype Node = Node(next: map<byte, nat>, fail: nat, depth: nat, longest: nat)

  /** Immutable once built, so one matcher serves any number of streams. */
  datatype Matcher = Matcher(nodes: seq<Node>)

  function Max(a: nat, b: nat): nat {
    if a > b then a else b
  }

  // ----- what a finished matcher means -----

  /** `s` begins some pattern; the empty text always does. */
  ghost predicate Begins(s: Text, patterns: seq<Text>) {
    s == [] || exists p :: p in patterns && s <= p
  }

  /** `n` is the length of the longest non-empty pattern that ends `s`, or 0. */
  ghost predicate LongestEnding(patterns: seq<Text>, s: Text, n: nat) {
    && (n == 0 || exists p :: p in patterns && |p| == n && Suffix(p, s))
    && (forall p {:trigger Suffix(p, s)} :: p in patterns && Suffix(p, s) ==> |p| <= n)
  }

  /** `paths[i]` spells the way from the root to node `i`. */
  ghost predicate Trie(nodes: seq<Node>, paths: seq<Text>) {
    && |nodes| == |paths| > 0
    && paths[0] == []
    && (forall i, j :: 0 <= i < j < |paths| ==> paths[i] != paths[j])
    && (forall i :: 0 <= i < |nodes| ==> nodes[i].depth == |paths[i]|)
    && (forall i, b :: 0 <= i < |nodes| && b in nodes[i].next ==>
          nodes[i].next[b] < |nodes| && paths[nodes[i].next[b]] == paths[i] + [b])
    && (forall j :: 0 < j < |nodes| ==> HasParent(nodes, paths, j))
  }

  ghost predicate HasParent(nodes: seq<Node>, paths: seq<Text>, j: nat)
    requires |nodes| == |paths| && j < |nodes|
  {
    exists i :: Edge(nodes, paths, i, j)
  }

  ghost predicate Edge(nodes: seq<Node>, paths: seq<Text>, i: nat, j: nat)
    requires |nodes| == |paths| && j < |nodes|
  {
    i < |nodes| && paths[j] != [] &&
    var b := paths[j][|paths[j]| - 1];
    b in nodes[i].next && nodes[i].next[b] == j
  }

  /** The trie holds exactly the beginnings of the patterns. */
  ghost predicate Holds(paths: seq<Text>, patterns: seq<Text>) {
    && (forall i {:trigger Begins(paths[i], patterns)} :: 0 <= i < |paths| ==> Begins(paths[i], patterns))
    && (forall s {:trigger Begins(s, patterns)} :: Begins(s, patterns) ==> s in paths)
  }

  /** The failure link of `i` is its longest proper suffix that is a trie path. */
  ghost predicate FailIsLongestSuffix(nodes: seq<Node>, paths: seq<Text>, i: nat)
    requires |nodes| == |paths| && i < |nodes|
  {
    var f := nodes[i].fail;
    && f < |nodes|
    && ProperSuffix(paths[f], paths[i])
    && (forall g {:trigger ProperSuffix(paths[g], paths[i])} ::
          0 <= g < |paths| && ProperSuffix(paths[g], paths[i]) ==> |paths[g]| <= |paths[f]|)
  }

  ghost predicate Linked(nodes: seq<Node>, paths: seq<Text>, patterns: seq<Text>, i: nat)
    requires |nodes| == |paths| && i < |nodes|
  {
    && (i == 0 ==> nodes[i].fail == 0)
    && (i != 0 ==> FailIsLongestSuffix(nodes, paths, i))
    && LongestEnding(patterns, paths[i], nodes[i].longest)
  }

  ghost predicate Automaton(m: Matcher, paths: seq<Text>, patterns: seq<Text>) {
    && Trie(m.nodes, paths)
    && Holds(paths, patterns)
    && (forall i {:trigger Linked(m.nodes, paths, patterns, i)} :: 0 <= i < |m.nodes| ==> Linked(m.nodes, paths, patterns, i))
  }

  /** `m` was built from `patterns`. */
  ghost predicate Recognises(m: Matcher, patterns: seq<Text>) {
    exists paths :: Automaton(m, paths, patterns)
  }

  // ----- facts about tries -----

  lemma EdgeIsUnique(nodes: seq<Node>, paths: seq<Text>, i: nat, b: byte, j: nat)
    requires Trie(nodes, paths) && i < |nodes| && j < |nodes|
    requires paths[j] == paths[i] + [b]
    ensures b in nodes[i].next && nodes[i].next[b] == j
  {
    assert j != 0 && HasParent(nodes, paths, j);
    var k: nat :| Edge(nodes, paths, k, j);
    assert paths[j] == paths[k] + [b];
    assert paths[k] == paths[j][..|paths[j]| - 1] == paths[i];
  }

  lemma RootIsEmpty(nodes: seq<Node>, paths: seq<Text>, i: nat)
    requires Trie(nodes, paths) && i < |nodes|
    ensures paths[i] == [] <==> i == 0
  {
  }

  lemma PathIndex(paths: seq<Text>, s: Text) returns (i: nat)
    requires s in paths
    ensures i < |paths| && paths[i] == s
  {
    i :| i < |paths| && paths[i] == s;
  }

  /** Trie paths are closed under dropping the last byte. */
  lemma ParentPath(nodes: seq<Node>, paths: seq<Text>, s: Text, b: byte) returns (i: nat)
    requires Trie(nodes, paths) && s + [b] in paths
    ensures i < |paths| && paths[i] == s && b in nodes[i].next
    ensures paths[nodes[i].next[b]] == s + [b]
  {
    var j := PathIndex(paths, s + [b]);
    assert j != 0 && HasParent(nodes, paths, j);
    i :| Edge(nodes, paths, i, j);
    assert paths[i] + [b] == s + [b];
    assert paths[i] == (s + [b])[..|s|] == s;
  }

  /** Failure links and match lengths play no part in the shape of the trie. */
  lemma SameEdges(nodes: seq<Node>, relinked: seq<Node>, paths: seq<Text>)
    requires Trie(nodes, paths) && |relinked| == |nodes|
    requires forall i :: 0 <= i < |nodes| ==>
      relinked[i].next == nodes[i].next && relinked[i].depth == nodes[i].depth
    ensures Trie(relinked, paths)
  {
    forall j | 0 < j < |nodes| ensures HasParent(relinked, paths, j) {
      assert HasParent(nodes, paths, j);
      var i: nat :| Edge(nodes, paths, i, j);
      assert Edge(relinked, paths, i, j);
    }
  }

  lemma BeginsMonotone(s: Text, a: seq<Text>, p: Text)
    ensures Begins(s, a) ==> Begins(s, a + [p])
    ensures Begins(s, a + [p]) <==> Begins(s, a) || s <= p
  {
    if Begins(s, a) && s != [] {
      var q :| q in a && s <= q;
      assert q in a + [p];
    }
    if s <= p {
      assert p in a + [p];
    }
  }

  // ----- planting the patterns -----

  /** A trie of `patterns` before the breadth-first pass. */
  ghost predicate Planted(nodes: seq<Node>, paths: seq<Text>, patterns: seq<Text>) {
    && Trie(nodes, paths)
    && Holds(paths, patterns)
    && Unlinked(nodes, paths, patterns)
  }

  ghost predicate Unlinked(nodes: seq<Node>, paths: seq<Text>, patterns: seq<Text>)
    requires |nodes| == |paths|
  {
    forall i :: 0 <= i < |nodes| ==> AsPlanted(nodes[i], paths[i], patterns)
  }

  /** Appending the node of `paths[at] + [b]` keeps the trie a trie. */
  lemma Grow(nodes: seq<Node>, paths: seq<Text>, at: nat, b: byte,
             grown: seq<Node>, spelled: seq<Text>)
    requires Trie(nodes, paths) && at < |nodes| && b !in nodes[at].next
    requires spelled == paths + [paths[at] + [b]]
    requires grown == nodes[at := nodes[at].(next := nodes[at].next[b := |nodes|])]
                      + [Node(map[], 0, nodes[at].depth + 1, 0)]
    ensures paths[at] + [b] !in paths
    ensures Trie(grown, spelled)
  {
    if paths[at] + [b] in paths {
      var j := PathIndex(paths, paths[at] + [b]);
      EdgeIsUnique(nodes, paths, at, b, j);
    }
    GrownEdges(nodes, paths, at, b, grown, spelled);
    forall j | 0 < j < |grown| ensures HasParent(grown, spelled, j) {
      GrownParent(nodes, paths, at, b, grown, spelled, j);
    }
  }

  lemma GrownEdges(nodes: seq<Node>, paths: seq<Text>, at: nat, b: byte, grown: seq<Node>, spelled: seq<Text>)
    requires Trie(nodes, paths) && at < |nodes| && b !in nodes[at].next
    requires spelled == paths + [paths[at] + [b]]
    requires grown == nodes[at := nodes[at].(next := nodes[at].next[b := |nodes|])]
                      + [Node(map[], 0, nodes[at].depth + 1, 0)]
    ensures forall i, c :: 0 <= i < |grown| && c in grown[i].next ==>
              grown[i].next[c] < |grown| && spelled[grown[i].next[c]] == spelled[i] + [c]
  {
    forall i, c | 0 <= i < |grown| && c in grown[i].next
      ensures grown[i].next[c] < |grown| && spelled[grown[i].next[c]] == spelled[i] + [c]
    {
      if i < |nodes| && !(i == at && c == b) {
        assert c in nodes[i].next;
      }
    }
  }

  lemma GrownParent(nodes: seq<Node>, paths: seq<Text>, at: nat, b: byte, grown: seq<Node>, spelled: seq<Text>, j: nat)
    requires Trie(nodes, paths) && at < |nodes| && b !in nodes[at].next && 0 < j < |grown|
    requires spelled == paths + [paths[at] + [b]]
    requires grown == nodes[at := nodes[at].(next := nodes[at].next[b := |nodes|])]
                      + [Node(map[], 0, nodes[at].depth + 1, 0)]
    ensures HasParent(grown, spelled, j)
  {
    if j < |nodes| {
      assert HasParent(nodes, paths, j);
      var i :| Edge(nodes, paths, i, j);
      assert Edge(grown, spelled, i, j);
    } else {
      assert Edge(grown, spelled, at, j);
    }
  }

  /** The first `i` bytes of `p` are planted on top of `patterns`, ending at node `at`. */
  ghost predicate Planting(nodes: seq<Node>, paths: seq<Text>, patterns: seq<Text>, p: Text, i: nat, at: nat) {
    && i <= |p|
    && Trie(nodes, paths)
    && at < |nodes| && paths[at] == p[..i]
    && (forall k :: 0 <= k < |paths| ==> Begins(paths[k], patterns + [p]))
    && (forall s :: Begins(s, patterns) || s <= p[..i] ==> s in paths)
    && Unlinked(nodes, paths, patterns)
  }

  lemma PlantedByte(nodes: seq<Node>, paths: seq<Text>, patterns: seq<Text>, p: Text, i: nat, at: nat,
                    grown: seq<Node>, spelled: seq<Text>, next: nat)
    requires Planting(nodes, paths, patterns, p, i, at) && i < |p|
    requires Trie(grown, spelled) && paths <= spelled && Unlinked(grown, spelled, patterns)
    requires next < |grown| && spelled[next] == p[..i] + [p[i]]
    requires spelled == paths || spelled == paths + [p[..i] + [p[i]]]
    ensures Planting(grown, spelled, patterns, p, i + 1, next)
  {
    assert p[..i + 1] == p[..i] + [p[i]];
    BeginsMonotone(p[..i + 1], patterns, p);
    forall s | Begins(s, patterns) || s <= p[..i + 1] ensures s in spelled {
      if Begins(s, patterns) || |s| <= i {
        assert |s| <= i && s <= p[..i + 1] ==> s <= p[..i];
        assert s in paths;
      } else {
        assert s == spelled[next];
      }
    }
  }

  lemma GrownUnlinked(nodes: seq<Node>, paths: seq<Text>, patterns: seq<Text>, at: nat, b: byte,
                      grown: seq<Node>, spelled: seq<Text>)
    requires Trie(nodes, paths) && at < |nodes| && b !in nodes[at].next
    requires Unlinked(nodes, paths, patterns)
    requires forall s :: Begins(s, patterns) ==> s in paths
    requires spelled == paths + [paths[at] + [b]]
    requires grown == nodes[at := nodes[at].(next := nodes[at].next[b := |nodes|])]
                      + [Node(map[], 0, nodes[at].depth + 1, 0)]
    ensures Trie(grown, spelled) && Unlinked(grown, spelled, patterns)
  {
    Grow(nodes, paths, at, b, grown, spelled);
    var s := paths[at] + [b];
    assert s in patterns ==> Begins(s, patterns);
  }

  method Plant(nodes0: seq<Node>, ghost paths0: seq<Text>, ghost patterns: seq<Text>, p: Text)
    returns (nodes: seq<Node>, ghost paths: seq<Text>)
    requires Planted(nodes0, paths0, patterns)
    ensures Planted(nodes, paths, patterns + [p])
  {
    nodes, paths := nodes0, paths0;
    forall s { BeginsMonotone(s, patterns, p); }
    var at: nat := 0;
    var i: nat := 0;
    while i < |p|
      invariant Planting(nodes, paths, patterns, p, i, at)
    {
      ghost var nodesBefore, pathsBefore := nodes, paths;
      var next;
      if p[i] in nodes[at].next {
        next := nodes[at].next[p[i]];
      } else {
        next := |nodes|;
        var depth := nodes[at].depth + 1;
        nodes := nodes + [Node(map[], 0, depth, 0)];
        nodes := nodes[at := nodes[at].(next := nodes[at].next[p[i] := next])];
        paths := paths + [paths[at] + [p[i]]];
        GrownUnlinked(nodesBefore, pathsBefore, patterns, at, p[i], nodes, paths);
      }
      PlantedByte(nodesBefore, pathsBefore, patterns, p, i, at, nodes, paths, next);
      at := next;
      i := i + 1;
    }
    PlantedAll(nodes, paths, patterns, p, at);
    nodes := nodes[at := nodes[at].(longest := Max(nodes[at].longest, |p|))];
  }

  lemma PlantedAll(nodes: seq<Node>, paths: seq<Text>, patterns: seq<Text>, p: Text, at: nat)
    requires Planting(nodes, paths, patterns, p, |p|, at)
    ensures var longest := Max(nodes[at].longest, |p|);
            Planted(nodes[at := nodes[at].(longest := longest)], paths, patterns + [p])
  {
    assert p[..|p|] == p;
    forall s { BeginsMonotone(s, patterns, p); }
    var longest := Max(nodes[at].longest, |p|);
    var marked := nodes[at := nodes[at].(longest := longest)];
    SameEdges(nodes, marked, paths);
    forall i | 0 <= i < |marked|
      ensures AsPlanted(marked[i], paths[i], patterns + [p])
    {
      assert i != at ==> paths[i] != p;
    }
  }

  // ----- the breadth-first pass -----

  ghost predicate IsChild(paths: seq<Text>, i: nat, j: nat)
    requires i < |paths| && j < |paths|
  {
    |paths[j]| == |paths[i]| + 1 && paths[i] <= paths[j]
  }

  /** Node `j` is a child of the root, or of one of the first `expanded` queue entries. */
  ghost predicate Reached(paths: seq<Text>, queue: seq<nat>, expanded: nat, j: nat)
    requires j < |paths| && expanded <= |queue|
    requires forall k :: 0 <= k < |queue| ==> queue[k] < |paths|
  {
    |paths[j]| == 1 || exists k :: 0 <= k < expanded && IsChild(paths, queue[k], j)
  }

  /** Queue entries are distinct non-root nodes in order of depth. */
  ghost predicate Orderly(paths: seq<Text>, queue: seq<nat>) {
    && (forall k :: 0 <= k < |queue| ==> 0 < queue[k] < |paths|)
    && (forall k, l :: 0 <= k < l < |queue| ==> queue[k] != queue[l])
    && (forall k, l :: 0 <= k < l < |queue| ==> |paths[queue[k]]| <= |paths[queue[l]]|)
  }

  /** Between two turns of the outer loop the queue holds exactly the reached nodes. */
  ghost predicate Frontier(paths: seq<Text>, queue: seq<nat>, expanded: nat) {
    && Orderly(paths, queue)
    && expanded <= |queue|
    && (forall j :: 0 < j < |paths| ==> (j in queue <==> Reached(paths, queue, expanded, j)))
  }

  lemma {:induction false} ShallowIsQueued(nodes: seq<Node>, paths: seq<Text>, queue: seq<nat>, expanded: nat, j: nat)
    requires Trie(nodes, paths) && Frontier(paths, queue, expanded)
    requires 0 < j < |paths|
    requires expanded == |queue| || |paths[j]| <= |paths[queue[expanded]]|
    ensures j in queue
    decreases |paths[j]|
  {
    if |paths[j]| != 1 {
      var w := paths[j];
      assert w == w[..|w| - 1] + [w[|w| - 1]];
      var i := ParentPath(nodes, paths, w[..|w| - 1], w[|w| - 1]);
      ShallowIsQueued(nodes, paths, queue, expanded, i);
      var k :| 0 <= k < |queue| && queue[k] == i;
      assert IsChild(paths, queue[k], j);
      assert Reached(paths, queue, expanded, j);
    }
  }

  lemma {:induction false} DistinctFits(queue: seq<nat>, n: nat)
    requires forall k :: 0 <= k < |queue| ==> queue[k] < n
    requires forall k, l :: 0 <= k < l < |queue| ==> queue[k] != queue[l]
    ensures |queue| <= n
    decreases n
  {
    if queue != [] {
      assert 0 <= queue[0] < n;
    }
    if n == 0 {
    } else if n - 1 in queue {
      var k :| 0 <= k < |queue| && queue[k] == n - 1;
      DistinctFits(queue[..k] + queue[k + 1..], n - 1);
    } else {
      DistinctFits(queue, n - 1);
    }
  }

  /** A proper suffix of `w + [b]` is empty or extends a proper suffix of `w` by `b`. */
  lemma SuffixOfChild(nodes: seq<Node>, paths: seq<Text>, w: Text, b: byte, g: nat) returns (u: nat)
    requires Trie(nodes, paths) && g < |paths|
    requires ProperSuffix(paths[g], w + [b]) && paths[g] != []
    ensures u < |paths| && ProperSuffix(paths[u], w) && paths[u] + [b] == paths[g]
    ensures b in nodes[u].next
  {
    var s := paths[g];
    var t := s[..|s| - 1];
    assert s[|s| - 1] == b;
    assert s == t + [b];
    u := ParentPath(nodes, paths, t, b);
    SuffixExtend(t, w, b);
  }

  /** What the failure-following loop keeps: every suffix of `w` that `b` can extend is
      no longer than the current candidate. */
  ghost predicate Candidate(nodes: seq<Node>, paths: seq<Text>, w: Text, b: byte, f: nat)
    requires |nodes| == |paths|
  {
    && f < |nodes|
    && ProperSuffix(paths[f], w)
    && (forall g :: 0 <= g < |nodes| && ProperSuffix(paths[g], w) && b in nodes[g].next ==> |paths[g]| <= |paths[f]|)
  }

  lemma NextCandidate(nodes: seq<Node>, paths: seq<Text>, w: Text, b: byte, f: nat)
    requires Trie(nodes, paths) && Candidate(nodes, paths, w, b, f)
    requires b !in nodes[f].next && f != 0 && FailIsLongestSuffix(nodes, paths, f)
    ensures Candidate(nodes, paths, w, b, nodes[f].fail)
  {
    var n := nodes[f].fail;
    SuffixTransitive(paths[n], paths[f], w);
    forall g | 0 <= g < |nodes| && ProperSuffix(paths[g], w) && b in nodes[g].next
      ensures |paths[g]| <= |paths[n]|
    {
      SuffixOfSuffix(paths[g], paths[f], w);
      assert ProperSuffix(paths[g], paths[f]) by {
        assert paths[g] != paths[f];
      }
    }
  }

  /** Where the loop stops, the candidate extended by `b` is the failure link sought. */
  lemma LinkFound(nodes: seq<Node>, paths: seq<Text>, w: Text, b: byte, f: nat, child: nat)
    requires Trie(nodes, paths) && Candidate(nodes, paths, w, b, f)
    requires child < |nodes| && paths[child] == w + [b]
    requires b in nodes[f].next || f == 0
    requires nodes[child].fail == if b in nodes[f].next then nodes[f].next[b] else 0
    ensures FailIsLongestSuffix(nodes, paths, child)
  {
    var n := nodes[child].fail;
    if b in nodes[f].next {
      SuffixExtend(paths[f], w, b);
    }
    forall g | 0 <= g < |paths| && ProperSuffix(paths[g], paths[child])
      ensures |paths[g]| <= |paths[n]|
    {
      if paths[g] != [] {
        var u := SuffixOfChild(nodes, paths, w, b, g);
        assert |paths[u]| <= |paths[f]|;
        RootIsEmpty(nodes, paths, u);
      }
    }
  }

  /** A pattern ending a node's path is the path itself or ends the path of its failure link. */
  lemma LongestOfNode(nodes: seq<Node>, paths: seq<Text>, patterns: seq<Text>, i: nat, n: nat)
    requires Trie(nodes, paths) && Holds(paths, patterns) && 0 < i < |nodes|
    requires FailIsLongestSuffix(nodes, paths, i)
    requires LongestEnding(patterns, paths[nodes[i].fail], nodes[nodes[i].fail].longest)
    requires var own := if paths[i] in patterns then |paths[i]| else 0;
             var via := nodes[nodes[i].fail].longest;
             n == Max(own, via)
    ensures LongestEnding(patterns, paths[i], n)
  {
    var f := nodes[i].fail;
    var via := nodes[f].longest;
    forall p | p in patterns && Suffix(p, paths[i]) ensures |p| <= n {
      if |p| == |paths[i]| {
        assert p == paths[i];
      } else {
        assert Begins(p, patterns);
        var g := PathIndex(paths, p);
        assert ProperSuffix(paths[g], paths[i]);
        SuffixOfSuffix(p, paths[f], paths[i]);
      }
    }
    if n == via && n != 0 {
      var p :| p in patterns && |p| == via && Suffix(p, paths[f]);
      SuffixTransitive(p, paths[f], paths[i]);
    } else if n != 0 {
      assert Suffix(paths[i], paths[i]);
    }
  }

  /** Every node on the queue is finished; every other node is as planted. */
  ghost predicate LinkedSoFar(nodes: seq<Node>, paths: seq<Text>, patterns: seq<Text>, queue: seq<nat>)
    requires |nodes| == |paths|
  {
    forall j {:trigger Linked(nodes, paths, patterns, j)} {:trigger AsPlanted(nodes[j], paths[j], patterns)} ::
      0 <= j < |nodes| ==>
      if j == 0 || j in queue then Linked(nodes, paths, patterns, j) else AsPlanted(nodes[j], paths[j], patterns)
  }

  ghost predicate AsPlanted(node: Node, path: Text, patterns: seq<Text>) {
    node.fail == 0 && node.longest == if path in patterns then |path| else 0
  }

  /** The children of the root are finished as planted. */
  lemma RootChildren(nodes: seq<Node>, paths: seq<Text>, patterns: seq<Text>, j: nat)
    requires Planted(nodes, paths, patterns) && j < |nodes| && |paths[j]| <= 1
    ensures Linked(nodes, paths, patterns, j)
  {
    RootIsEmpty(nodes, paths, j);
    forall p | p in patterns && Suffix(p, paths[j]) ensures |p| <= nodes[j].longest {
      if |p| == 1 {
        assert p == paths[j];
      }
    }
    if nodes[j].longest != 0 {
      assert Suffix(paths[j], paths[j]);
    }
  }

  lemma StillLinked(nodes: seq<Node>, changed: seq<Node>, paths: seq<Text>, patterns: seq<Text>, j: nat)
    requires |nodes| == |changed| == |paths| && j < |nodes|
    requires changed[j].fail == nodes[j].fail && changed[j].longest == nodes[j].longest
    requires Linked(nodes, paths, patterns, j)
    ensures Linked(changed, paths, patterns, j)
  {
  }

  /** Once its failure link is known, a node's match length follows. */
  lemma NodeLinked(nodes: seq<Node>, paths: seq<Text>, patterns: seq<Text>, i: nat, own: nat)
    requires Trie(nodes, paths) && Holds(paths, patterns) && 0 < i < |nodes|
    requires FailIsLongestSuffix(nodes, paths, i)
    requires LongestEnding(patterns, paths[nodes[i].fail], nodes[nodes[i].fail].longest)
    requires own == if paths[i] in patterns then |paths[i]| else 0
    requires nodes[i].longest == Max(own, nodes[nodes[i].fail].longest)
    ensures Linked(nodes, paths, patterns, i)
  {
    LongestOfNode(nodes, paths, patterns, i, nodes[i].longest);
  }

  /** Finishing one child and appending it to the queue keeps the others finished. */
  lemma ChildLinked(nodes: seq<Node>, done: seq<Node>, paths: seq<Text>, patterns: seq<Text>, queue: seq<nat>, child: nat)
    requires |nodes| == |paths| && LinkedSoFar(nodes, paths, patterns, queue)
    requires 0 < child < |nodes| && child !in queue
    requires |done| == |nodes| && forall j :: 0 <= j < |nodes| && j != child ==> done[j] == nodes[j]
    requires Linked(done, paths, patterns, child)
    ensures LinkedSoFar(done, paths, patterns, queue + [child])
  {
    forall j | 0 <= j < |nodes|
      ensures if j == 0 || j in queue + [child] then Linked(done, paths, patterns, j)
              else AsPlanted(done[j], paths[j], patterns)
    {
      if j != child && (j == 0 || j in queue) {
        StillLinked(nodes, done, paths, patterns, j);
      }
    }
  }

  /** In the middle of expanding queue entry `i`: the bytes in `todo` are still to come. */
  ghost predicate Expanding(paths: seq<Text>, queue: seq<nat>, i: nat, todo: set<byte>) {
    && Orderly(paths, queue)
    && i < |queue|
    && (forall j :: 0 < j < |paths| ==> (j in queue <==> Met(paths, queue, i, todo, j)))
    && (forall j :: 0 < j < |paths| && |paths[j]| <= |paths[queue[i]]| ==> j in queue)
  }

  ghost predicate Met(paths: seq<Text>, queue: seq<nat>, i: nat, todo: set<byte>, j: nat)
    requires i < |queue| && 0 < j < |paths|
    requires forall k :: 0 <= k < |queue| ==> queue[k] < |paths|
  {
    || Reached(paths, queue, i, j)
    || (IsChild(paths, queue[i], j) && paths[j][|paths[j]| - 1] !in todo)
  }

  lemma ExpandStart(nodes: seq<Node>, paths: seq<Text>, queue: seq<nat>, i: nat)
    requires Trie(nodes, paths) && Frontier(paths, queue, i) && i < |queue|
    ensures Expanding(paths, queue, i, nodes[queue[i]].next.Keys)
  {
    var at := queue[i];
    forall j | 0 < j < |paths| && IsChild(paths, at, j) ensures paths[j][|paths[j]| - 1] in nodes[at].next {
      var b := paths[j][|paths[j]| - 1];
      assert paths[j] == paths[at] + [b];
      EdgeIsUnique(nodes, paths, at, b, j);
    }
    forall j | 0 < j < |paths| && |paths[j]| <= |paths[at]| ensures j in queue {
      ShallowIsQueued(nodes, paths, queue, i, j);
    }
  }

  lemma ChildIsNew(nodes: seq<Node>, paths: seq<Text>, queue: seq<nat>, i: nat, todo: set<byte>, b: byte, child: nat)
    requires Trie(nodes, paths) && Expanding(paths, queue, i, todo) && b in todo
    requires child < |paths| && paths[child] == paths[queue[i]] + [b]
    ensures 0 < child && child !in queue
  {
    var at := queue[i];
    RootIsEmpty(nodes, paths, at);
    forall k | 0 <= k < |queue| && IsChild(paths, queue[k], child) ensures queue[k] == at {
      assert paths[queue[k]] == paths[child][..|paths[child]| - 1] == paths[at];
    }
    assert !Met(paths, queue, i, todo, child);
  }

  /** Entries met so far are at most one level below the entry being expanded. */
  lemma OneLevelDeeper(paths: seq<Text>, queue: seq<nat>, i: nat, todo: set<byte>, k: nat)
    requires Expanding(paths, queue, i, todo) && k < |queue| && |paths[queue[i]]| > 0
    ensures |paths[queue[k]]| <= |paths[queue[i]]| + 1
  {
    var j := queue[k];
    assert j in queue;
    assert Met(paths, queue, i, todo, j);
  }

  lemma MetOneMore(nodes: seq<Node>, paths: seq<Text>, queue: seq<nat>, i: nat, todo: set<byte>, b: byte, child: nat, j: nat)
    requires Trie(nodes, paths) && 0 < j < |paths| && 0 < child < |paths| && i < |queue|
    requires forall k :: 0 <= k < |queue| ==> queue[k] < |paths|
    requires b in todo && paths[child] == paths[queue[i]] + [b]
    ensures Met(paths, queue + [child], i, todo - {b}, j) <==> Met(paths, queue, i, todo, j) || j == child
  {
    var longer := queue + [child];
    assert forall k :: 0 <= k < i ==> longer[k] == queue[k];
    assert Reached(paths, longer, i, j) <==> Reached(paths, queue, i, j);
    if IsChild(paths, queue[i], j) && paths[j][|paths[j]| - 1] == b {
      assert paths[j] == paths[queue[i]] + [b];
    }
  }

  lemma OrderlyOneMore(paths: seq<Text>, queue: seq<nat>, child: nat)
    requires Orderly(paths, queue) && 0 < child < |paths| && child !in queue
    requires forall k :: 0 <= k < |queue| ==> |paths[queue[k]]| <= |paths[child]|
    ensures Orderly(paths, queue + [child])
  {
  }

  lemma ExpandStep(nodes: seq<Node>, paths: seq<Text>, queue: seq<nat>, i: nat, todo: set<byte>, b: byte, child: nat)
    requires Trie(nodes, paths) && Expanding(paths, queue, i, todo) && b in todo
    requires child < |paths| && paths[child] == paths[queue[i]] + [b]
    ensures Expanding(paths, queue + [child], i, todo - {b})
  {
    var longer := queue + [child];
    ChildIsNew(nodes, paths, queue, i, todo, b, child);
    RootIsEmpty(nodes, paths, queue[i]);
    forall k | 0 <= k < |queue| ensures |paths[queue[k]]| <= |paths[child]| {
      OneLevelDeeper(paths, queue, i, todo, k);
    }
    OrderlyOneMore(paths, queue, child);
    forall j | 0 < j < |paths| ensures j in longer <==> Met(paths, longer, i, todo - {b}, j) {
      MetOneMore(nodes, paths, queue, i, todo, b, child, j);
    }
  }

  lemma ExpandEnd(paths: seq<Text>, queue: seq<nat>, i: nat)
    requires Expanding(paths, queue, i, {})
    ensures Frontier(paths, queue, i + 1)
  {
    forall j | 0 < j < |paths| ensures j in queue <==> Reached(paths, queue, i + 1, j) {
      assert Met(paths, queue, i, {}, j) <==> Reached(paths, queue, i + 1, j);
    }
  }

  /** Nodes of the queue's first level, in whatever order the map yields them. */
  method RootQueue(nodes: seq<Node>, ghost paths: seq<Text>, ghost patterns: seq<Text>) returns (queue: seq<nat>)
    requires Planted(nodes, paths, patterns)
    ensures Frontier(paths, queue, 0)
    ensures LinkedSoFar(nodes, paths, patterns, queue)
  {
    queue := [];
    var todo := nodes[0].next.Keys;
    forall j | 0 < j < |nodes| && |paths[j]| == 1 ensures paths[j][0] in todo && nodes[0].next[paths[j][0]] == j {
      assert paths[j] == paths[0] + [paths[j][0]];
      EdgeIsUnique(nodes, paths, 0, paths[j][0], j);
    }
    while todo != {}
      invariant todo <= nodes[0].next.Keys
      invariant Orderly(paths, queue)
      invariant forall j :: 0 < j < |nodes| ==> (j in queue <==> |paths[j]| == 1 && paths[j][0] !in todo)
    {
      var b :| b in todo;
      var n := nodes[0].next[b];
      assert paths[n] == [b];
      queue := queue + [n];
      todo := todo - {b};
    }
    forall j | 0 <= j < |nodes| && (j == 0 || j in queue) ensures Linked(nodes, paths, patterns, j) {
      RootChildren(nodes, paths, patterns, j);
    }
  }

  /** Follows failure links from `at` until `b` can be taken or the root is reached. */
  method FollowFailures(nodes: seq<Node>, ghost paths: seq<Text>, ghost patterns: seq<Text>, at: nat, b: byte)
    returns (fail: nat)
    requires Trie(nodes, paths) && 0 < at < |nodes|
    requires forall j {:trigger Linked(nodes, paths, patterns, j)} ::
      0 < j < |nodes| && |paths[j]| <= |paths[at]| ==> Linked(nodes, paths, patterns, j)
    ensures Candidate(nodes, paths, paths[at], b, fail)
    ensures fail == 0 || b in nodes[fail].next
  {
    assert Linked(nodes, paths, patterns, at);
    fail := nodes[at].fail;
    while fail != 0
      invariant Candidate(nodes, paths, paths[at], b, fail)
      decreases |paths[fail]|
    {
      if b in nodes[fail].next {
        break;
      }
      assert Linked(nodes, paths, patterns, fail);
      NextCandidate(nodes, paths, paths[at], b, fail);
      fail := nodes[fail].fail;
    }
  }

  /** Sets the failure link and match length of one child of `at`. */
  method LinkChild(nodes0: seq<Node>, ghost paths: seq<Text>, ghost patterns: seq<Text>, ghost queue: seq<nat>,
                   at: nat, b: byte, child: nat)
    returns (nodes: seq<Node>)
    requires Trie(nodes0, paths) && Holds(paths, patterns) && LinkedSoFar(nodes0, paths, patterns, queue)
    requires 0 < at < |nodes0| && b in nodes0[at].next && nodes0[at].next[b] == child
    requires 0 < child && child !in queue
    requires forall j :: 0 < j < |nodes0| && |paths[j]| <= |paths[at]| ==> j in queue
    ensures Trie(nodes, paths) && LinkedSoFar(nodes, paths, patterns, queue + [child])
    ensures nodes[at].next == nodes0[at].next
  {
    nodes := nodes0;
    assert Linked(nodes, paths, patterns, 0) && AsPlanted(nodes[child], paths[child], patterns);
    var fail := FollowFailures(nodes, paths, patterns, at, b);
    if b in nodes[fail].next {
      nodes := nodes[child := nodes[child].(fail := nodes[fail].next[b])];
    }
    SameEdges(nodes0, nodes, paths);
    assert Candidate(nodes, paths, paths[at], b, fail);
    LinkFound(nodes, paths, paths[at], b, fail, child);
    var f := nodes[child].fail;
    nodes := nodes[child := nodes[child].(longest := Max(nodes[child].longest, nodes[f].longest))];
    SameEdges(nodes0, nodes, paths);
    ChildFinished(nodes0, nodes, paths, patterns, queue, child);
  }

  /** Expands one queue entry: links each of its children and appends it to the queue. */
  method Expand(nodes0: seq<Node>, ghost paths: seq<Text>, ghost patterns: seq<Text>, queue0: seq<nat>, i: nat)
    returns (nodes: seq<Node>, queue: seq<nat>)
    requires Trie(nodes0, paths) && Holds(paths, patterns)
    requires Frontier(paths, queue0, i) && i < |queue0|
    requires LinkedSoFar(nodes0, paths, patterns, queue0)
    ensures Trie(nodes, paths)
    ensures Frontier(paths, queue, i + 1)
    ensures LinkedSoFar(nodes, paths, patterns, queue)
  {
    nodes, queue := nodes0, queue0;
    var at := queue[i];
    var todo := nodes[at].next.Keys;
    ExpandStart(nodes, paths, queue, i);
    while todo != {}
      invariant Trie(nodes, paths)
      invariant i < |queue| && queue[i] == at && at < |nodes|
      invariant todo <= nodes[at].next.Keys
      invariant Expanding(paths, queue, i, todo)
      invariant LinkedSoFar(nodes, paths, patterns, queue)
    {
      var b :| b in todo;
      var child := nodes[at].next[b];
      ChildIsNew(nodes, paths, queue, i, todo, b, child);
      nodes := LinkChild(nodes, paths, patterns, queue, at, b, child);
      ExpandStep(nodes, paths, queue, i, todo, b, child);
      queue := queue + [child];
      todo := todo - {b};
    }
    ExpandEnd(paths, queue, i);
  }

  lemma ChildFinished(nodes: seq<Node>, done: seq<Node>, paths: seq<Text>, patterns: seq<Text>, queue: seq<nat>, child: nat)
    requires Trie(nodes, paths) && Holds(paths, patterns) && LinkedSoFar(nodes, paths, patterns, queue)
    requires 0 < child < |nodes| && child !in queue
    requires |done| == |nodes| && forall j :: 0 <= j < |nodes| && j != child ==> done[j] == nodes[j]
    requires Trie(done, paths) && FailIsLongestSuffix(done, paths, child)
    requires var f := done[child].fail;
             (f == 0 || f in queue) && done[child].longest == Max(nodes[child].longest, nodes[f].longest)
    ensures LinkedSoFar(done, paths, patterns, queue + [child])
  {
    var f := done[child].fail;
    assert f != child;
    assert Linked(nodes, paths, patterns, f);
    assert AsPlanted(nodes[child], paths[child], patterns);
    NodeLinked(done, paths, patterns, child, nodes[child].longest);
    ChildLinked(nodes, done, paths, patterns, queue, child);
  }

  /** Builds the matcher of `patterns`; empty patterns are skipped. */
  method New(patterns: seq<Text>) returns (m: Matcher)
    ensures Recognises(m, patterns)
  {
    var nodes := [Node(map[], 0, 0, 0)];
    ghost var paths: seq<Text> := [[]];
    var i := 0;
    while i < |patterns|
      invariant i <= |patterns|
      invariant Planted(nodes, paths, patterns[..i])
    {
      assert patterns[..i + 1] == patterns[..i] + [patterns[i]];
      if patterns[i] != [] {
        nodes, paths := Plant(nodes, paths, patterns[..i], patterns[i]);
      } else {
        forall s { BeginsMonotone(s, patterns[..i], []); }
      }
      i := i + 1;
    }
    assert patterns[..|patterns|] == patterns;
    var queue := RootQueue(nodes, paths, patterns);
    i := 0;
    DistinctFits(queue, |nodes|);
    while i < |queue|
      invariant i <= |queue| <= |nodes|
      invariant Trie(nodes, paths) && Holds(paths, patterns)
      invariant Frontier(paths, queue, i)
      invariant LinkedSoFar(nodes, paths, patterns, queue)
      decreases |nodes| - i
    {
      nodes, queue := Expand(nodes, paths, patterns, queue, i);
      DistinctFits(queue, |nodes|);
      i := i + 1;
    }
    forall j | 0 < j < |nodes| ensures j in queue {
      ShallowIsQueued(nodes, paths, queue, i, j);
    }
    m := Matcher(nodes);
    assert Automaton(m, paths, patterns);
  }
}
