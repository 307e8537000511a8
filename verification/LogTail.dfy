/** A step's log: the chunks it is stored in, the counters kept with it, and its bounded
    tail with original line numbers. */
module LogTail {
  import opened Options
  import opened Bytes

  const NEWLINE: byte := 10
  const WINDOW: nat := 1048576
  const LINES: nat := 20000
  const CHUNKS: nat := 256
  const CHUNK: nat := 65536

  // ----- lines -----

  /** Newlines at or after position `i`. */
  function Breaks(w: Text, i: nat): nat
    requires i <= |w|
    decreases |w| - i
  {
    if i == |w| then 0 else (if w[i] == NEWLINE then 1 else 0) + Breaks(w, i + 1)
  }

  function Newlines(w: Text): nat {
    Breaks(w, 0)
  }

  /** Lines from position `i`, the last of which may lack its newline. */
  function LinesFrom(w: Text, i: nat): nat
    requires i <= |w|
  {
    Breaks(w, i) + if i < |w| && w[|w| - 1] != NEWLINE then 1 else 0
  }

  lemma {:induction false} BreaksOfSuffix(a: Text, b: Text, i: nat)
    requires i <= |b|
    ensures Breaks(a + b, |a| + i) == Breaks(b, i)
    decreases |b| - i
  {
    if i < |b| {
      BreaksOfSuffix(a, b, i + 1);
    }
  }

  lemma {:induction false} BreaksOfPrefix(a: Text, b: Text, i: nat)
    requires i <= |a|
    ensures Breaks(a + b, i) == Breaks(a, i) + Newlines(b)
    decreases |a| - i
  {
    if i < |a| {
      BreaksOfPrefix(a, b, i + 1);
    } else {
      BreaksOfSuffix(a, b, 0);
    }
  }

  /** Skipping to the next newline leaves one line fewer. */
  lemma {:induction false} SkipLine(w: Text, i: nat, p: nat)
    requires i <= p < |w| && w[p] == NEWLINE && forall j :: i <= j < p ==> w[j] != NEWLINE
    ensures Breaks(w, i) == 1 + Breaks(w, p + 1)
    decreases p - i
  {
    if i < p {
      SkipLine(w, i + 1, p);
    }
  }

  lemma {:induction false} NoBreaks(w: Text, i: nat)
    requires i <= |w| && forall j :: i <= j < |w| ==> w[j] != NEWLINE
    ensures Breaks(w, i) == 0
    decreases |w| - i
  {
    if i < |w| {
      NoBreaks(w, i + 1);
    }
  }

  /** strings.IndexByte from a position. */
  method IndexNewline(w: Text, from: nat) returns (p: Option<nat>)
    requires from <= |w|
    ensures p.None? ==> forall j :: from <= j < |w| ==> w[j] != NEWLINE
    ensures p.Some? ==> from <= p.value < |w| && w[p.value] == NEWLINE && forall j :: from <= j < p.value ==> w[j] != NEWLINE
  {
    var i := from;
    while i < |w|
      invariant from <= i <= |w|
      invariant forall j :: from <= j < i ==> w[j] != NEWLINE
    {
      if w[i] == NEWLINE {
        return Some(i);
      }
      i := i + 1;
    }
    return None;
  }

  /** strings.Count of newlines from a position. */
  method CountNewlines(w: Text, from: nat) returns (n: nat)
    requires from <= |w|
    ensures n == Breaks(w, from)
  {
    n := 0;
    var i := |w|;
    while i > from
      invariant from <= i <= |w| && n == Breaks(w, i)
    {
      i := i - 1;
      if w[i] == NEWLINE {
        n := n + 1;
      }
    }
  }

  // ----- where the tail is cut -----

  /** Any byte but the UTF-8 continuation bytes, whose upper two bits are 10. */
  predicate RuneStart(b: byte): (starts: bool)
    ensures starts <==> b / 64 != 2
  {
    b < 128 || b >= 192
  }

  predicate LineStart(w: Text, p: nat)
    requires p <= |w|
  {
    p == 0 || w[p - 1] == NEWLINE
  }

  /** Where the byte bound alone would cut. */
  function Excess(w: Text): nat {
    if |w| > WINDOW then |w| - WINDOW else 0
  }

  ghost predicate Fits(w: Text, p: nat)
    requires p <= |w|
  {
    |w| - p <= WINDOW && LinesFrom(w, p) <= LINES
  }

  /** A position the cut may take: everything, or a line start past the excess. */
  ghost predicate Candidate(w: Text, p: nat)
    requires p <= |w|
  {
    LineStart(w, p) && (|w| > WINDOW ==> p > Excess(w))
  }

  /** No line ends past the excess, and `cut` is the first rune there. */
  ghost predicate RuneCut(w: Text, cut: nat)
    requires cut <= |w|
  {
    && |w| > WINDOW && cut >= Excess(w) && (cut == |w| || RuneStart(w[cut]))
    && (forall j :: Excess(w) <= j < |w| ==> w[j] != NEWLINE)
    && (forall j :: Excess(w) <= j < cut ==> !RuneStart(w[j]))
  }

  /** The cut is the first line start that fits; a window without one is cut at the first
      rune past the excess. */
  ghost predicate GoodCut(w: Text, cut: nat) {
    && cut <= |w| && Fits(w, cut)
    && (forall p :: 0 <= p < cut && Candidate(w, p) ==> LinesFrom(w, p) > LINES)
    && (Candidate(w, cut) || RuneCut(w, cut))
  }

  /** The description leaves one choice. */
  lemma GoodCutIsUnique(w: Text, a: nat, b: nat)
    requires GoodCut(w, a) && GoodCut(w, b)
    ensures a == b
  {
  }

  /** The byte bound: past the excess to a rune, then past the line it falls in. */
  method CutBytes(w: Text) returns (cut: nat)
    ensures cut <= |w| && |w| - cut <= WINDOW
    ensures forall p :: 0 <= p < cut && p <= |w| ==> !Candidate(w, p)
    ensures Candidate(w, cut) || RuneCut(w, cut)
  {
    cut := Excess(w);
    if cut > 0 {
      while cut < |w| && !RuneStart(w[cut])
        invariant Excess(w) <= cut <= |w|
        invariant forall j :: Excess(w) <= j < cut ==> !RuneStart(w[j])
      {
        cut := cut + 1;
      }
      var n := IndexNewline(w, cut);
      if n.Some? {
        cut := n.value + 1;
      }
    }
  }

  method Cut(w: Text) returns (cut: nat)
    ensures GoodCut(w, cut)
  {
    cut := CutBytes(w);
    var lines := CountNewlines(w, cut);
    if !(|w| > 0 && w[|w| - 1] == NEWLINE) && |w| > cut {
      lines := lines + 1;
    }
    while lines > LINES
      invariant cut <= |w| && |w| - cut <= WINDOW && lines == LinesFrom(w, cut)
      invariant forall p :: 0 <= p < cut && p <= |w| && Candidate(w, p) ==> LinesFrom(w, p) > LINES
      invariant Candidate(w, cut) || RuneCut(w, cut)
      decreases |w| - cut
    {
      var n := IndexNewline(w, cut);
      if n.None? {
        NoBreaks(w, cut);
        break;
      }
      SkipLine(w, cut, n.value);
      cut := n.value + 1;
      lines := lines - 1;
    }
  }

  // ----- the stored log -----

  ghost predicate IsLast(keys: set<nat>, k: nat) {
    k in keys && forall q :: q in keys ==> q <= k
  }

  ghost function LastKey(chunks: map<nat, Text>): (k: nat)
    requires chunks != map[]
    ensures k in chunks && forall q :: q in chunks ==> q <= k
  {
    LastKeyExists(chunks.Keys);
    var k :| IsLast(chunks.Keys, k);
    k
  }

  lemma {:induction false} LastKeyExists(keys: set<nat>)
    requires keys != {}
    ensures exists k :: IsLast(keys, k)
  {
    var x :| x in keys;
    var rest := keys - {x};
    if rest == {} {
      assert keys == {x};
      assert IsLast(keys, x);
    } else {
      LastKeyExists(rest);
      var k :| IsLast(rest, k);
      assert keys == rest + {x};
      assert IsLast(keys, if x > k then x else k);
    }
  }

  /** The whole log: its chunks in the order of their numbers. */
  ghost function Joined(chunks: map<nat, Text>): Text {
    if chunks == map[] then [] else Joined(chunks - {LastKey(chunks)}) + chunks[LastKey(chunks)]
  }

  /** A chunk adds its own bytes and newlines, wherever it belongs. */
  lemma {:induction false} ChunkAdds(chunks: map<nat, Text>, k: nat, content: Text)
    requires k !in chunks
    ensures |Joined(chunks[k := content])| == |Joined(chunks)| + |content|
    ensures Newlines(Joined(chunks[k := content])) == Newlines(Joined(chunks)) + Newlines(content)
    decreases |chunks|
  {
    var more := chunks[k := content];
    assert k in more;
    var last := LastKey(more);
    if last == k {
      assert more - {k} == chunks;
      BreaksOfPrefix(Joined(chunks), content, 0);
    } else {
      var fewer := chunks - {last};
      assert last in chunks;
      assert LastKey(chunks) in more;
      assert LastKey(chunks) == last;
      assert more - {last} == fewer[k := content];
      ChunkAdds(fewer, k, content);
      BreaksOfPrefix(Joined(fewer), chunks[last], 0);
      BreaksOfPrefix(Joined(fewer[k := content]), chunks[last], 0);
    }
  }

  method FindLast(chunks: map<nat, Text>) returns (k: nat)
    requires chunks != map[]
    ensures k == LastKey(chunks)
  {
    var rest := chunks.Keys;
    k := LastKeyStart(chunks);
    while rest != {}
      invariant k in chunks && rest <= chunks.Keys
      invariant forall q :: q in chunks ==> q in rest || q <= k
      decreases rest
    {
      var q :| q in rest;
      if q > k {
        k := q;
      }
      rest := rest - {q};
    }
  }

  method LastKeyStart(chunks: map<nat, Text>) returns (k: nat)
    requires chunks != map[]
    ensures k in chunks
  {
    var q :| q in chunks;
    return q;
  }

  /** What is shown of a log. */
  datatype Tail = Tail(text: Text, after: int, first: int, cut: bool)

  /** A bounded suffix of the log whose first line carries its original number. */
  ghost predicate Shows(tail: Tail, whole: Text) {
    && |tail.text| <= |whole|
    && var before := |whole| - |tail.text|;
    && tail.text == whole[before..]
    && tail.first == 1 + Newlines(whole[..before])
    && |tail.text| <= WINDOW && LinesFrom(tail.text, 0) <= LINES
    && (tail.cut <==> before > 0)
  }

  class StepLog {
    var running: bool
    var chunks: map<nat, Text>
    var bytes: nat
    var lines: nat
    /** Everything ever stored, also after it expired. */
    ghost var all: map<nat, Text>

    ghost predicate Valid()
      reads this
    {
      && bytes == |Joined(all)| && lines == Newlines(Joined(all))
      && (chunks == all || (!running && chunks == map[]))
    }

    constructor ()
      ensures Valid() && running && all == map[]
    {
      running, chunks, bytes, lines, all := true, map[], 0, 0, map[];
    }

    /** Stores a chunk once; storing it again, or after the run ended, changes nothing.
        `full` says the repository's log budget is spent. */
    method Append(sequence: nat, content: Text, full: bool) returns (ok: bool)
      requires Valid()
      modifies this
      ensures Valid() && running == old(running)
      ensures all == if old(running) && sequence !in old(all) && ok then old(all)[sequence := content] else old(all)
      ensures ok <==> !(old(running) && sequence !in old(all) && (full || |content| > CHUNK))
    {
      if !running || sequence in chunks {
        return true;
      }
      if |content| > CHUNK || full {
        return false;
      }
      ChunkAdds(all, sequence, content);
      var n := CountNewlines(content, 0);
      chunks := chunks[sequence := content];
      bytes := bytes + |content|;
      lines := lines + n;
      all := all[sequence := content];
      return true;
    }

    /** The run ends. */
    method End()
      requires Valid()
      modifies this`running
      ensures Valid() && !running
    {
      running := false;
    }

    /** Retention drops the chunks of an ended run and keeps the counters. */
    method Expire()
      requires Valid() && !running
      modifies this`chunks
      ensures Valid() && chunks == map[]
    {
      chunks := map[];
    }

    /** Walks the chunks from the newest while the window is short. */
    method Recent() returns (window: Text, after: int, ghost n: nat)
      requires Valid()
      ensures Gathered(chunks, n) && window == Latest(chunks, n)
      ensures after == if chunks == map[] then -1 else LastKey(chunks)
    {
      window, after, n := [], -1, 0;
      var lines, count := 0, 0;
      var rest := chunks;
      while rest != map[] && count < CHUNKS && |window| < WINDOW && lines < LINES
        invariant n == count <= CHUNKS && |rest| + count == |chunks| && rest == Earlier(chunks, count)
        invariant window == Latest(chunks, count) && lines == Newlines(window)
        invariant forall m :: 0 <= m < count ==> Short(Latest(chunks, m))
        invariant after == if count == 0 then -1 else LastKey(chunks)
        decreases |rest|
      {
        var k := FindLast(rest);
        if count == 0 {
          after := k;
        }
        var more := CountNewlines(rest[k], 0);
        BreaksOfPrefix(rest[k], window, 0);
        OneEarlier(chunks, count);
        window := rest[k] + window;
        lines := lines + more;
        rest, count, n := rest - {k}, count + 1, n + 1;
      }
    }

    method Select() returns (tail: Tail)
      requires Valid()
      ensures Shows(tail, Joined(all))
      ensures exists n: nat, cut: nat :: Selected(chunks, n, cut, tail.text)
      ensures tail.after == if chunks == map[] then -1 else LastKey(chunks)
    {
      var window, after, n := Recent();
      var cut := Cut(window);
      var counted := CountNewlines(window, 0);
      var kept := CountNewlines(window, cut);
      var first: int := lines as int - counted as int + 1;
      first := first + counted as int - kept as int;
      tail := Tail(window[cut..], after, first, |window| - cut < bytes);
      LatestIsSuffix(chunks, n);
      TailShows(Joined(all), window, cut, tail);
      assert Selected(chunks, n, cut, tail.text);
    }
  }

  /** A window that may take one more chunk. */
  predicate Short(window: Text) {
    |window| < WINDOW && Newlines(window) < LINES
  }

  /** The last `n` chunks, joined. */
  ghost function Latest(chunks: map<nat, Text>, n: nat): Text {
    if n == 0 || chunks == map[] then []
    else Latest(chunks - {LastKey(chunks)}, n - 1) + chunks[LastKey(chunks)]
  }

  /** All but the last `n` chunks. */
  ghost function Earlier(chunks: map<nat, Text>, n: nat): map<nat, Text> {
    if n == 0 || chunks == map[] then chunks else Earlier(chunks - {LastKey(chunks)}, n - 1)
  }

  /** The window takes chunks while it is short, at most 256. */
  ghost predicate Gathered(chunks: map<nat, Text>, n: nat) {
    && n <= CHUNKS && n <= |chunks|
    && (forall m :: 0 <= m < n ==> Short(Latest(chunks, m)))
    && (n == |chunks| || n == CHUNKS || !Short(Latest(chunks, n)))
  }

  ghost predicate Selected(chunks: map<nat, Text>, n: nat, cut: nat, text: Text) {
    Gathered(chunks, n) && GoodCut(Latest(chunks, n), cut) && text == Latest(chunks, n)[cut..]
  }

  lemma {:induction false} OneEarlier(chunks: map<nat, Text>, n: nat)
    requires Earlier(chunks, n) != map[]
    ensures var rest := Earlier(chunks, n);
            && Earlier(chunks, n + 1) == rest - {LastKey(rest)}
            && Latest(chunks, n + 1) == rest[LastKey(rest)] + Latest(chunks, n)
  {
    var fewer := chunks - {LastKey(chunks)};
    if n > 0 {
      OneEarlier(fewer, n - 1);
    } else {
      assert Latest(fewer, 0) == [] && Earlier(fewer, 0) == fewer;
    }
  }

  lemma {:induction false} LatestIsSuffix(chunks: map<nat, Text>, n: nat)
    ensures Suffix(Latest(chunks, n), Joined(chunks))
  {
    if n > 0 && chunks != map[] {
      var k := LastKey(chunks);
      LatestIsSuffix(chunks - {k}, n - 1);
      SuffixAppend(Latest(chunks - {k}, n - 1), Joined(chunks - {k}), chunks[k]);
    }
  }

  lemma SuffixAppend(s: Text, t: Text, more: Text)
    requires Suffix(s, t)
    ensures Suffix(s + more, t + more)
  {
    forall i | 0 <= i < |s + more| ensures (t + more)[|t + more| - |s + more| + i] == (s + more)[i] {
      if i < |s| {
        assert t[|t| - |s| + i] == s[i];
      }
    }
  }

  /** The chunks numbered above `k`. */
  ghost function Later(chunks: map<nat, Text>, k: nat): map<nat, Text> {
    map q | q in chunks && q > k :: chunks[q]
  }

  /** Every chunk with text has fewer than 256 later ones, and their text leaves room. */
  ghost predicate AllTaken(chunks: map<nat, Text>) {
    forall k :: k in chunks && chunks[k] != [] ==> |Later(chunks, k)| < CHUNKS && Short(Joined(Later(chunks, k)))
  }

  lemma {:induction false} JoinedSplits(chunks: map<nat, Text>, n: nat)
    ensures Joined(chunks) == Joined(Earlier(chunks, n)) + Latest(chunks, n)
  {
    if n > 0 && chunks != map[] {
      JoinedSplits(chunks - {LastKey(chunks)}, n - 1);
    }
  }

  lemma {:induction false} JoinedEmpty(chunks: map<nat, Text>)
    ensures Joined(chunks) == [] <==> forall k :: k in chunks ==> chunks[k] == []
  {
    if chunks != map[] {
      var k := LastKey(chunks);
      JoinedEmpty(chunks - {k});
      assert forall q :: q in chunks ==> q == k || q in chunks - {k};
    }
  }

  lemma LaterWithoutLast(chunks: map<nat, Text>, k: nat)
    requires k in chunks && k != LastKey(chunks)
    ensures var last, later := LastKey(chunks), Later(chunks, k);
            && last in later && later[last] == chunks[last] && LastKey(later) == last
            && later - {last} == Later(chunks - {last}, k) && |later| == |Later(chunks - {last}, k)| + 1
  {
    var last, later := LastKey(chunks), Later(chunks, k);
    assert last in later;
    assert LastKey(later) in chunks;
    assert later - {last} == Later(chunks - {last}, k);
    assert |later - {last}| == |later| - 1;
  }

  /** The chunks above `k` are the latest ones, as many as there are. */
  lemma {:induction false} LaterIsLatest(chunks: map<nat, Text>, k: nat)
    requires k in chunks
    ensures Joined(Later(chunks, k)) == Latest(chunks, |Later(chunks, k)|)
    decreases |chunks|
  {
    var last := LastKey(chunks);
    if k == last {
      assert Later(chunks, k) == map[];
    } else {
      LaterWithoutLast(chunks, k);
      LaterIsLatest(chunks - {last}, k);
    }
  }

  /** A chunk is among the earlier ones exactly when there are at least `n` above it. */
  lemma {:induction false} EarlierByRank(chunks: map<nat, Text>, k: nat, n: nat)
    requires k in chunks
    ensures k in Earlier(chunks, n) <==> |Later(chunks, k)| >= n
    ensures k in Earlier(chunks, n) ==> Earlier(chunks, n)[k] == chunks[k]
    decreases |chunks|
  {
    var last := LastKey(chunks);
    if k == last {
      assert Later(chunks, k) == map[];
      EarlierBelow(chunks - {last}, n - 1, last);
    } else if n > 0 {
      LaterWithoutLast(chunks, k);
      EarlierByRank(chunks - {last}, k, n - 1);
    }
  }

  lemma {:induction false} EarlierBelow(chunks: map<nat, Text>, n: int, k: nat)
    requires k !in chunks
    ensures n >= 0 ==> k !in Earlier(chunks, n)
    decreases |chunks|
  {
    if n > 0 && chunks != map[] {
      EarlierBelow(chunks - {LastKey(chunks)}, n - 1, k);
    }
  }

  /** A window with later text in front is no shorter. */
  lemma {:induction false} LatestGrows(chunks: map<nat, Text>, n: nat, m: nat)
    requires n <= m && Short(Latest(chunks, m))
    ensures Short(Latest(chunks, n))
    decreases m - n
  {
    if n < m {
      LatestGrows(chunks, n + 1, m);
      if Earlier(chunks, n) != map[] {
        OneEarlier(chunks, n);
        var rest := Earlier(chunks, n);
        BreaksOfPrefix(rest[LastKey(rest)], Latest(chunks, n), 0);
      } else {
        NothingEarlier(chunks, n);
      }
    }
  }

  lemma {:induction false} NothingEarlier(chunks: map<nat, Text>, n: nat)
    requires Earlier(chunks, n) == map[]
    ensures Latest(chunks, n + 1) == Latest(chunks, n)
  {
    if chunks != map[] {
      NothingEarlier(chunks - {LastKey(chunks)}, n - 1);
    }
  }

  /** The window holds all text exactly when every chunk with text was taken. */
  lemma WindowIsWhole(chunks: map<nat, Text>, n: nat)
    requires Gathered(chunks, n)
    ensures Latest(chunks, n) == Joined(chunks) <==> AllTaken(chunks)
  {
    var rest := Earlier(chunks, n);
    JoinedSplits(chunks, n);
    JoinedEmpty(rest);
    assert Latest(chunks, n) == Joined(chunks) <==> Joined(rest) == [] by {
      assert |Joined(chunks)| == |Joined(rest)| + |Latest(chunks, n)|;
    }
    EarlierIsPart(chunks, n);
    forall k | k in chunks && chunks[k] != [] ensures k in rest <==> !(|Later(chunks, k)| < CHUNKS && Short(Joined(Later(chunks, k)))) {
      TakenIfShort(chunks, n, k);
    }
  }

  lemma EarlierIsPart(chunks: map<nat, Text>, n: nat)
    ensures forall k :: k in Earlier(chunks, n) ==> k in chunks && Earlier(chunks, n)[k] == chunks[k]
  {
    forall k | k in Earlier(chunks, n) ensures k in chunks && Earlier(chunks, n)[k] == chunks[k] {
      if k !in chunks {
        EarlierBelow(chunks, n, k);
      } else {
        EarlierByRank(chunks, k, n);
      }
    }
  }

  lemma TakenIfShort(chunks: map<nat, Text>, n: nat, k: nat)
    requires Gathered(chunks, n) && k in chunks
    ensures k in Earlier(chunks, n) <==> !(|Later(chunks, k)| < CHUNKS && Short(Joined(Later(chunks, k))))
  {
    LaterIsLatest(chunks, k);
    EarlierByRank(chunks, k, n);
    var m := |Later(chunks, k)|;
    LaterIsFewer(chunks, k);
    if m >= n && Short(Latest(chunks, m)) {
      LatestGrows(chunks, n, m);
    }
  }

  lemma LaterIsFewer(chunks: map<nat, Text>, k: nat)
    requires k in chunks
    ensures |Later(chunks, k)| < |chunks|
  {
    var later := Later(chunks, k);
    assert later.Keys <= chunks.Keys - {k};
    SubsetSize(later.Keys, chunks.Keys - {k});
  }

  lemma {:induction false} SubsetSize(a: set<nat>, b: set<nat>)
    requires a <= b
    ensures |a| <= |b|
  {
    if a != {} {
      var x :| x in a;
      SubsetSize(a - {x}, b - {x});
    }
  }

  /** The exact condition under which a log is shown whole: it is within both bounds, and
      every chunk with text has fewer than 256 later ones whose text leaves room for it. */
  lemma ShownWholeExactly(chunks: map<nat, Text>, n: nat, cut: nat, text: Text)
    requires Selected(chunks, n, cut, text)
    ensures text == Joined(chunks) <==>
              |Joined(chunks)| <= WINDOW && LinesFrom(Joined(chunks), 0) <= LINES && AllTaken(chunks)
  {
    var window, whole := Latest(chunks, n), Joined(chunks);
    LatestIsSuffix(chunks, n);
    WindowIsWhole(chunks, n);
    if text == whole {
      assert |text| == |window| - cut;
      assert cut == 0 && window == whole;
    } else if window == whole && |whole| <= WINDOW && LinesFrom(whole, 0) <= LINES {
      UncutIfFits(window, cut);
    }
  }

  lemma UncutIfFits(window: Text, cut: nat)
    requires GoodCut(window, cut) && |window| <= WINDOW && LinesFrom(window, 0) <= LINES
    ensures cut == 0
  {
    assert Candidate(window, 0);
  }

  lemma {:induction false} AllNewlines(w: Text, i: nat)
    requires i <= |w| && forall j :: 0 <= j < |w| ==> w[j] == NEWLINE
    ensures Breaks(w, i) == |w| - i
    decreases |w| - i
  {
    if i < |w| {
      AllNewlines(w, i + 1);
    }
  }

  /** The bound on newlines is strict: of a log of exactly 20000 lines, a first chunk
      without newline before 20000 newlines is not shown. */
  lemma FullLogLosesItsStart(w: Text, x: byte) returns (chunks: map<nat, Text>)
    requires |w| == LINES && (forall j :: 0 <= j < |w| ==> w[j] == NEWLINE) && x != NEWLINE
    ensures Joined(chunks) == [x] + w && LinesFrom(Joined(chunks), 0) == LINES
    ensures Selected(chunks, 1, 0, w)
  {
    var first: map<nat, Text> := map[0 := [x]];
    chunks := first[1 := w];
    assert chunks - {1} == first;
    assert LastKey(chunks) == 1 by {
      assert 1 in chunks;
    }
    assert first - {0} == map[];
    assert LastKey(first) == 0 by {
      assert 0 in first;
    }
    AllNewlines(w, 0);
    BreaksOfSuffix([x], w, 0);
    assert Joined(first) == [x] by {
      assert Joined(map[]) == [];
    }
    var whole := [x] + w;
    assert Joined(chunks) == whole;
    assert whole[0] == x && whole[|whole| - 1] == w[|w| - 1] == NEWLINE;
    assert Latest(first, 0) == [];
    assert Latest(chunks, 1) == w;
  }

  lemma TailShows(whole: Text, window: Text, cut: nat, tail: Tail)
    requires Suffix(window, whole) && GoodCut(window, cut)
    requires tail.text == window[cut..] && tail.first == Newlines(whole) - Breaks(window, cut) + 1
    requires tail.cut == (|window| - cut < |whole|)
    ensures Shows(tail, whole)
  {
    Numbered(whole, window, cut);
  }

  lemma Numbered(whole: Text, window: Text, cut: nat)
    requires Suffix(window, whole) && cut <= |window|
    ensures var before := |whole| - (|window| - cut);
            && window[cut..] == whole[before..]
            && Newlines(whole[..before]) == Newlines(whole) - Breaks(window, cut)
            && LinesFrom(window[cut..], 0) == LinesFrom(window, cut)
  {
    var before := |whole| - (|window| - cut);
    assert window[cut..] == whole[before..];
    assert whole == whole[..before] + whole[before..];
    BreaksOfPrefix(whole[..before], whole[before..], 0);
    assert window == window[..cut] + window[cut..];
    BreaksOfSuffix(window[..cut], window[cut..], 0);
  }
}
