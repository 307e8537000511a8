/** A repository's activity feed: entries of five tables in one order, read page by page. */
module Feed {
  import opened Options
  import opened Bytes
  import opened TextOrder

  datatype Kind = Deployment | Event | Push | Refusal | Run

  datatype Entry = Entry(at: int, kind: Kind, id: Text)

  datatype Row = Row(at: int, id: Text)

  /** One repository's rows, table by table. */
  datatype Tables = Tables(changes: set<Row>, events: set<Row>, refusals: set<Row>, runs: set<Row>, deployments: set<Row>)

  function Name(kind: Kind): Text {
    match kind
    case Deployment => [100, 101, 112, 108, 111, 121, 109, 101, 110, 116]
    case Event => [101, 118, 101, 110, 116]
    case Push => [112, 117, 115, 104]
    case Refusal => [114, 101, 102, 117, 115, 97, 108]
    case Run => [114, 117, 110]
  }

  function Rank(kind: Kind): nat {
    match kind
    case Deployment => 0
    case Event => 1
    case Push => 2
    case Refusal => 3
    case Run => 4
  }

  lemma RankIsTextOrder(a: Kind, b: Kind)
    ensures Less(Name(a), Name(b)) <==> Rank(a) < Rank(b)
  {
    if (a == Refusal && b == Run) || (a == Run && b == Refusal) {
      assert Name(a)[1..][0] == if a == Run then 117 else 101;
      assert Name(b)[1..][0] == if b == Run then 117 else 101;
    }
    LessTotal(Name(a), Name(b));
  }

  /** The feed's order: by time, then source, then identifier, all descending. */
  predicate Newer(a: Entry, b: Entry) {
    if a.at != b.at then a.at > b.at
    else if a.kind != b.kind then Rank(a.kind) > Rank(b.kind)
    else Less(b.id, a.id)
  }

  lemma NewerIsStrictTotalOrder(a: Entry, b: Entry, c: Entry)
    ensures !Newer(a, a)
    ensures Newer(a, b) && Newer(b, c) ==> Newer(a, c)
    ensures a != b <==> Newer(a, b) || Newer(b, a)
    ensures !(Newer(a, b) && Newer(b, a))
  {
    LessTotal(a.id, a.id);
    LessTotal(a.id, b.id);
    if Less(c.id, b.id) && Less(b.id, a.id) {
      LessTransitive(c.id, b.id, a.id);
    }
  }

  // ----- sorted lists of entries -----

  ghost predicate Descends(s: seq<Entry>) {
    forall i, j :: 0 <= i < j < |s| ==> Newer(s[i], s[j])
  }

  ghost function Members(s: seq<Entry>): set<Entry> {
    set e | e in s
  }

  ghost predicate IsNewest(s: set<Entry>, m: Entry) {
    m in s && forall e :: e in s && e != m ==> Newer(m, e)
  }

  ghost function Newest(s: set<Entry>): (m: Entry)
    requires s != {}
    ensures IsNewest(s, m)
  {
    NewestExists(s);
    var m :| IsNewest(s, m);
    m
  }

  lemma {:induction false} NewestExists(s: set<Entry>)
    requires s != {}
    ensures exists m :: IsNewest(s, m)
  {
    var x :| x in s;
    var rest := s - {x};
    if rest == {} {
      assert s == {x};
      assert IsNewest(s, x);
    } else {
      NewestExists(rest);
      var m :| IsNewest(rest, m);
      assert s == rest + {x};
      NewestOfOneMore(rest, m, x);
    }
  }

  lemma NewestOfOneMore(rest: set<Entry>, m: Entry, x: Entry)
    requires IsNewest(rest, m) && x !in rest
    ensures IsNewest(rest + {x}, if Newer(x, m) then x else m)
  {
    NewerIsStrictTotalOrder(m, x, x);
    forall e | e in rest && e != m && Newer(x, m) ensures Newer(x, e) {
      NewerIsStrictTotalOrder(x, m, e);
    }
  }

  /** The fully merged list of a set of entries. */
  ghost function List(s: set<Entry>): seq<Entry> {
    if s == {} then [] else [Newest(s)] + List(s - {Newest(s)})
  }

  lemma {:induction false} ListIsSorted(s: set<Entry>)
    ensures Descends(List(s)) && Members(List(s)) == s
  {
    if s != {} {
      var m := Newest(s);
      var rest := List(s - {m});
      ListIsSorted(s - {m});
      forall i, j | 0 <= i < j < |List(s)| ensures Newer(List(s)[i], List(s)[j]) {
        assert List(s)[j] == rest[j - 1];
        assert rest[j - 1] in Members(rest);
      }
      forall e | e in s ensures e in List(s) {
        assert e == m || e in Members(rest);
      }
      forall e | e in List(s) ensures e in s {
        assert e == m || e in Members(rest);
      }
    }
  }

  /** An entry of a part of a sorted list comes no later in the part. */
  lemma {:induction false} NoLaterInPart(part: seq<Entry>, whole: seq<Entry>, i: nat, k: nat)
    requires Descends(part) && Descends(whole) && Members(part) <= Members(whole)
    requires i < |part| && k < |whole| && part[i] == whole[k]
    ensures i <= k
  {
    if i > 0 {
      var e := part[i - 1];
      assert e in Members(part);
      var j :| 0 <= j < |whole| && whole[j] == e;
      assert Newer(part[i - 1], part[i]);
      NewerIsStrictTotalOrder(whole[j], whole[k], whole[j]);
      NoLaterInPart(part, whole, i - 1, j);
    }
  }

  /** A sorted part that contains the first `m` entries begins with them. */
  lemma {:induction false} SameStart(part: seq<Entry>, whole: seq<Entry>, m: nat)
    requires Descends(part) && Descends(whole) && Members(part) <= Members(whole) && m <= |whole|
    requires forall k :: 0 <= k < m ==> whole[k] in part
    ensures m <= |part| && part[..m] == whole[..m]
  {
    if m > 0 {
      SameStart(part, whole, m - 1);
      var e := whole[m - 1];
      var i :| 0 <= i < |part| && part[i] == e;
      NoLaterInPart(part, whole, i, m - 1);
      if i < m - 1 {
        assert part[i] == part[..m - 1][i] == whole[..m - 1][i] == whole[i];
        assert Newer(whole[i], whole[m - 1]);
        NewerIsStrictTotalOrder(e, e, e);
      }
      assert i == m - 1;
    }
  }

  lemma SortedIsList(s: seq<Entry>, all: set<Entry>)
    requires Descends(s) && Members(s) == all
    ensures s == List(all)
  {
    ListIsSorted(all);
    InEither(List(all), s);
    SameStart(s, List(all), |List(all)|);
    InEither(s, List(all));
    SameStart(List(all), s, |s|);
  }

  lemma InEither(a: seq<Entry>, b: seq<Entry>)
    requires Members(a) == Members(b)
    ensures forall k :: 0 <= k < |a| ==> a[k] in b
  {
    forall k | 0 <= k < |a| ensures a[k] in b {
      assert a[k] in Members(a);
    }
  }

  // ----- pages -----

  ghost function First(s: seq<Entry>, n: nat): seq<Entry> {
    if |s| <= n then s else s[..n]
  }

  predicate Past(cursor: Option<Entry>, e: Entry) {
    cursor.None? || Newer(cursor.value, e)
  }

  ghost function Below(s: set<Entry>, cursor: Option<Entry>): set<Entry> {
    set e | e in s && Past(cursor, e)
  }

  /** What a page should be: the first entries of everything below the cursor. */
  ghost function Page(s: set<Entry>, cursor: Option<Entry>, limit: nat): seq<Entry> {
    First(List(Below(s, cursor)), limit)
  }

  ghost function EntriesOf(rows: set<Row>, kind: Kind): set<Entry> {
    set r | r in rows :: Entry(r.at, kind, r.id)
  }

  ghost function All(t: Tables): set<Entry> {
    EntriesOf(t.changes, Push) + EntriesOf(t.events, Event) + EntriesOf(t.refusals, Refusal) + EntriesOf(t.runs, Run)
    + EntriesOf(t.deployments, Deployment)
  }

  /** An entry among the first of everything is among the first of its own source. */
  lemma FirstOfItsSource(s: set<Entry>, part: set<Entry>, cursor: Option<Entry>, k: nat, want: nat)
    requires part <= s && k < |List(Below(s, cursor))| && k < want && List(Below(s, cursor))[k] in part
    ensures List(Below(s, cursor))[k] in Page(part, cursor, want)
  {
    var whole, own := List(Below(s, cursor)), List(Below(part, cursor));
    ListIsSorted(Below(s, cursor));
    ListIsSorted(Below(part, cursor));
    assert whole[k] in Members(whole);
    assert whole[k] in Members(own);
    var i :| 0 <= i < |own| && own[i] == whole[k];
    NoLaterInPart(own, whole, i, k);
    assert Page(part, cursor, want)[i] == own[i];
  }

  lemma PageMembers(s: set<Entry>, cursor: Option<Entry>, want: nat)
    ensures Members(Page(s, cursor, want)) <= Below(s, cursor) && Descends(Page(s, cursor, want))
  {
    ListIsSorted(Below(s, cursor));
    forall e | e in Page(s, cursor, want) ensures e in Below(s, cursor) {
      assert e in Members(List(Below(s, cursor)));
    }
  }

  /** What the five queries read together. */
  ghost function Read(t: Tables, cursor: Option<Entry>, want: nat): set<Entry> {
    Members(Page(EntriesOf(t.changes, Push), cursor, want)) + Members(Page(EntriesOf(t.events, Event), cursor, want))
    + Members(Page(EntriesOf(t.refusals, Refusal), cursor, want)) + Members(Page(EntriesOf(t.runs, Run), cursor, want))
    + Members(Page(EntriesOf(t.deployments, Deployment), cursor, want))
  }

  lemma SourceIsPart(part: set<Entry>, all: set<Entry>, cursor: Option<Entry>, want: nat)
    requires part <= all
    ensures Members(Page(part, cursor, want)) <= Below(all, cursor)
  {
    PageMembers(part, cursor, want);
  }

  lemma ReadIsPart(t: Tables, cursor: Option<Entry>, want: nat)
    ensures Read(t, cursor, want) <= Below(All(t), cursor)
  {
    SourceIsPart(EntriesOf(t.changes, Push), All(t), cursor, want);
    SourceIsPart(EntriesOf(t.events, Event), All(t), cursor, want);
    SourceIsPart(EntriesOf(t.refusals, Refusal), All(t), cursor, want);
    SourceIsPart(EntriesOf(t.runs, Run), All(t), cursor, want);
    SourceIsPart(EntriesOf(t.deployments, Deployment), All(t), cursor, want);
  }

  /** `limit + 1` entries of each source are enough for a page and for whether more follow. */
  lemma MergedPage(t: Tables, cursor: Option<Entry>, limit: nat, sorted: seq<Entry>)
    requires Descends(sorted) && Members(sorted) == Read(t, cursor, limit + 1)
    ensures First(sorted, limit) == Page(All(t), cursor, limit)
    ensures |sorted| > limit <==> |List(Below(All(t), cursor))| > limit
  {
    ReadIsPart(t, cursor, limit + 1);
    ReadIsEnough(t, cursor, limit);
    PageOfEnough(Below(All(t), cursor), limit, sorted, Read(t, cursor, limit + 1));
  }

  /** The first `limit + 1` entries of everything are in `part`. */
  ghost predicate Enough(whole: seq<Entry>, limit: nat, part: set<Entry>) {
    forall k :: 0 <= k <= limit && k < |whole| ==> whole[k] in part
  }

  lemma ReadIsEnough(t: Tables, cursor: Option<Entry>, limit: nat)
    ensures Enough(List(Below(All(t), cursor)), limit, Read(t, cursor, limit + 1))
  {
    forall k | 0 <= k <= limit && k < |List(Below(All(t), cursor))|
      ensures List(Below(All(t), cursor))[k] in Read(t, cursor, limit + 1)
    {
      FirstInSome(t, cursor, limit, k);
    }
  }

  lemma PageOfEnough(s: set<Entry>, limit: nat, sorted: seq<Entry>, part: set<Entry>)
    requires Descends(sorted) && Members(sorted) == part && part <= s && Enough(List(s), limit, part)
    ensures First(sorted, limit) == First(List(s), limit) && (|sorted| > limit <==> |List(s)| > limit)
  {
    ListIsSorted(s);
    forall k | 0 <= k <= limit && k < |List(s)| ensures List(s)[k] in sorted {
      assert List(s)[k] in Members(sorted);
    }
    FirstAgree(sorted, List(s), limit);
  }

  lemma FirstAgree(sorted: seq<Entry>, whole: seq<Entry>, limit: nat)
    requires Descends(sorted) && Descends(whole) && Members(sorted) <= Members(whole)
    requires forall k :: 0 <= k <= limit && k < |whole| ==> whole[k] in sorted
    ensures First(sorted, limit) == First(whole, limit)
    ensures |sorted| > limit <==> |whole| > limit
  {
    var m := if |whole| <= limit then |whole| else limit + 1;
    SameStart(sorted, whole, m);
    if |whole| <= limit {
      assert whole[..m] == whole;
      SamePart(sorted, whole);
    } else {
      assert sorted[..limit] == sorted[..m][..limit] == whole[..m][..limit] == whole[..limit];
    }
  }

  lemma SamePart(part: seq<Entry>, whole: seq<Entry>)
    requires Descends(part) && Descends(whole) && Members(part) <= Members(whole) && |whole| <= |part| && part[..|whole|] == whole
    ensures part == whole
  {
    if |part| > |whole| {
      var e := part[|whole|];
      assert e in Members(part);
      var k :| 0 <= k < |whole| && whole[k] == e;
      NoLaterInPart(part, whole, |whole|, k);
    }
  }

  lemma FirstInSome(t: Tables, cursor: Option<Entry>, limit: nat, k: nat)
    requires k <= limit && k < |List(Below(All(t), cursor))|
    ensures List(Below(All(t), cursor))[k] in Read(t, cursor, limit + 1)
  {
    var s := All(t);
    var e := List(Below(s, cursor))[k];
    ListIsSorted(Below(s, cursor));
    assert e in Members(List(Below(s, cursor)));
    if e in EntriesOf(t.changes, Push) {
      FirstOfItsSource(s, EntriesOf(t.changes, Push), cursor, k, limit + 1);
    } else if e in EntriesOf(t.events, Event) {
      FirstOfItsSource(s, EntriesOf(t.events, Event), cursor, k, limit + 1);
    } else if e in EntriesOf(t.refusals, Refusal) {
      FirstOfItsSource(s, EntriesOf(t.refusals, Refusal), cursor, k, limit + 1);
    } else if e in EntriesOf(t.runs, Run) {
      FirstOfItsSource(s, EntriesOf(t.runs, Run), cursor, k, limit + 1);
    } else {
      FirstOfItsSource(s, EntriesOf(t.deployments, Deployment), cursor, k, limit + 1);
    }
  }

  /** A page is told apart by the rows alone: `e` is shown before `f` if it is later, or of a
      source that is later in the alphabet, or of the same source and of a larger identifier. */
  ghost predicate ShownBefore(e: Entry, f: Entry) {
    || e.at > f.at
    || (e.at == f.at && SmallerAtFirstDifference(Name(f.kind), Name(e.kind)))
    || (e.at == f.at && e.kind == f.kind && SmallerAtFirstDifference(f.id, e.id))
  }

  lemma NewerMeans(a: Entry, b: Entry)
    ensures Newer(a, b) <==> ShownBefore(a, b)
  {
    RankIsTextOrder(b.kind, a.kind);
    LessMeans(Name(b.kind), Name(a.kind));
    LessMeans(b.id, a.id);
    LessTotal(Name(a.kind), Name(a.kind));
  }

  /** The entry is a row of the table its kind stands for. */
  ghost predicate IsRow(t: Tables, e: Entry) {
    match e.kind
    case Push => Row(e.at, e.id) in t.changes
    case Event => Row(e.at, e.id) in t.events
    case Refusal => Row(e.at, e.id) in t.refusals
    case Run => Row(e.at, e.id) in t.runs
    case Deployment => Row(e.at, e.id) in t.deployments
  }

  ghost predicate Remains(t: Tables, cursor: Option<Entry>, e: Entry) {
    IsRow(t, e) && (cursor.Some? ==> ShownBefore(cursor.value, e))
  }

  /** Rows past the cursor, in order, as many as fit; each row left out comes after all of
      them, and there is one exactly if `more`. */
  ghost predicate IsPage(t: Tables, cursor: Option<Entry>, n: nat, entries: seq<Entry>, more: bool) {
    && |entries| <= n && (more ==> |entries| == n)
    && (forall i :: 0 <= i < |entries| ==> Remains(t, cursor, entries[i]))
    && (forall i, j :: 0 <= i < j < |entries| ==> ShownBefore(entries[i], entries[j]))
    && (forall e :: Remains(t, cursor, e) && e !in entries ==> more && forall i :: 0 <= i < |entries| ==> ShownBefore(entries[i], e))
    && (more ==> exists e :: Remains(t, cursor, e) && e !in entries)
  }

  lemma EntryMeans(rows: set<Row>, kind: Kind, e: Entry)
    ensures e in EntriesOf(rows, kind) <==> e.kind == kind && Row(e.at, e.id) in rows
  {
    if e.kind == kind && Row(e.at, e.id) in rows {
      var r := Row(e.at, e.id);
      assert r in rows && Entry(r.at, kind, r.id) == e;
    }
  }

  lemma BelowMeans(t: Tables, cursor: Option<Entry>, e: Entry)
    ensures e in Below(All(t), cursor) <==> Remains(t, cursor, e)
  {
    EntryMeans(t.changes, Push, e);
    EntryMeans(t.events, Event, e);
    EntryMeans(t.refusals, Refusal, e);
    EntryMeans(t.runs, Run, e);
    EntryMeans(t.deployments, Deployment, e);
    if cursor.Some? {
      NewerMeans(cursor.value, e);
    }
  }

  lemma PageMeans(t: Tables, cursor: Option<Entry>, n: nat)
    ensures IsPage(t, cursor, n, Page(All(t), cursor, n), |List(Below(All(t), cursor))| > n)
  {
    var whole, page := List(Below(All(t), cursor)), Page(All(t), cursor, n);
    ListIsSorted(Below(All(t), cursor));
    forall i | 0 <= i < |whole| ensures Remains(t, cursor, whole[i]) {
      assert whole[i] in Members(whole);
      BelowMeans(t, cursor, whole[i]);
    }
    forall i, j | 0 <= i < j < |whole| ensures ShownBefore(whole[i], whole[j]) {
      NewerMeans(whole[i], whole[j]);
    }
    assert forall i :: 0 <= i < |page| ==> page[i] == whole[i];
    forall e | Remains(t, cursor, e) && e !in page
      ensures |whole| > n && forall i :: 0 <= i < |page| ==> ShownBefore(page[i], e)
    {
      BelowMeans(t, cursor, e);
      assert e in Members(whole);
      var k :| 0 <= k < |whole| && whole[k] == e;
    }
    if |whole| > n {
      LaterEntryIsNotShown(whole, n);
    }
  }

  lemma LaterEntryIsNotShown(whole: seq<Entry>, n: nat)
    requires Descends(whole) && n < |whole|
    ensures whole[n] !in whole[..n]
  {
    NewerIsStrictTotalOrder(whole[n], whole[n], whole[n]);
  }

  // ----- reading -----

  /** Puts an entry into its place of a sorted list. */
  method Place(s: seq<Entry>, e: Entry) returns (r: seq<Entry>)
    requires Descends(s) && e !in s
    ensures Descends(r) && Members(r) == Members(s) + {e}
  {
    var i := 0;
    while i < |s| && Newer(s[i], e)
      invariant 0 <= i <= |s|
      invariant forall j :: 0 <= j < i ==> Newer(s[j], e)
    {
      i := i + 1;
    }
    r := s[..i] + [e] + s[i..];
    Placed(s, e, i);
  }

  lemma Placed(s: seq<Entry>, e: Entry, i: nat)
    requires Descends(s) && e !in s && i <= |s| && (forall j :: 0 <= j < i ==> Newer(s[j], e)) && (i < |s| ==> !Newer(s[i], e))
    ensures Descends(s[..i] + [e] + s[i..]) && Members(s[..i] + [e] + s[i..]) == Members(s) + {e}
  {
    forall j | i <= j < |s| ensures Newer(e, s[j]) {
      NewerIsStrictTotalOrder(s[i], e, e);
      NewerIsStrictTotalOrder(e, s[i], s[j]);
    }
    SplitMembers(s, e, i);
  }

  lemma SplitMembers(s: seq<Entry>, e: Entry, i: nat)
    requires i <= |s|
    ensures Members(s[..i] + [e] + s[i..]) == Members(s) + {e}
  {
    assert s == s[..i] + s[i..];
  }

  /** One table's query: its rows past the cursor, newest first, at most `want`. */
  method Query(rows: set<Row>, kind: Kind, want: nat, cursor: Option<Entry>) returns (entries: seq<Entry>)
    ensures entries == Page(EntriesOf(rows, kind), cursor, want)
  {
    entries := [];
    var rest := rows;
    while rest != {}
      invariant rest <= rows && Descends(entries)
      invariant Members(entries) == Below(EntriesOf(rows - rest, kind), cursor)
      decreases rest
    {
      var r :| r in rest;
      var e := Entry(r.at, kind, r.id);
      Grow(rows, rest, kind, cursor, r);
      if Past(cursor, e) {
        assert e !in Members(entries);
        entries := Place(entries, e);
      }
      rest := rest - {r};
    }
    assert rows - rest == rows;
    SortedIsList(entries, Below(EntriesOf(rows, kind), cursor));
    if |entries| > want {
      entries := entries[..want];
    }
  }

  lemma Grow(rows: set<Row>, rest: set<Row>, kind: Kind, cursor: Option<Entry>, r: Row)
    requires r in rest && rest <= rows
    ensures var e, seen := Entry(r.at, kind, r.id), Below(EntriesOf(rows - rest, kind), cursor);
            && e !in seen
            && Below(EntriesOf(rows - (rest - {r}), kind), cursor) == if Past(cursor, e) then seen + {e} else seen
  {
    var e := Entry(r.at, kind, r.id);
    assert rows - (rest - {r}) == rows - rest + {r};
    assert EntriesOf(rows - (rest - {r}), kind) == EntriesOf(rows - rest, kind) + {e};
    forall q | q in rows - rest ensures Entry(q.at, kind, q.id) != e {
      assert q != r;
    }
  }

  /** Sorts entries without repetitions. */
  method Sort(all: seq<Entry>) returns (sorted: seq<Entry>)
    requires Distinct(all)
    ensures Descends(sorted) && Members(sorted) == Members(all)
  {
    sorted := [];
    for i := 0 to |all|
      invariant Descends(sorted) && Members(sorted) == Members(all[..i])
    {
      assert all[i] !in Members(all[..i]);
      sorted := Place(sorted, all[i]);
      assert all[..i + 1] == all[..i] + [all[i]];
    }
    assert all[..|all|] == all;
  }

  /** A page has between 1 and 100 entries. */
  function Clamp(limit: int): (n: nat)
    ensures 1 <= n <= 100 && (limit > 100 ==> n == 100) && (limit < 1 ==> n == 1) && (1 <= limit <= 100 ==> n == limit)
  {
    if limit < 1 then 1 else if limit > 100 then 100 else limit
  }

  ghost predicate Distinct(s: seq<Entry>) {
    forall i, j :: 0 <= i < j < |s| ==> s[i] != s[j]
  }

  /** A page is the start of everything below the cursor, and `more` says whether that goes on. */
  method ForRepo(t: Tables, cursor: Option<Entry>, limit: int) returns (entries: seq<Entry>, more: bool)
    ensures entries == Page(All(t), cursor, Clamp(limit))
    ensures more == (|List(Below(All(t), cursor))| > Clamp(limit))
    ensures IsPage(t, cursor, Clamp(limit), entries, more)
  {
    var n := Clamp(limit);
    PageMeans(t, cursor, n);
    var changes := Query(t.changes, Push, n + 1, cursor);
    var events := Query(t.events, Event, n + 1, cursor);
    var refusals := Query(t.refusals, Refusal, n + 1, cursor);
    var runs := Query(t.runs, Run, n + 1, cursor);
    var deployments := Query(t.deployments, Deployment, n + 1, cursor);
    var all := changes + events + refusals + runs + deployments;
    NoRepetitions(t, cursor, n + 1, all);
    var sorted := Sort(all);
    MergedPage(t, cursor, n, sorted);
    if |sorted| > n {
      return sorted[..n], true;
    }
    return sorted, false;
  }

  /** The sources have different kinds, so no entry comes twice. */
  lemma NoRepetitions(t: Tables, cursor: Option<Entry>, want: nat, all: seq<Entry>)
    requires all == Page(EntriesOf(t.changes, Push), cursor, want) + Page(EntriesOf(t.events, Event), cursor, want)
                    + Page(EntriesOf(t.refusals, Refusal), cursor, want) + Page(EntriesOf(t.runs, Run), cursor, want)
                    + Page(EntriesOf(t.deployments, Deployment), cursor, want)
    ensures Distinct(all) && Members(all) == Read(t, cursor, want)
  {
    OfKind(t.changes, Push, cursor, want);
    OfKind(t.events, Event, cursor, want);
    OfKind(t.refusals, Refusal, cursor, want);
    OfKind(t.runs, Run, cursor, want);
    OfKind(t.deployments, Deployment, cursor, want);
    var a, b := Page(EntriesOf(t.changes, Push), cursor, want), Page(EntriesOf(t.events, Event), cursor, want);
    var c, d := Page(EntriesOf(t.refusals, Refusal), cursor, want), Page(EntriesOf(t.runs, Run), cursor, want);
    JoinDistinct(a, {Push}, b, {Event});
    JoinDistinct(a + b, {Push, Event}, c, {Refusal});
    JoinDistinct(a + b + c, {Push, Event, Refusal}, d, {Run});
    JoinDistinct(a + b + c + d, {Push, Event, Refusal, Run}, Page(EntriesOf(t.deployments, Deployment), cursor, want), {Deployment});
  }

  /** Distinct entries of the given kinds. */
  ghost predicate DistinctOf(s: seq<Entry>, kinds: set<Kind>) {
    Distinct(s) && forall i :: 0 <= i < |s| ==> s[i].kind in kinds
  }

  lemma JoinDistinct(a: seq<Entry>, ka: set<Kind>, b: seq<Entry>, kb: set<Kind>)
    requires DistinctOf(a, ka) && DistinctOf(b, kb) && ka !! kb
    ensures DistinctOf(a + b, ka + kb) && Members(a + b) == Members(a) + Members(b)
  {
  }

  lemma OfKind(rows: set<Row>, kind: Kind, cursor: Option<Entry>, want: nat)
    ensures DistinctOf(Page(EntriesOf(rows, kind), cursor, want), {kind})
  {
    var page := Page(EntriesOf(rows, kind), cursor, want);
    PageMembers(EntriesOf(rows, kind), cursor, want);
    forall i | 0 <= i < |page| ensures page[i].kind == kind {
      assert page[i] in Members(page);
    }
    forall i, j | 0 <= i < j < |page| ensures page[i] != page[j] {
      NewerIsStrictTotalOrder(page[i], page[j], page[i]);
    }
  }

  // ----- following cursors -----

  /** What lies below the last entry of a page is the rest of the list. */
  lemma RestOfList(s: set<Entry>, cursor: Option<Entry>, limit: nat)
    requires 0 < limit < |List(Below(s, cursor))|
    ensures List(Below(s, Some(List(Below(s, cursor))[limit - 1]))) == List(Below(s, cursor))[limit..]
  {
    var whole := List(Below(s, cursor));
    var last := whole[limit - 1];
    ListIsSorted(Below(s, cursor));
    assert last in Members(whole);
    var rest := whole[limit..];
    forall e | e in Below(s, Some(last)) ensures e in rest {
      if cursor.Some? {
        NewerIsStrictTotalOrder(cursor.value, last, e);
      }
      assert e in Members(whole);
      var k :| 0 <= k < |whole| && whole[k] == e;
      NewerIsStrictTotalOrder(last, e, last);
      assert k >= limit;
      assert rest[k - limit] == e;
    }
    forall e | e in rest ensures e in Below(s, Some(last)) {
      var k :| 0 <= k < |rest| && rest[k] == e;
      assert e == whole[limit + k];
      assert e in Members(whole);
    }
    assert Members(rest) == Below(s, Some(last));
    SortedIsList(rest, Below(s, Some(last)));
  }

  /** The pages a reader collects who follows cursors while the feed changes: page k is read
      when the feed holds `feeds[k]`. */
  ghost function Walk(feeds: seq<set<Entry>>, cursor: Option<Entry>, limit: nat): seq<Entry> {
    if feeds == [] then []
    else
      var page := Page(feeds[0], cursor, limit);
      if page == [] then [] else page + Walk(feeds[1..], Some(page[|page| - 1]), limit)
  }

  /** Between two pages entries appear or vanish only above the cursor. */
  ghost predicate ChangesAbove(feeds: seq<set<Entry>>, cursor: Option<Entry>, limit: nat) {
    |feeds| <= 1
    || (var page := Page(feeds[0], cursor, limit);
        page == []
        || (var next := Some(page[|page| - 1]);
            Below(feeds[1], next) == Below(feeds[0], next) && ChangesAbove(feeds[1..], next, limit)))
  }

  /** How many entries fill that many pages. */
  function Room(pages: nat, limit: nat): nat {
    if pages == 0 then 0 else limit + Room(pages - 1, limit)
  }

  lemma {:induction false} RoomIsProduct(pages: nat, limit: nat)
    ensures Room(pages, limit) == pages * limit
  {
    if pages > 0 {
      RoomIsProduct(pages - 1, limit);
    }
  }

  lemma {:induction false} WalkFillsPages(feeds: seq<set<Entry>>, cursor: Option<Entry>, limit: nat)
    requires feeds != [] && limit > 0 && ChangesAbove(feeds, cursor, limit)
    ensures Walk(feeds, cursor, limit) == First(List(Below(feeds[0], cursor)), Room(|feeds|, limit))
  {
    var whole, page := List(Below(feeds[0], cursor)), Page(feeds[0], cursor, limit);
    if page == [] {
      assert whole == [];
    } else {
      var next := Some(page[|page| - 1]);
      BelowPage(feeds[0], cursor, limit);
      if |feeds| > 1 {
        WalkFillsPages(feeds[1..], next, limit);
      }
      PageThenRest(whole, limit, Room(|feeds| - 1, limit), Walk(feeds[1..], next, limit));
    }
  }

  /** Then the reader gets the list as it stood at the first page: every entry once, in order,
      up to the number of pages read. */
  lemma WalkListsEverythingOnce(feeds: seq<set<Entry>>, cursor: Option<Entry>, limit: nat)
    requires feeds != [] && limit > 0 && ChangesAbove(feeds, cursor, limit)
    ensures Walk(feeds, cursor, limit) == First(List(Below(feeds[0], cursor)), |feeds| * limit)
  {
    WalkFillsPages(feeds, cursor, limit);
    RoomIsProduct(|feeds|, limit);
  }

  lemma BelowPage(s: set<Entry>, cursor: Option<Entry>, limit: nat)
    requires limit > 0 && Page(s, cursor, limit) != []
    ensures var whole, page := List(Below(s, cursor)), Page(s, cursor, limit);
            List(Below(s, Some(page[|page| - 1]))) == if |whole| <= limit then [] else whole[limit..]
  {
    if |List(Below(s, cursor))| <= limit {
      NothingBelowLast(s, cursor);
    } else {
      RestOfList(s, cursor, limit);
    }
  }

  lemma PageThenRest(whole: seq<Entry>, n: nat, m: nat, rest: seq<Entry>)
    requires rest == First(if |whole| <= n then [] else whole[n..], m)
    ensures First(whole, n) + rest == First(whole, n + m)
  {
  }

  lemma NothingBelowLast(s: set<Entry>, cursor: Option<Entry>)
    requires List(Below(s, cursor)) != []
    ensures var whole := List(Below(s, cursor)); Below(s, Some(whole[|whole| - 1])) == {}
  {
    var whole := List(Below(s, cursor));
    var last := whole[|whole| - 1];
    ListIsSorted(Below(s, cursor));
    assert last in Members(whole);
    forall e | e in Below(s, Some(last)) ensures false {
      if cursor.Some? {
        NewerIsStrictTotalOrder(cursor.value, last, e);
      }
      assert e in Members(whole);
      var k :| 0 <= k < |whole| && whole[k] == e;
      NewerIsStrictTotalOrder(last, e, last);
    }
  }

  /** Entries added above a cursor change no page from that cursor on. */
  lemma LaterPagesStay(s: set<Entry>, t: set<Entry>, cursor: Entry, later: Option<Entry>, limit: nat)
    requires s <= t && forall e :: e in t - s ==> !Newer(cursor, e)
    requires later.Some? && (later.value == cursor || Newer(cursor, later.value))
    ensures Page(t, later, limit) == Page(s, later, limit)
  {
    forall e | e in Below(t, later) ensures e in s {
      NewerIsStrictTotalOrder(cursor, later.value, e);
    }
    assert Below(t, later) == Below(s, later);
  }
}
