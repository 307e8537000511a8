/** The least-recently-used cache of parsed Git objects, bounded by total cost. */
module ObjectCache {
  import opened Options
  import opened Bytes

  datatype CacheEntry<V> = CacheEntry(key: Text, value: V, cost: nat)

  datatype Op<V> = Get(key: Text) | Add(key: Text, value: V, cost: nat)

  // ----- the simple model: a sequence, most recently used first -----

  function Sum<V>(s: seq<CacheEntry<V>>): nat {
    if s == [] then 0 else Sum(s[..|s| - 1]) + s[|s| - 1].cost
  }

  ghost predicate Has<V>(s: seq<CacheEntry<V>>, key: Text) {
    exists i :: 0 <= i < |s| && s[i].key == key
  }

  ghost predicate DistinctKeys<V>(s: seq<CacheEntry<V>>) {
    forall i, j :: 0 <= i < j < |s| ==> s[i].key != s[j].key
  }

  /** Moves the key's entry, if any, to the front. */
  function Touch<V>(s: seq<CacheEntry<V>>, key: Text): seq<CacheEntry<V>> {
    if s == [] then []
    else
      var last, rest := s[|s| - 1], s[..|s| - 1];
      if last.key == key then [last] + rest else Touch(rest, key) + [last]
  }

  /** Drops entries from the back until the rest fits. */
  function Fit<V>(s: seq<CacheEntry<V>>, max: nat): seq<CacheEntry<V>> {
    if s == [] || Sum(s) <= max then s else Fit(s[..|s| - 1], max)
  }

  ghost function Step<V>(s: seq<CacheEntry<V>>, op: Op<V>, max: nat): seq<CacheEntry<V>> {
    match op
    case Get(key) => Touch(s, key)
    case Add(key, value, cost) =>
      if cost > max / 8 then s
      else if Has(s, key) then Touch(s, key)
      else Fit([CacheEntry(key, value, cost)] + s, max)
  }

  ghost function Run<V>(ops: seq<Op<V>>, max: nat): seq<CacheEntry<V>> {
    if ops == [] then [] else Step(Run(ops[..|ops| - 1], max), ops[|ops| - 1], max)
  }

  // ----- what the model does -----

  lemma {:induction false} TouchMoves<V>(s: seq<CacheEntry<V>>, key: Text, i: nat)
    requires DistinctKeys(s) && i < |s| && s[i].key == key
    ensures Touch(s, key) == [s[i]] + s[..i] + s[i + 1..]
  {
    var n := |s| - 1;
    if i < n {
      TouchMoves(s[..n], key, i);
      assert s[..n][..i] == s[..i];
      assert s[..n][i + 1..] + [s[n]] == s[i + 1..];
    } else {
      assert s[..i] + s[i + 1..] == s[..n];
    }
  }

  lemma FrontMisses<V>(s: seq<CacheEntry<V>>, key: Text)
    requires s != [] && !Has(s, key)
    ensures !Has(s[..|s| - 1], key) && s[|s| - 1].key != key && s == s[..|s| - 1] + [s[|s| - 1]]
  {
    var front := s[..|s| - 1];
    forall i | 0 <= i < |front| ensures front[i].key != key {
      assert front[i] == s[i];
    }
  }

  lemma {:induction false} TouchMisses<V>(s: seq<CacheEntry<V>>, key: Text)
    requires !Has(s, key)
    ensures Touch(s, key) == s
  {
    if s != [] {
      FrontMisses(s, key);
      TouchMisses(s[..|s| - 1], key);
    }
  }

  /** Exactly the longest affordable prefix stays. */
  lemma {:induction false} FitIsLongestPrefix<V>(s: seq<CacheEntry<V>>, max: nat)
    ensures var k := |Fit(s, max)|;
            && k <= |s| && Fit(s, max) == s[..k] && Sum(s[..k]) <= max
            && (forall j :: k < j <= |s| ==> Sum(s[..j]) > max)
  {
    if s != [] && Sum(s) > max {
      var n := |s| - 1;
      FitIsLongestPrefix(s[..n], max);
      forall j | 0 <= j <= n ensures s[..n][..j] == s[..j] {
      }
      assert s[..|s|] == s;
    } else {
      assert s[..|s|] == s;
    }
  }

  lemma {:induction false} SumAppend<V>(a: seq<CacheEntry<V>>, b: seq<CacheEntry<V>>)
    ensures Sum(a + b) == Sum(a) + Sum(b)
  {
    if b == [] {
      assert a + b == a;
    } else {
      var n := |b| - 1;
      SumAppend(a, b[..n]);
      assert (a + b)[..|a + b| - 1] == a + b[..n];
    }
  }

  /** A just added entry pays at most an eighth, so it survives its own evictions. */
  lemma NewEntryStays<V>(e: CacheEntry<V>, s: seq<CacheEntry<V>>, max: nat)
    requires e.cost <= max / 8
    ensures |Fit([e] + s, max)| >= 1 && Fit([e] + s, max)[0] == e
  {
    FitIsLongestPrefix([e] + s, max);
    assert ([e] + s)[..1] == [e];
    assert Sum([e]) == e.cost;
  }

  /** Keys are distinct and the total is affordable. */
  ghost predicate Sound<V>(s: seq<CacheEntry<V>>, max: nat) {
    DistinctKeys(s) && Sum(s) <= max
  }

  /** Where the entry at `j` stood before entry `i` moved to the front. */
  ghost function Source(i: nat, j: nat): nat {
    if j == 0 then i else if j <= i then j - 1 else j
  }

  /** `t` is `s` with its entry `i` moved to the front. */
  ghost predicate Moved<V>(s: seq<CacheEntry<V>>, t: seq<CacheEntry<V>>, i: nat) {
    && i < |s| && |t| == |s|
    && (forall j {:trigger t[j]} :: 0 <= j < |t| ==> t[j] == s[Source(i, j)])
  }

  lemma TouchIsMoved<V>(s: seq<CacheEntry<V>>, key: Text, i: nat)
    requires DistinctKeys(s) && i < |s| && s[i].key == key
    ensures Moved(s, Touch(s, key), i) && Sum(Touch(s, key)) == Sum(s)
  {
    TouchMoves(s, key, i);
    MovedInParts(s, i);
    assert s == s[..i] + ([s[i]] + s[i + 1..]);
    SumOfMoved(s[..i], [s[i]], s[i + 1..]);
  }

  lemma MovedInParts<V>(s: seq<CacheEntry<V>>, i: nat)
    requires i < |s|
    ensures Moved(s, [s[i]] + s[..i] + s[i + 1..], i)
  {
  }

  lemma SumOfMoved<V>(a: seq<CacheEntry<V>>, e: seq<CacheEntry<V>>, b: seq<CacheEntry<V>>)
    ensures Sum(e + a + b) == Sum(a + (e + b))
  {
    SumAppend(a, e + b);
    SumAppend(e, b);
    SumAppend(e + a, b);
    SumAppend(e, a);
  }

  lemma MovedKeeps<V>(s: seq<CacheEntry<V>>, t: seq<CacheEntry<V>>, i: nat)
    requires Moved(s, t, i)
    ensures forall j :: 0 <= j < |s| ==> s[j] in t
    ensures forall j :: 0 <= j < |t| ==> t[j] in s
  {
    forall j | 0 <= j < |s| ensures s[j] in t {
      var k := if j == i then 0 else if j < i then j + 1 else j;
      assert Source(i, k) == j;
      assert t[k] == s[j];
    }
  }

  lemma MovedDistinct<V>(s: seq<CacheEntry<V>>, t: seq<CacheEntry<V>>, i: nat)
    requires Moved(s, t, i) && DistinctKeys(s)
    ensures DistinctKeys(t)
  {
    forall a, b | 0 <= a < b < |t| ensures t[a].key != t[b].key {
      var x, y := Source(i, a), Source(i, b);
      assert x != y;
      assert s[x].key != s[y].key;
    }
  }

  /** Whether an operation finds the key it uses. */
  ghost predicate Hits<V>(s: seq<CacheEntry<V>>, op: Op<V>, max: nat) {
    Has(s, op.key) && (op.Get? || op.cost <= max / 8)
  }

  /** Whether an operation stores a new entry. */
  ghost predicate Stores<V>(s: seq<CacheEntry<V>>, op: Op<V>, max: nat) {
    op.Add? && op.cost <= max / 8 && !Has(s, op.key)
  }

  lemma HitMoves<V>(s: seq<CacheEntry<V>>, op: Op<V>, max: nat) returns (i: nat)
    requires DistinctKeys(s) && Hits(s, op, max)
    ensures Moved(s, Step(s, op, max), i) && s[i].key == op.key && Sum(Step(s, op, max)) == Sum(s)
  {
    i :| 0 <= i < |s| && s[i].key == op.key;
    TouchIsMoved(s, op.key, i);
  }

  lemma StoreCuts<V>(s: seq<CacheEntry<V>>, op: Op<V>, max: nat)
    requires Stores(s, op, max)
    ensures var t := Step(s, op, max);
            && 0 < |t| <= |s| + 1 && t[0] == CacheEntry(op.key, op.value, op.cost) && Sum(t) <= max
            && (forall j :: 0 < j < |t| ==> t[j] == s[j - 1])
  {
    var e := CacheEntry(op.key, op.value, op.cost);
    FitIsLongestPrefix([e] + s, max);
    NewEntryStays(e, s, max);
  }

  lemma MissStays<V>(s: seq<CacheEntry<V>>, op: Op<V>, max: nat)
    requires !Hits(s, op, max) && !Stores(s, op, max)
    ensures Step(s, op, max) == s
  {
    if op.Get? {
      TouchMisses(s, op.key);
    }
  }

  lemma StepSound<V>(s: seq<CacheEntry<V>>, op: Op<V>, max: nat)
    requires Sound(s, max)
    ensures Sound(Step(s, op, max), max)
    ensures forall e :: e in Step(s, op, max) ==> e in s || (op.Add? && e == CacheEntry(op.key, op.value, op.cost))
  {
    if Hits(s, op, max) {
      var i := HitMoves(s, op, max);
      MovedKeeps(s, Step(s, op, max), i);
      MovedDistinct(s, Step(s, op, max), i);
    } else if Stores(s, op, max) {
      StoreCuts(s, op, max);
    } else {
      MissStays(s, op, max);
    }
  }

  /** Whether the operation counts as a use of the key. */
  predicate Uses<V>(op: Op<V>, key: Text, max: nat) {
    op.key == key && (op.Get? || op.cost <= max / 8)
  }

  /** When the key was last used, counting operations from 1; 0 for never. */
  ghost function LastUse<V>(ops: seq<Op<V>>, key: Text, max: nat): nat {
    if ops == [] then 0
    else if Uses(ops[|ops| - 1], key, max) then |ops|
    else LastUse(ops[..|ops| - 1], key, max)
  }

  /** Entries stand in the order of their last uses, the latest first. */
  ghost predicate RecentFirst<V>(s: seq<CacheEntry<V>>, ops: seq<Op<V>>, max: nat) {
    forall i, j :: 0 <= i < j < |s| ==> LastUse(ops, s[i].key, max) > LastUse(ops, s[j].key, max)
  }

  lemma {:induction false} LastUseBound<V>(ops: seq<Op<V>>, key: Text, max: nat)
    ensures LastUse(ops, key, max) <= |ops|
  {
    if ops != [] {
      LastUseBound(ops[..|ops| - 1], key, max);
    }
  }

  lemma MovedRecent<V>(s: seq<CacheEntry<V>>, t: seq<CacheEntry<V>>, i: nat, ops: seq<Op<V>>, op: Op<V>, max: nat)
    requires Moved(s, t, i) && DistinctKeys(s) && RecentFirst(s, ops, max) && Uses(op, s[i].key, max)
    ensures RecentFirst(t, ops + [op], max)
  {
    var all := ops + [op];
    assert all[..|all| - 1] == ops;
    forall a, b | 0 <= a < b < |t| ensures LastUse(all, t[a].key, max) > LastUse(all, t[b].key, max) {
      var x, y := Source(i, a), Source(i, b);
      assert t[a] == s[x] && t[b] == s[y] && y != i;
      assert s[y].key != s[i].key;
      LastUseBound(ops, t[b].key, max);
      assert x == i || x < y;
    }
  }

  lemma OneMoreUse<V>(s: seq<CacheEntry<V>>, ops: seq<Op<V>>, op: Op<V>, max: nat)
    requires Sound(s, max) && RecentFirst(s, ops, max)
    ensures RecentFirst(Step(s, op, max), ops + [op], max)
  {
    var all, t := ops + [op], Step(s, op, max);
    assert all[..|all| - 1] == ops;
    if Hits(s, op, max) {
      var i := HitMoves(s, op, max);
      MovedRecent(s, t, i, ops, op, max);
    } else if Stores(s, op, max) {
      StoreCuts(s, op, max);
      forall a, b | 0 <= a < b < |t| ensures LastUse(all, t[a].key, max) > LastUse(all, t[b].key, max) {
        assert t[b] == s[b - 1];
        LastUseBound(ops, t[b].key, max);
        if a > 0 {
          assert t[a] == s[a - 1];
        }
      }
    } else {
      MissStays(s, op, max);
    }
  }

  /** After any operations: distinct keys, affordable total, order of last use. */
  lemma {:induction false} AnyRun<V>(ops: seq<Op<V>>, max: nat)
    ensures Sound(Run(ops, max), max) && RecentFirst(Run(ops, max), ops, max)
  {
    if ops != [] {
      var front, op := ops[..|ops| - 1], ops[|ops| - 1];
      AnyRun(front, max);
      StepSound(Run(front, max), op, max);
      OneMoreUse(Run(front, max), front, op, max);
      assert front + [op] == ops;
    }
  }

  /** Whatever an entry drops out for was used later than the entry. */
  lemma EvictsLeastRecentlyUsed<V>(ops: seq<Op<V>>, op: Op<V>, max: nat, out: CacheEntry<V>, kept: CacheEntry<V>)
    requires out in Run(ops, max) && out !in Run(ops + [op], max) && kept in Run(ops + [op], max)
    ensures LastUse(ops + [op], out.key, max) < LastUse(ops + [op], kept.key, max)
  {
    var s, all := Run(ops, max), ops + [op];
    assert all[..|all| - 1] == ops;
    AnyRun(ops, max);
    AnyRun(all, max);
    if Stores(s, op, max) {
      var i :| 0 <= i < |s| && s[i] == out;
      Evicted(s, ops, op, max, i, kept);
    } else {
      NothingEvicted(s, op, max, out);
    }
  }

  lemma NothingEvicted<V>(s: seq<CacheEntry<V>>, op: Op<V>, max: nat, e: CacheEntry<V>)
    requires DistinctKeys(s) && !Stores(s, op, max) && e in s
    ensures e in Step(s, op, max)
  {
    if Hits(s, op, max) {
      var i := HitMoves(s, op, max);
      MovedKeeps(s, Step(s, op, max), i);
    } else {
      MissStays(s, op, max);
    }
  }

  lemma Survives<V>(s: seq<CacheEntry<V>>, t: seq<CacheEntry<V>>, i: nat)
    requires i + 1 < |t| <= |s| + 1 && forall j :: 0 < j < |t| ==> t[j] == s[j - 1]
    ensures s[i] in t
  {
    assert t[i + 1] == s[i];
  }

  lemma Evicted<V>(s: seq<CacheEntry<V>>, ops: seq<Op<V>>, op: Op<V>, max: nat, i: nat, kept: CacheEntry<V>)
    requires Sound(s, max) && RecentFirst(s, ops, max) && Stores(s, op, max)
    requires i < |s| && s[i] !in Step(s, op, max) && kept in Step(s, op, max)
    ensures LastUse(ops + [op], s[i].key, max) < LastUse(ops + [op], kept.key, max)
  {
    var all, t := ops + [op], Step(s, op, max);
    assert all[..|all| - 1] == ops;
    StoreCuts(s, op, max);
    LastUseBound(ops, s[i].key, max);
    var j :| 0 <= j < |t| && t[j] == kept;
    if i + 1 < |t| {
      Survives(s, t, i);
    }
    if j > 0 {
      assert kept == s[j - 1];
    }
  }

  /** Objects are content-addressed: if every add of a key stores the same value, every
      entry holds it. */
  lemma {:induction false} NeverStale<V>(ops: seq<Op<V>>, max: nat, truth: Text -> V)
    requires forall i :: 0 <= i < |ops| && ops[i].Add? ==> ops[i].value == truth(ops[i].key)
    ensures forall e :: e in Run(ops, max) ==> e.value == truth(e.key)
  {
    if ops != [] {
      var n := |ops| - 1;
      NeverStale(ops[..n], max, truth);
      AnyRun(ops[..n], max);
      StepSound(Run(ops[..n], max), ops[n], max);
    }
  }

  /** The key's entry comes to the front and the others keep their order. */
  ghost predicate MovedUp<V>(s: seq<CacheEntry<V>>, t: seq<CacheEntry<V>>, key: Text) {
    exists i :: 0 <= i < |s| && s[i].key == key && t == [s[i]] + s[..i] + s[i + 1..]
  }

  /** The entry comes to the front, followed by as many of the old ones, from the front, as
      can be afforded with it. */
  ghost predicate PutFirst<V>(s: seq<CacheEntry<V>>, t: seq<CacheEntry<V>>, e: CacheEntry<V>, max: nat) {
    && 0 < |t| <= |s| + 1 && t[0] == e && t[1..] == s[..|t| - 1]
    && e.cost + Sum(s[..|t| - 1]) <= max
    && (|t| <= |s| ==> e.cost + Sum(s[..|t|]) > max)
  }

  lemma StoreMeans<V>(s: seq<CacheEntry<V>>, e: CacheEntry<V>, max: nat)
    requires e.cost <= max / 8
    ensures PutFirst(s, Fit([e] + s, max), e, max)
  {
    var t, all := Fit([e] + s, max), [e] + s;
    FitIsLongestPrefix(all, max);
    NewEntryStays(e, s, max);
    SumAppend([e], s[..|t| - 1]);
    assert all[..|t|] == [e] + s[..|t| - 1];
    if |t| <= |s| {
      SumAppend([e], s[..|t|]);
      assert all[..|t| + 1] == [e] + s[..|t|];
    }
  }

  lemma TouchMeans<V>(s: seq<CacheEntry<V>>, key: Text)
    requires DistinctKeys(s)
    ensures if Has(s, key) then MovedUp(s, Touch(s, key), key) else Touch(s, key) == s
  {
    if i :| 0 <= i < |s| && s[i].key == key {
      TouchMoves(s, key, i);
    } else {
      TouchMisses(s, key);
    }
  }

  // ----- the cache -----

  /** The map and the list hold the same entries. */
  ghost predicate Indexed<V>(order: seq<CacheEntry<V>>, items: map<Text, CacheEntry<V>>) {
    && (forall i :: 0 <= i < |order| ==> order[i].key in items && items[order[i].key] == order[i])
    && (forall k :: k in items ==> Has(order, k))
  }

  /** `items` stands for the pointers to list elements. */
  class Cache<V> {
    const maxCost: nat
    var cost: nat
    var order: seq<CacheEntry<V>>
    var items: map<Text, CacheEntry<V>>

    ghost predicate Valid()
      reads this
    {
      Sound(order, maxCost) && cost == Sum(order) && Indexed(order, items)
    }

    constructor (max: nat)
      ensures Valid() && maxCost == max && order == []
    {
      maxCost, cost, order, items := max, 0, [], map[];
    }

    /** The list element `items` points to. */
    method Find(key: Text) returns (i: nat)
      requires Indexed(order, items) && key in items
      ensures i < |order| && order[i].key == key
    {
      i := 0;
      while order[i].key != key
        invariant 0 <= i < |order|
        invariant exists j :: i <= j < |order| && order[j].key == key
        decreases |order| - i
      {
        i := i + 1;
      }
    }

    method MoveToFront(key: Text)
      requires Valid() && key in items
      modifies this`order
      ensures Valid() && order == Touch(old(order), key) && |order| > 0 && order[0] == items[key]
      ensures MovedUp(old(order), order, key)
    {
      var i := Find(key);
      Touched(order, key, i, items);
      order := [order[i]] + order[..i] + order[i + 1..];
    }

    /** Returns what was stored under the key and marks it used. */
    method Get(key: Text) returns (found: Option<V>)
      requires Valid()
      modifies this
      ensures Valid() && order == Step(old(order), Op.Get(key), maxCost)
      ensures found.Some? <==> Has(old(order), key)
      ensures forall i :: 0 <= i < |old(order)| && old(order)[i].key == key ==> found == Some(old(order)[i].value)
      ensures if Has(old(order), key) then MovedUp(old(order), order, key) else order == old(order)
      ensures items == old(items) && cost == old(cost)
    {
      TouchMeans(order, key);
      if key !in items {
        TouchMisses(order, key);
        return None;
      }
      MoveToFront(key);
      return Some(items[key].value);
    }

    method Add(key: Text, value: V, price: nat)
      requires Valid()
      modifies this
      ensures Valid() && order == Step(old(order), Op.Add(key, value, price), maxCost)
      ensures price <= maxCost / 8 ==> |order| > 0 && order[0].key == key
      ensures if price > maxCost / 8 then order == old(order)
              else if Has(old(order), key) then MovedUp(old(order), order, key)
              else PutFirst(old(order), order, CacheEntry(key, value, price), maxCost)
    {
      if price > maxCost / 8 {
        return;
      }
      if key in items {
        MoveToFront(key);
        return;
      }
      Store(CacheEntry(key, value, price));
    }

    /** The rest of Add: a new entry and the evictions it needs. */
    method Store(e: CacheEntry<V>)
      requires Valid() && e.key !in items && e.cost <= maxCost / 8
      modifies this
      ensures Valid() && order == Fit([e] + old(order), maxCost) && PutFirst(old(order), order, e, maxCost)
    {
      StoreMeans(order, e, maxCost);
      OneMoreEntry(order, e, items);
      order := [e] + order;
      items := items[e.key := e];
      cost := cost + e.cost;
      EvictToFit();
    }

    /** The eviction loop. */
    method EvictToFit()
      requires DistinctKeys(order) && cost == Sum(order) && Indexed(order, items)
      modifies this
      ensures Valid() && order == Fit(old(order), maxCost)
    {
      while cost > maxCost
        invariant DistinctKeys(order) && cost == Sum(order) && Indexed(order, items)
        invariant Fit(order, maxCost) == Fit(old(order), maxCost)
        decreases |order|
      {
        var n := |order| - 1;
        var oldest := order[n];
        Dropped(order, items);
        order := order[..n];
        items := items - {oldest.key};
        cost := cost - oldest.cost;
      }
    }
  }

  lemma Dropped<V>(order: seq<CacheEntry<V>>, items: map<Text, CacheEntry<V>>)
    requires order != [] && DistinctKeys(order) && Indexed(order, items)
    ensures var n := |order| - 1; DistinctKeys(order[..n]) && Indexed(order[..n], items - {order[n].key})
  {
    var n := |order| - 1;
    forall k | k in items - {order[n].key} ensures Has(order[..n], k) {
      var i :| 0 <= i < |order| && order[i].key == k;
      assert order[..n][i] == order[i];
    }
  }

  lemma MovedIndexed<V>(s: seq<CacheEntry<V>>, t: seq<CacheEntry<V>>, i: nat, items: map<Text, CacheEntry<V>>)
    requires Moved(s, t, i) && Indexed(s, items)
    ensures Indexed(t, items)
  {
    MovedHas(s, t, i);
    forall j | 0 <= j < |t| ensures t[j].key in items && items[t[j].key] == t[j] {
      assert t[j] == s[Source(i, j)];
    }
  }

  lemma Touched<V>(s: seq<CacheEntry<V>>, key: Text, i: nat, items: map<Text, CacheEntry<V>>)
    requires DistinctKeys(s) && Indexed(s, items) && i < |s| && s[i].key == key
    ensures var t := Touch(s, key);
            && t == [s[i]] + s[..i] + s[i + 1..]
            && DistinctKeys(t) && Indexed(t, items) && Sum(t) == Sum(s)
  {
    TouchMoves(s, key, i);
    TouchIsMoved(s, key, i);
    MovedDistinct(s, Touch(s, key), i);
    MovedIndexed(s, Touch(s, key), i, items);
  }

  lemma MovedHas<V>(s: seq<CacheEntry<V>>, t: seq<CacheEntry<V>>, i: nat)
    requires Moved(s, t, i)
    ensures forall k :: Has(s, k) ==> Has(t, k)
  {
    forall k | Has(s, k) ensures Has(t, k) {
      var j :| 0 <= j < |s| && s[j].key == k;
      var m := if j == i then 0 else if j < i then j + 1 else j;
      assert Source(i, m) == j;
      assert t[m] == s[j];
    }
  }

  lemma OneMoreEntry<V>(s: seq<CacheEntry<V>>, e: CacheEntry<V>, items: map<Text, CacheEntry<V>>)
    requires DistinctKeys(s) && Indexed(s, items) && e.key !in items
    ensures DistinctKeys([e] + s) && Indexed([e] + s, items[e.key := e]) && Sum([e] + s) == Sum(s) + e.cost
  {
    SumAppend([e], s);
    assert Sum([e]) == e.cost;
    HasMore(s, e);
    forall i | 0 <= i < |s| ensures s[i].key != e.key {
      assert s[i].key in items;
    }
  }

  lemma HasMore<V>(s: seq<CacheEntry<V>>, e: CacheEntry<V>)
    ensures forall k :: k == e.key || Has(s, k) ==> Has([e] + s, k)
  {
    forall k | k == e.key || Has(s, k) ensures Has([e] + s, k) {
      assert ([e] + s)[0].key == e.key;
      if Has(s, k) {
        var j :| 0 <= j < |s| && s[j].key == k;
        assert ([e] + s)[j + 1] == s[j];
      }
    }
  }
}
