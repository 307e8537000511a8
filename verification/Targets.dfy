/** Pipeline targets of internal/ci/pipeline.go. */
module Targets {
  import opened Bytes
  import opened Options
  import opened Wildcards
  import opened PatternChoice
  import opened RefRules

  datatype Target = Target(kind: Kind, pattern: Text)

  ghost function TargetPatterns(targets: map<Text, Target>, kind: Kind): set<Text> {
    set t | t in targets && targets[t].kind == kind :: targets[t].pattern
  }

  ghost predicate DistinctTargets(targets: map<Text, Target>) {
    forall t, u :: t in targets && u in targets && targets[t] == targets[u] ==> t == u
  }

  ghost predicate Resolved(targets: map<Text, Target>, kind: Kind, name: Text, choice: Option<Text>) {
    match choice
    case None => forall p :: p in TargetPatterns(targets, kind) ==> !Matches(p, name)
    case Some(t) => t in targets && targets[t].kind == kind
                    && IsBest(TargetPatterns(targets, kind), name, targets[t].pattern)
  }

  /** A validated pipeline resolves a ref to one target only. */
  lemma TargetIsUnique(targets: map<Text, Target>, kind: Kind, name: Text, a: Option<Text>, b: Option<Text>)
    requires DistinctTargets(targets)
    requires Resolved(targets, kind, name, a) && Resolved(targets, kind, name, b)
    ensures a == b
  {
    if a.Some? && b.Some? {
      BestIsUnique(TargetPatterns(targets, kind), name, targets[a.value].pattern, targets[b.value].pattern);
      assert targets[a.value] == targets[b.value];
    }
  }

  /** Visits the targets in an arbitrary order, as ranging over a Go map does. */
  method ResolveTarget(targets: map<Text, Target>, kind: Kind, name: Text) returns (choice: Option<Text>)
    ensures Resolved(targets, kind, name, choice)
  {
    var names: seq<Text>, patterns: seq<Text> := [], [];
    var todo := targets.Keys;
    while todo != {}
      invariant todo <= targets.Keys
      invariant |names| == |patterns|
      invariant forall k :: 0 <= k < |names| ==>
        names[k] in targets && targets[names[k]] == Target(kind, patterns[k])
      invariant forall t :: t in targets && t !in todo && targets[t].kind == kind ==> targets[t].pattern in patterns
    {
      var t :| t in todo;
      todo := todo - {t};
      if targets[t].kind == kind {
        names := names + [t];
        patterns := patterns + [targets[t].pattern];
      }
    }
    assert Listed(patterns) == TargetPatterns(targets, kind) by {
      forall p | p in patterns ensures p in TargetPatterns(targets, kind) {
        var k :| 0 <= k < |patterns| && patterns[k] == p;
        assert names[k] in targets;
      }
    }
    var best := SelectPattern(patterns, name);
    if best < 0 {
      assert forall p :: p in TargetPatterns(targets, kind) ==> p in Listed(patterns);
      return None;
    }
    return Some(names[best]);
  }

  /** `seen` is the targets the other way around. */
  ghost predicate Indexed<N(!new), T(!new)>(targets: map<N, T>, seen: map<T, N>) {
    && (forall p :: p in seen ==> seen[p] in targets && targets[seen[p]] == p)
    && (forall t :: t in targets ==> targets[t] in seen && seen[targets[t]] == t)
  }

  /** Names come from the first `n` declarations. */
  ghost predicate FromDeclared<N(!new), T(!new)>(declared: seq<(N, T)>, n: nat, targets: map<N, T>, repeated: set<N>)
    requires n <= |declared|
  {
    && (forall t :: t in targets ==> DeclaredAs(declared, n, t, targets[t]))
    && (forall t :: t in repeated ==> NamedAmong(declared, n, t))
  }

  ghost predicate DeclaredAs<N(!new), T(!new)>(declared: seq<(N, T)>, n: nat, name: N, target: T)
    requires n <= |declared|
  {
    exists k :: 0 <= k < n && declared[k] == (name, target)
  }

  ghost predicate NamedAmong<N(!new), T(!new)>(declared: seq<(N, T)>, n: nat, name: N)
    requires n <= |declared|
  {
    exists k :: 0 <= k < n && declared[k].0 == name
  }

  /** What came from `n` declarations came from one more. */
  lemma StillDeclared<N(!new), T(!new)>(declared: seq<(N, T)>, n: nat, targets: map<N, T>, repeated: set<N>)
    requires n < |declared| && FromDeclared(declared, n, targets, repeated)
    ensures FromDeclared(declared, n + 1, targets, repeated)
    ensures DeclaredAs(declared, n + 1, declared[n].0, declared[n].1) && NamedAmong(declared, n + 1, declared[n].0)
  {
    assert declared[n] == (declared[n].0, declared[n].1);
    forall t | t in targets ensures DeclaredAs(declared, n + 1, t, targets[t]) {
      assert DeclaredAs(declared, n, t, targets[t]);
    }
    forall t | t in repeated ensures NamedAmong(declared, n + 1, t) {
      assert NamedAmong(declared, n, t);
    }
  }

  /** A declaration was accepted, or reported as repeating an accepted one. */
  ghost predicate Settled<N(!new), T(!new)>(d: (N, T), targets: map<N, T>, seen: map<T, N>, repeated: set<N>) {
    (d.0 in targets && targets[d.0] == d.1 && d.0 !in repeated) || (d.0 in repeated && d.1 in seen)
  }

  ghost predicate IsFirst<N(!new), T(!new)>(declared: seq<(N, T)>, k: nat)
    requires k < |declared|
  {
    forall j :: 0 <= j < k ==> declared[j].1 != declared[k].1
  }

  /** The name is the one its target was first declared under. */
  ghost predicate FirstNamed<N(!new), T(!new)>(declared: seq<(N, T)>, name: N, target: T) {
    exists k :: 0 <= k < |declared| && declared[k] == (name, target) && IsFirst(declared, k)
  }

  ghost predicate FirstsSeen<N(!new), T(!new)>(declared: seq<(N, T)>, seen: map<T, N>) {
    forall p :: p in seen ==> FirstNamed(declared, seen[p], p)
  }

  lemma FirstIsSeen<N(!new), T(!new)>(declared: seq<(N, T)>, n: nat, targets: map<N, T>, seen: map<T, N>, repeated: set<N>)
    requires n < |declared| && Progress(declared, n, targets, seen, repeated) && FirstsSeen(declared, seen) && declared[n].1 !in seen
    ensures FirstsSeen(declared, seen[declared[n].1 := declared[n].0])
  {
    forall j | 0 <= j < n ensures declared[j].1 != declared[n].1 {
      assert Settled(declared[j], targets, seen, repeated);
    }
    assert declared[n] == (declared[n].0, declared[n].1) && IsFirst(declared, n);
  }

  /** Of the declarations of one target exactly the first is accepted. */
  ghost predicate AcceptsFirsts<N(!new), T(!new)>(declared: seq<(N, T)>, targets: map<N, T>) {
    forall k :: 0 <= k < |declared| ==> (declared[k].0 in targets <==> IsFirst(declared, k))
  }

  lemma FirstsAreAccepted<N(!new), T(!new)>(declared: seq<(N, T)>, targets: map<N, T>, seen: map<T, N>, repeated: set<N>)
    requires DistinctNames(declared) && Progress(declared, |declared|, targets, seen, repeated) && FirstsSeen(declared, seen)
    ensures AcceptsFirsts(declared, targets)
  {
    forall k | 0 <= k < |declared| ensures declared[k].0 in targets <==> IsFirst(declared, k) {
      AcceptedIsFirst(declared, targets, seen, repeated, k);
    }
  }

  lemma AcceptedIsFirst<N(!new), T(!new)>(declared: seq<(N, T)>, targets: map<N, T>, seen: map<T, N>, repeated: set<N>, k: nat)
    requires DistinctNames(declared) && Progress(declared, |declared|, targets, seen, repeated) && FirstsSeen(declared, seen)
    requires k < |declared|
    ensures declared[k].0 in targets <==> IsFirst(declared, k)
  {
    var (name, target) := declared[k];
    assert Settled(declared[k], targets, seen, repeated);
    assert target in seen;
    var i :| 0 <= i < |declared| && declared[i] == (seen[target], target) && IsFirst(declared, i);
    if name in targets {
      var j :| 0 <= j < |declared| && declared[j] == (name, targets[name]);
    }
  }

  /** What the loop over the declarations knows after `n` of them. */
  ghost predicate Progress<N(!new), T(!new)>(declared: seq<(N, T)>, n: nat, targets: map<N, T>, seen: map<T, N>, repeated: set<N>)
    requires n <= |declared|
  {
    && Indexed(targets, seen) && FromDeclared(declared, n, targets, repeated)
    && (forall k {:trigger Settled(declared[k], targets, seen, repeated)} :: 0 <= k < n ==> Settled(declared[k], targets, seen, repeated))
    && (repeated == {} ==> forall k, l :: 0 <= k < l < n ==> declared[k].1 != declared[l].1)
  }

  ghost predicate DistinctNames<N(!new), T(!new)>(declared: seq<(N, T)>) {
    forall i, j :: 0 <= i < j < |declared| ==> declared[i].0 != declared[j].0
  }

  /** The next name is new to both lists. */
  lemma NameIsNew<N(!new), T(!new)>(declared: seq<(N, T)>, n: nat, targets: map<N, T>, repeated: set<N>)
    requires n < |declared| && DistinctNames(declared) && FromDeclared(declared, n, targets, repeated)
    ensures declared[n].0 !in targets && declared[n].0 !in repeated
  {
    forall t | t in targets ensures t != declared[n].0 {
      assert DeclaredAs(declared, n, t, targets[t]);
    }
    forall t | t in repeated ensures t != declared[n].0 {
      assert NamedAmong(declared, n, t);
    }
  }

  lemma AcceptedIndex<N(!new), T(!new)>(targets: map<N, T>, seen: map<T, N>, name: N, target: T)
    requires Indexed(targets, seen) && name !in targets && target !in seen
    ensures Indexed(targets[name := target], seen[target := name])
  {
  }

  /** Earlier declarations stay settled when a new name is accepted or reported. */
  lemma StaySettled<N(!new), T(!new)>(declared: seq<(N, T)>, n: nat, k: nat, targets: map<N, T>, seen: map<T, N>, repeated: set<N>)
    requires k < n < |declared| && DistinctNames(declared) && Settled(declared[k], targets, seen, repeated)
    ensures Settled(declared[k], targets, seen, repeated + {declared[n].0})
    ensures Settled(declared[k], targets[declared[n].0 := declared[n].1], seen[declared[n].1 := declared[n].0], repeated)
  {
    assert declared[k].0 != declared[n].0;
  }

  lemma Accepts<N(!new), T(!new)>(declared: seq<(N, T)>, n: nat, targets: map<N, T>, seen: map<T, N>, repeated: set<N>)
    requires n < |declared| && DistinctNames(declared) && Progress(declared, n, targets, seen, repeated) && declared[n].1 !in seen
    ensures Progress(declared, n + 1, targets[declared[n].0 := declared[n].1], seen[declared[n].1 := declared[n].0], repeated)
  {
    NameIsNew(declared, n, targets, repeated);
    var (name, target) := declared[n];
    AcceptedIndex(targets, seen, name, target);
    StillDeclared(declared, n, targets, repeated);
    forall k | 0 <= k < n ensures Settled(declared[k], targets[name := target], seen[target := name], repeated) {
      StaySettled(declared, n, k, targets, seen, repeated);
    }
    forall k | 0 <= k < n && repeated == {} ensures declared[k].1 != target {
      assert Settled(declared[k], targets, seen, repeated);
    }
  }

  lemma Reports<N(!new), T(!new)>(declared: seq<(N, T)>, n: nat, targets: map<N, T>, seen: map<T, N>, repeated: set<N>)
    requires n < |declared| && DistinctNames(declared) && Progress(declared, n, targets, seen, repeated) && declared[n].1 in seen
    ensures Progress(declared, n + 1, targets, seen, repeated + {declared[n].0})
  {
    var more := repeated + {declared[n].0};
    assert declared[n].0 in more;
    ReportDeclared(declared, n, targets, repeated);
    ReportSettles(declared, n, targets, seen, repeated, more);
  }

  lemma ReportSettles<N(!new), T(!new)>(declared: seq<(N, T)>, n: nat, targets: map<N, T>, seen: map<T, N>, repeated: set<N>, more: set<N>)
    requires n < |declared| && DistinctNames(declared) && declared[n].1 in seen && more == repeated + {declared[n].0}
    requires forall k {:trigger Settled(declared[k], targets, seen, repeated)} :: 0 <= k < n ==> Settled(declared[k], targets, seen, repeated)
    ensures forall k {:trigger Settled(declared[k], targets, seen, more)} :: 0 <= k < n + 1 ==> Settled(declared[k], targets, seen, more)
  {
    forall k | 0 <= k < n + 1 ensures Settled(declared[k], targets, seen, more) {
      if k < n {
        StaySettled(declared, n, k, targets, seen, repeated);
      }
    }
  }

  lemma ReportDeclared<N(!new), T(!new)>(declared: seq<(N, T)>, n: nat, targets: map<N, T>, repeated: set<N>)
    requires n < |declared| && FromDeclared(declared, n, targets, repeated)
    ensures FromDeclared(declared, n + 1, targets, repeated + {declared[n].0})
  {
    StillDeclared(declared, n, targets, repeated);
  }

  /** The part of validation that keeps target patterns distinct: `declared` lists the named
      targets in sorted order. A target with the kind and pattern of an earlier one, and no
      other, is reported and left out. */
  method DeclareTargets(declared: seq<(Text, Target)>) returns (targets: map<Text, Target>, repeated: seq<Text>)
    requires DistinctNames(declared)
    ensures DistinctTargets(targets)
    ensures AcceptsFirsts(declared, targets)
    ensures forall t :: t in targets ==> (t, targets[t]) in declared
    ensures forall i :: 0 <= i < |declared| ==>
      || (declared[i].0 in targets && targets[declared[i].0] == declared[i].1 && declared[i].0 !in repeated)
      || (declared[i].0 in repeated && declared[i].1 in targets.Values)
    ensures repeated == [] ==> forall i, j :: 0 <= i < j < |declared| ==> declared[i].1 != declared[j].1
  {
    targets, repeated := map[], [];
    var seen: map<Target, Text> := map[];
    ghost var names: set<Text> := {};
    var i := 0;
    while i < |declared|
      invariant 0 <= i <= |declared| && Progress(declared, i, targets, seen, names)
      invariant FirstsSeen(declared, seen)
      invariant forall t :: t in names <==> t in repeated
    {
      var (name, target) := declared[i];
      if target in seen {
        Reports(declared, i, targets, seen, names);
        repeated, names := repeated + [name], names + {name};
      } else {
        Accepts(declared, i, targets, seen, names);
        FirstIsSeen(declared, i, targets, seen, names);
        seen := seen[target := name];
        targets := targets[name := target];
      }
      i := i + 1;
    }
    AllDeclared(declared, targets, seen, names);
    FirstsAreAccepted(declared, targets, seen, names);
  }

  lemma AllDeclared(declared: seq<(Text, Target)>, targets: map<Text, Target>, seen: map<Target, Text>, repeated: set<Text>)
    requires Progress(declared, |declared|, targets, seen, repeated)
    ensures DistinctTargets(targets)
    ensures forall t :: t in targets ==> (t, targets[t]) in declared
    ensures forall i :: 0 <= i < |declared| ==>
      || (declared[i].0 in targets && targets[declared[i].0] == declared[i].1 && declared[i].0 !in repeated)
      || (declared[i].0 in repeated && declared[i].1 in targets.Values)
  {
    forall t | t in targets ensures (t, targets[t]) in declared {
      assert DeclaredAs(declared, |declared|, t, targets[t]);
    }
    forall p | p in seen ensures p in targets.Values {
      assert targets[seen[p]] == p;
    }
    forall i | 0 <= i < |declared|
      ensures (declared[i].0 in targets && targets[declared[i].0] == declared[i].1 && declared[i].0 !in repeated)
              || (declared[i].0 in repeated && declared[i].1 in targets.Values)
    {
      assert Settled(declared[i], targets, seen, repeated);
    }
  }
}
