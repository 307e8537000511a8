/** Ref rules of internal/repo/rules.go: which rule applies and what it allows. */
module RefRules {
  import opened Bytes
  import opened Options
  import opened Wildcards
  import opened PatternChoice

  datatype Kind = Branch | Tag

  datatype PushPolicy = Everyone | Admins | People | Unrecognised

  datatype Rule = Rule(kind: Kind, pattern: Text, policy: PushPolicy, people: seq<Text>, allowForce: bool, allowDelete: bool,
                       runOnPush: bool, allowDocker: bool, allowSecrets: bool, allowDeploy: bool)

  datatype Decision = Decision(canPush: bool, allowForce: bool, allowDelete: bool, runOnPush: bool, allowDocker: bool,
                               allowSecrets: bool, allowDeploy: bool, matched: Option<Rule>)

  datatype Who = Who(id: Text, isAdmin: bool)

  /** Why a deletion is refused, in the order the reasons are tried. */
  datatype Refusal = Allowed | MayNotPush | IsDefaultBranch | MayNotDelete

  ghost function PatternsOf(rules: seq<Rule>, kind: Kind): set<Text> {
    set r | r in rules && r.kind == kind :: r.pattern
  }

  /** The rule that applies: the one with the best matching pattern of its kind. */
  ghost predicate Applies(rules: seq<Rule>, kind: Kind, name: Text, choice: Option<Rule>) {
    match choice
    case None => forall p :: p in PatternsOf(rules, kind) ==> !Matches(p, name)
    case Some(rule) => rule in rules && rule.kind == kind && IsBest(PatternsOf(rules, kind), name, rule.pattern)
  }

  /** No two rules of a kind share a pattern, as the table's unique key enforces. */
  ghost predicate DistinctPatterns(rules: seq<Rule>) {
    forall i, j :: 0 <= i < j < |rules| && rules[i].kind == rules[j].kind ==> rules[i].pattern != rules[j].pattern
  }

  lemma SamePatternSameRule(rules: seq<Rule>, a: Rule, b: Rule)
    requires DistinctPatterns(rules) && a in rules && b in rules
    requires a.kind == b.kind && a.pattern == b.pattern
    ensures a == b
  {
    var i :| 0 <= i < |rules| && rules[i] == a;
    var j :| 0 <= j < |rules| && rules[j] == b;
    assert i <= j || j <= i;
  }

  /** The rule that applies does not depend on the order the rules are listed in. */
  lemma RuleIgnoresOrder(rules: seq<Rule>, reordered: seq<Rule>, kind: Kind, name: Text, a: Option<Rule>, b: Option<Rule>)
    requires DistinctPatterns(rules) && multiset(rules) == multiset(reordered)
    requires Applies(rules, kind, name, a) && Applies(reordered, kind, name, b)
    ensures a == b
  {
    assert forall r :: r in rules <==> r in multiset(rules);
    assert forall r :: r in reordered <==> r in multiset(reordered);
    assert PatternsOf(rules, kind) == PatternsOf(reordered, kind);
    if a.Some? && b.Some? {
      BestIsUnique(PatternsOf(rules, kind), name, a.value.pattern, b.value.pattern);
      SamePatternSameRule(rules, a.value, b.value);
    }
  }

  method SelectRule(rules: seq<Rule>, kind: Kind, name: Text) returns (choice: Option<Rule>)
    ensures Applies(rules, kind, name, choice)
  {
    var patterns: seq<Text> := [];
    var indices: seq<nat> := [];
    var i := 0;
    while i < |rules|
      invariant 0 <= i <= |rules|
      invariant |patterns| == |indices|
      invariant forall k :: 0 <= k < |indices| ==>
        indices[k] < i && rules[indices[k]].kind == kind && rules[indices[k]].pattern == patterns[k]
      invariant forall j :: 0 <= j < i && rules[j].kind == kind ==> rules[j].pattern in patterns
    {
      if rules[i].kind == kind {
        patterns := patterns + [rules[i].pattern];
        indices := indices + [i];
      }
      i := i + 1;
    }
    assert Listed(patterns) == PatternsOf(rules, kind) by {
      forall p | p in patterns ensures p in PatternsOf(rules, kind) {
        var k :| 0 <= k < |patterns| && patterns[k] == p;
        assert rules[indices[k]] in rules;
      }
    }
    var best := SelectPattern(patterns, name);
    if best < 0 {
      assert forall p :: p in PatternsOf(rules, kind) ==> p in Listed(patterns);
      return None;
    }
    return Some(rules[indices[best]]);
  }

  predicate MayPush(policy: PushPolicy, people: seq<Text>, who: Who) {
    match policy
    case Everyone => true
    case Admins => who.isAdmin
    case People => who.isAdmin || who.id in people
    case Unrecognised => false
  }

  function Decide(choice: Option<Rule>, who: Who, defaultPolicy: PushPolicy, defaultPeople: seq<Text>): Decision {
    match choice
    case None => Decision(MayPush(defaultPolicy, defaultPeople, who), true, true, false, false, false, false, None)
    case Some(r) =>
      Decision(MayPush(r.policy, r.people, who), r.allowForce, r.allowDelete, r.runOnPush, r.allowDocker,
               r.allowSecrets, r.allowDeploy, choice)
  }

  /** Who may push under a policy: everyone; admins; admins and the listed people; nobody. */
  ghost predicate PolicyAllows(policy: PushPolicy, people: seq<Text>, who: Who, may: bool) {
    && (policy == Everyone ==> may)
    && (policy == Admins ==> (may <==> who.isAdmin))
    && (policy == People ==> (may <==> who.isAdmin || exists i :: 0 <= i < |people| && people[i] == who.id))
    && (policy == Unrecognised ==> !may)
  }

  /** The decision carries the permissions of the rule that applies, or the defaults: pushing
      is then up to the repository's policy, forcing and deleting are allowed, and the rest is not. */
  ghost predicate Carries(d: Decision, who: Who, defaultPolicy: PushPolicy, defaultPeople: seq<Text>) {
    match d.matched
    case Some(rule) =>
      && PolicyAllows(rule.policy, rule.people, who, d.canPush)
      && d.allowForce == rule.allowForce && d.allowDelete == rule.allowDelete && d.runOnPush == rule.runOnPush
      && d.allowDocker == rule.allowDocker && d.allowSecrets == rule.allowSecrets && d.allowDeploy == rule.allowDeploy
    case None =>
      && PolicyAllows(defaultPolicy, defaultPeople, who, d.canPush)
      && d.allowForce && d.allowDelete && !d.runOnPush && !d.allowDocker && !d.allowSecrets && !d.allowDeploy
  }

  /** containsID. */
  method ContainsId(ids: seq<Text>, id: Text) returns (found: bool)
    ensures found <==> id in ids
  {
    for i := 0 to |ids|
      invariant id !in ids[..i]
    {
      if ids[i] == id {
        return true;
      }
    }
    return false;
  }

  method CanPush(policy: PushPolicy, people: seq<Text>, who: Who) returns (may: bool)
    ensures may <==> MayPush(policy, people, who)
    ensures PolicyAllows(policy, people, who, may)
  {
    may := false;
    if policy == Everyone {
      may := true;
    } else if policy == Admins {
      may := who.isAdmin;
    } else if policy == People {
      may := who.isAdmin;
      if !may {
        may := ContainsId(people, who.id);
      }
    }
  }

  /** The rule in force is the best matching one, and an admin may push under every policy
      that lets anybody push. */
  method Evaluate(rules: seq<Rule>, kind: Kind, name: Text, who: Who, defaultPolicy: PushPolicy, defaultPeople: seq<Text>)
    returns (d: Decision)
    ensures Applies(rules, kind, name, d.matched)
    ensures d == Decide(d.matched, who, defaultPolicy, defaultPeople)
    ensures Carries(d, who, defaultPolicy, defaultPeople)
  {
    var matched := SelectRule(rules, kind, name);
    if matched.None? {
      var may := CanPush(defaultPolicy, defaultPeople, who);
      return Decision(may, true, true, false, false, false, false, None);
    }
    var rule := matched.value;
    var may := CanPush(rule.policy, rule.people, who);
    d := Decision(may, rule.allowForce, rule.allowDelete, rule.runOnPush, rule.allowDocker, rule.allowSecrets, rule.allowDeploy, matched);
  }

  /** Two evaluations of the same rules in any two orders reach the same decision. */
  lemma DecisionIgnoresOrder(rules: seq<Rule>, reordered: seq<Rule>, kind: Kind, name: Text, who: Who,
                             defaultPolicy: PushPolicy, defaultPeople: seq<Text>, d: Decision, e: Decision)
    requires DistinctPatterns(rules) && multiset(rules) == multiset(reordered)
    requires Applies(rules, kind, name, d.matched) && d == Decide(d.matched, who, defaultPolicy, defaultPeople)
    requires Applies(reordered, kind, name, e.matched) && e == Decide(e.matched, who, defaultPolicy, defaultPeople)
    ensures d == e
  {
    RuleIgnoresOrder(rules, reordered, kind, name, d.matched, e.matched);
  }

  /** The default branch is never deleted, not even by an admin. */
  method CheckDelete(rules: seq<Rule>, kind: Kind, name: Text, who: Who, defaultPolicy: PushPolicy, defaultPeople: seq<Text>,
                     defaultBranch: Text)
    returns (d: Decision, refusal: Refusal)
    ensures Applies(rules, kind, name, d.matched)
    ensures d == Decide(d.matched, who, defaultPolicy, defaultPeople)
    ensures Carries(d, who, defaultPolicy, defaultPeople)
    ensures refusal == Allowed <==>
      && d.canPush && !(kind == Branch && name == defaultBranch)
      && (d.matched.Some? ==> d.matched.value.allowDelete)
    ensures refusal == MayNotDelete <==>
      && d.canPush && !(kind == Branch && name == defaultBranch)
      && d.matched.Some? && !d.matched.value.allowDelete
    ensures refusal == MayNotPush <==> !d.canPush
    ensures refusal == IsDefaultBranch <==> d.canPush && kind == Branch && name == defaultBranch
  {
    d := Evaluate(rules, kind, name, who, defaultPolicy, defaultPeople);
    if !d.canPush {
      refusal := MayNotPush;
    } else if kind == Branch && name == defaultBranch {
      refusal := IsDefaultBranch;
    } else if !d.allowDelete {
      refusal := MayNotDelete;
    } else {
      refusal := Allowed;
    }
  }
}
