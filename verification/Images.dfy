/** Which images of a worker host a prune may remove. Reasons are named, not worded. */
module Images {
  import opened Bytes
  import opened TextOrder

  /** One row per tag; an empty tag is a dangling image. `repo` is the normalized repository. */
  datatype Image = Image(repo: Text, tag: Text, id: Text, digests: seq<Text>, size: int, created: int, lastTag: int, inUse: bool)

  datatype Policy = Policy(keep: int, deployments: seq<Text>)

  datatype Facts = Facts(required: set<Text>, built: map<Text, Policy>, incomplete: bool)

  datatype Class = Required | Built | Other

  datatype Refusal = NotRefused | RequiredByPipeline | InUse | Dangling | Undeclared | FactsIncomplete | NewestKept | Deployed
                   | WithinNewest(keep: int)

  datatype Classified = Classified(image: Image, kind: Class, keep: int, deployed: bool, fallback: bool, withinKeep: bool,
                                   prunable: bool, refusal: Refusal)

  datatype PrunePlan = PrunePlan(remove: seq<Classified>, refuse: seq<Classified>, reclaimable: int)

  const COLON: byte := 58

  function NormalizedRef(image: Image): Text {
    if image.tag == [] then image.id else image.repo + [COLON] + image.tag
  }

  function TagForVersion(repo: Text, version: Text): Text {
    repo + [COLON] + version
  }

  /** A version names a tag of its repository. */
  lemma VersionNamesTag(image: Image, version: Text)
    requires image.tag != []
    ensures NormalizedRef(image) == TagForVersion(image.repo, version) <==> image.tag == version
  {
    var n := |image.repo| + 1;
    assert NormalizedRef(image)[n..] == image.tag;
    assert TagForVersion(image.repo, version)[n..] == version;
  }

  predicate RequiredByReference(image: Image, facts: Facts) {
    NormalizedRef(image) in facts.required
  }

  predicate RequiredByDigest(image: Image, facts: Facts) {
    exists i :: 0 <= i < |image.digests| && image.digests[i] in facts.required
  }

  /** required before built before other; a dangling image is other. */
  function ClassOf(image: Image, facts: Facts): Class {
    if image.tag == [] then Other
    else if RequiredByReference(image, facts) || RequiredByDigest(image, facts) then Required
    else if image.repo in facts.built then Built
    else Other
  }

  /** A required reference or digest names the tagged image. */
  ghost predicate Needed(image: Image, facts: Facts) {
    image.tag != []
    && (image.repo + [COLON] + image.tag in facts.required || exists k :: 0 <= k < |image.digests| && image.digests[k] in facts.required)
  }

  /** A tagged image of a declared repository that no pipeline requires. */
  ghost predicate BuiltHere(image: Image, facts: Facts) {
    image.tag != [] && image.repo in facts.built && !Needed(image, facts)
  }

  lemma ClassMeans(image: Image, facts: Facts)
    ensures ClassOf(image, facts) == Required <==> Needed(image, facts)
    ensures ClassOf(image, facts) == Built <==> BuiltHere(image, facts)
    ensures ClassOf(image, facts) == Other <==> image.tag == [] || (image.repo !in facts.built && !Needed(image, facts))
  {
  }

  /** The first pass of Classify, for one image. */
  function Basic(image: Image, facts: Facts): Classified {
    var kind := ClassOf(image, facts);
    Classified(image, kind, if kind == Built then facts.built[image.repo].keep else 0, false, false, false, false,
               if kind == Built && facts.incomplete then FactsIncomplete else NotRefused)
  }

  // ----- the retention order -----

  predicate NewerImage(a: Image, b: Image) {
    if a.created != b.created then a.created > b.created
    else if a.lastTag != b.lastTag then a.lastTag > b.lastTag
    else if a.tag != b.tag then Less(b.tag, a.tag)
    else Less(b.id, a.id)
  }

  /** Images are ranked by build time, then by the time of their last tag, then by tag, then
      by identifier, the larger one first. */
  lemma NewerImageMeans(a: Image, b: Image)
    ensures NewerImage(a, b) <==>
      || a.created > b.created
      || (a.created == b.created && a.lastTag > b.lastTag)
      || (a.created == b.created && a.lastTag == b.lastTag && SmallerAtFirstDifference(b.tag, a.tag))
      || (a.created == b.created && a.lastTag == b.lastTag && a.tag == b.tag && SmallerAtFirstDifference(b.id, a.id))
  {
    LessMeans(b.tag, a.tag);
    LessMeans(b.id, a.id);
    LessTotal(b.tag, a.tag);
  }

  /** Newest first; a stable sort keeps the inventory's order between equals. */
  predicate Before(images: seq<Image>, a: nat, b: nat)
    requires a < |images| && b < |images|
  {
    NewerImage(images[a], images[b]) || (!NewerImage(images[b], images[a]) && a < b)
  }

  lemma NewerImageOrder(a: Image, b: Image, c: Image)
    ensures !(NewerImage(a, b) && NewerImage(b, a))
    ensures NewerImage(a, b) && NewerImage(b, c) ==> NewerImage(a, c)
    ensures !NewerImage(a, b) && !NewerImage(b, a) ==> (NewerImage(a, c) <==> NewerImage(b, c)) && (NewerImage(c, a) <==> NewerImage(c, b))
  {
    LessTotal(a.tag, b.tag);
    LessTotal(a.id, b.id);
    if Less(c.tag, b.tag) && Less(b.tag, a.tag) {
      LessTransitive(c.tag, b.tag, a.tag);
    }
    if Less(c.id, b.id) && Less(b.id, a.id) {
      LessTransitive(c.id, b.id, a.id);
    }
  }

  lemma BeforeIsStrictTotalOrder(images: seq<Image>, a: nat, b: nat, c: nat)
    requires a < |images| && b < |images| && c < |images|
    ensures a != b <==> Before(images, a, b) || Before(images, b, a)
    ensures !(Before(images, a, b) && Before(images, b, a))
    ensures Before(images, a, b) && Before(images, b, c) ==> Before(images, a, c)
  {
    NewerImageOrder(images[a], images[b], images[c]);
    NewerImageOrder(images[b], images[c], images[a]);
    NewerImageOrder(images[c], images[a], images[b]);
    NewerImageOrder(images[a], images[a], images[a]);
  }

  ghost predicate InRange(images: seq<Image>, s: seq<nat>) {
    forall i :: 0 <= i < |s| ==> s[i] < |images|
  }

  ghost predicate Ordered(images: seq<Image>, s: seq<nat>) {
    InRange(images, s) && forall i, j :: 0 <= i < j < |s| ==> Before(images, s[i], s[j])
  }

  ghost predicate Distinct(s: seq<nat>) {
    forall i, j :: 0 <= i < j < |s| ==> s[i] != s[j]
  }

  /** Inserts an index behind the last one it does not come before. */
  function Place(images: seq<Image>, s: seq<nat>, x: nat): (r: seq<nat>)
    requires x < |images| && forall i :: 0 <= i < |s| ==> s[i] < |images|
    ensures forall i :: 0 <= i < |r| ==> r[i] < |images|
  {
    if s == [] then [x]
    else
      var n := |s| - 1;
      if Before(images, x, s[n]) then Place(images, s[..n], x) + [s[n]] else s + [x]
  }

  lemma {:induction false} PlaceOrders(images: seq<Image>, s: seq<nat>, x: nat)
    requires x < |images| && Ordered(images, s) && x !in s
    ensures Ordered(images, Place(images, s, x))
    ensures forall y :: y in Place(images, s, x) <==> y == x || y in s
  {
    if s != [] {
      var n := |s| - 1;
      if Before(images, x, s[n]) {
        PlaceOrders(images, s[..n], x);
        var r := Place(images, s[..n], x);
        forall i | 0 <= i < |r| ensures Before(images, r[i], s[n]) {
          assert r[i] in r;
        }
        assert s == s[..n] + [s[n]];
      } else {
        forall i | 0 <= i < |s| ensures Before(images, s[i], x) {
          BeforeIsStrictTotalOrder(images, s[n], x, x);
          BeforeIsStrictTotalOrder(images, s[i], s[n], x);
        }
      }
    }
  }

  /** sort.SliceStable of a repository's indices. */
  function Order(images: seq<Image>, group: seq<nat>): (r: seq<nat>)
    requires forall i :: 0 <= i < |group| ==> group[i] < |images|
    ensures forall i :: 0 <= i < |r| ==> r[i] < |images|
  {
    if group == [] then [] else Place(images, Order(images, group[..|group| - 1]), group[|group| - 1])
  }

  lemma {:induction false} OrderSorts(images: seq<Image>, group: seq<nat>)
    requires InRange(images, group) && Distinct(group)
    ensures Ordered(images, Order(images, group)) && Distinct(Order(images, group))
    ensures forall x :: x in Order(images, group) <==> x in group
  {
    if group != [] {
      var n := |group| - 1;
      OrderSorts(images, group[..n]);
      assert group[n] !in group[..n];
      PlaceOrders(images, Order(images, group[..n]), group[n]);
      assert group == group[..n] + [group[n]];
    }
    var s := Order(images, group);
    forall i, j | 0 <= i < j < |s| ensures s[i] != s[j] {
      BeforeIsStrictTotalOrder(images, s[i], s[j], s[i]);
    }
  }

  // ----- what Classify should say -----

  predicate BuiltIn(images: seq<Image>, facts: Facts, repo: Text, i: nat) {
    i < |images| && images[i].repo == repo && ClassOf(images[i], facts) == Built
  }

  /** The built images of a repository among the first `n`, in inventory order. */
  function Group(images: seq<Image>, facts: Facts, repo: Text, n: nat): (g: seq<nat>)
    requires n <= |images|
    ensures forall i :: 0 <= i < |g| ==> g[i] < n
  {
    if n == 0 then []
    else if BuiltIn(images, facts, repo, n - 1) then Group(images, facts, repo, n - 1) + [n - 1]
    else Group(images, facts, repo, n - 1)
  }

  lemma {:induction false} GroupLists(images: seq<Image>, facts: Facts, repo: Text, n: nat)
    requires n <= |images|
    ensures Distinct(Group(images, facts, repo, n))
    ensures forall i: nat :: i in Group(images, facts, repo, n) <==> i < n && BuiltIn(images, facts, repo, i)
  {
    if n > 0 {
      GroupLists(images, facts, repo, n - 1);
    }
  }

  /** A repository's built images, newest first. */
  function Newest(images: seq<Image>, facts: Facts, repo: Text): (s: seq<nat>)
    ensures forall i :: 0 <= i < |s| ==> s[i] < |images|
  {
    Order(images, Group(images, facts, repo, |images|))
  }

  /** It lists each of them once, in the retention order. */
  lemma NewestLists(images: seq<Image>, facts: Facts, repo: Text)
    ensures Ordered(images, Newest(images, facts, repo)) && Distinct(Newest(images, facts, repo))
    ensures forall i: nat :: i in Newest(images, facts, repo) <==> BuiltIn(images, facts, repo, i)
  {
    GroupLists(images, facts, repo, |images|);
    OrderSorts(images, Group(images, facts, repo, |images|));
  }

  predicate Names(image: Image, repo: Text, version: Text) {
    NormalizedRef(image) == TagForVersion(repo, version)
  }

  /** One of the first `n` versions names the image. */
  predicate NamedBySome(image: Image, repo: Text, versions: seq<Text>, n: nat)
    requires n <= |versions|
  {
    exists v :: 0 <= v < n && Names(image, repo, versions[v])
  }

  /** No built image of the repository carries the version's tag. */
  ghost predicate Unmatched(images: seq<Image>, facts: Facts, repo: Text, version: Text) {
    forall i: nat :: BuiltIn(images, facts, repo, i) ==> !Names(images[i], repo, version)
  }

  ghost predicate SomeUnmatched(images: seq<Image>, facts: Facts, repo: Text, versions: seq<Text>) {
    exists v :: 0 <= v < |versions| && Unmatched(images, facts, repo, versions[v])
  }

  /** A built image at rank `r`: kept by rank, deployed by name, or kept for a deployment
      no tag names. */
  ghost function Ranked(images: seq<Image>, facts: Facts, repo: Text, r: nat): Classified
    requires r < |Newest(images, facts, repo)| && repo in facts.built
  {
    var s, policy := Newest(images, facts, repo), facts.built[repo];
    var image := images[s[r]];
    var fallback := r == 0 && SomeUnmatched(images, facts, repo, policy.deployments);
    Basic(image, facts).(withinKeep := r < policy.keep, deployed := NamedBySome(image, repo, policy.deployments, |policy.deployments|) || fallback,
                         fallback := fallback)
  }

  ghost predicate WellClassified(images: seq<Image>, facts: Facts, out: seq<Classified>) {
    && |out| == |images|
    && (forall i :: 0 <= i < |images| && ClassOf(images[i], facts) != Built ==> out[i] == Basic(images[i], facts))
    && (forall repo, r :: repo in facts.built && 0 <= r < |Newest(images, facts, repo)| ==>
          out[Newest(images, facts, repo)[r]] == Ranked(images, facts, repo, r))
  }

  // ----- Classify -----

  /** The index after `n` images: the non-empty groups by repository. */
  ghost predicate Grouped(images: seq<Image>, facts: Facts, n: nat, byRepo: map<Text, seq<nat>>)
    requires n <= |images|
  {
    && (forall repo :: repo in byRepo ==> byRepo[repo] == Group(images, facts, repo, n) && byRepo[repo] != [])
    && (forall repo :: repo !in byRepo ==> Group(images, facts, repo, n) == [])
  }

  lemma GroupedOneMore(images: seq<Image>, facts: Facts, n: nat, byRepo: map<Text, seq<nat>>)
    requires n < |images| && Grouped(images, facts, n, byRepo)
    ensures var repo := images[n].repo;
            var grown := byRepo[repo := (if repo in byRepo then byRepo[repo] else []) + [n]];
            Grouped(images, facts, n + 1, if ClassOf(images[n], facts) == Built then grown else byRepo)
  {
  }

  /** The first pass: every image's class, and the built ones by repository. */
  method FirstPass(images: seq<Image>, facts: Facts) returns (out: seq<Classified>, byRepo: map<Text, seq<nat>>)
    ensures |out| == |images| && forall i :: 0 <= i < |images| ==> out[i] == Basic(images[i], facts)
    ensures Grouped(images, facts, |images|, byRepo)
  {
    out, byRepo := [], map[];
    for i := 0 to |images|
      invariant |out| == i && forall j :: 0 <= j < i ==> out[j] == Basic(images[j], facts)
      invariant Grouped(images, facts, i, byRepo)
    {
      var classified := Basic(images[i], facts);
      GroupedOneMore(images, facts, i, byRepo);
      if classified.kind == Built {
        var repo := images[i].repo;
        byRepo := byRepo[repo := (if repo in byRepo then byRepo[repo] else []) + [i]];
      }
      out := out + [classified];
    }
  }

  method MarkKept(out: seq<Classified>, indices: seq<nat>, keep: int) returns (marked: seq<Classified>)
    requires Distinct(indices) && forall r :: 0 <= r < |indices| ==> indices[r] < |out|
    ensures |marked| == |out|
    ensures forall r :: 0 <= r < |indices| ==> marked[indices[r]] == out[indices[r]].(withinKeep := r < keep)
    ensures forall i :: 0 <= i < |out| && i !in indices ==> marked[i] == out[i]
  {
    marked := out;
    for rank := 0 to |indices|
      invariant |marked| == |out|
      invariant forall r :: 0 <= r < rank ==> marked[indices[r]] == out[indices[r]].(withinKeep := r < keep)
      invariant forall r :: rank <= r < |indices| ==> marked[indices[r]] == out[indices[r]]
      invariant forall i :: 0 <= i < |out| && i !in indices ==> marked[i] == out[i]
    {
      marked := marked[indices[rank] := marked[indices[rank]].(withinKeep := rank < keep)];
    }
  }

  ghost function Elements(s: seq<nat>): set<nat> {
    set x | x in s
  }

  /** `marked` is `out` with the images of `chosen` the version names marked deployed. */
  ghost predicate Marks(out: seq<Classified>, marked: seq<Classified>, chosen: set<nat>, repo: Text, version: Text) {
    && |marked| == |out|
    && (forall i :: 0 <= i < |out| ==>
          marked[i] == if i in chosen && Names(out[i].image, repo, version) then out[i].(deployed := true) else out[i])
  }

  ghost predicate NoneNames(out: seq<Classified>, chosen: set<nat>, repo: Text, version: Text) {
    forall i :: i in chosen && i < |out| ==> !Names(out[i].image, repo, version)
  }

  /** Marks the images one version names. */
  method MarkVersion(out: seq<Classified>, indices: seq<nat>, repo: Text, version: Text)
    returns (marked: seq<Classified>, matched: bool)
    requires Distinct(indices) && forall r :: 0 <= r < |indices| ==> indices[r] < |out|
    ensures Marks(out, marked, Elements(indices), repo, version)
    ensures matched <==> !NoneNames(out, Elements(indices), repo, version)
  {
    marked, matched := out, false;
    ghost var done: set<nat> := {};
    for k := 0 to |indices|
      invariant forall r :: 0 <= r < |indices| ==> (indices[r] in done <==> r < k)
      invariant done <= Elements(indices)
      invariant Marks(out, marked, done, repo, version)
      invariant matched <==> !NoneNames(out, done, repo, version)
    {
      var index := indices[k];
      if Names(marked[index].image, repo, version) {
        marked := marked[index := marked[index].(deployed := true)];
        matched := true;
      }
      done := done + {index};
    }
    assert done == Elements(indices);
  }

  /** `marked` is `out` with the images of `chosen` marked deployed that some version names. */
  ghost predicate MarksAll(out: seq<Classified>, marked: seq<Classified>, chosen: set<nat>, repo: Text, versions: seq<Text>, n: nat)
    requires n <= |versions|
  {
    && |marked| == |out|
    && (forall i :: 0 <= i < |out| ==>
          marked[i] == if i in chosen && NamedBySome(out[i].image, repo, versions, n) then out[i].(deployed := true) else out[i])
  }

  lemma MarksOneMore(out: seq<Classified>, mid: seq<Classified>, marked: seq<Classified>, chosen: set<nat>, repo: Text,
                     versions: seq<Text>, v: nat)
    requires v < |versions| && MarksAll(out, mid, chosen, repo, versions, v) && Marks(mid, marked, chosen, repo, versions[v])
    ensures MarksAll(out, marked, chosen, repo, versions, v + 1)
    ensures NoneNames(mid, chosen, repo, versions[v]) <==> NoneNames(out, chosen, repo, versions[v])
  {
    forall i | 0 <= i < |out|
      ensures marked[i] == if i in chosen && NamedBySome(out[i].image, repo, versions, v + 1) then out[i].(deployed := true) else out[i]
    {
      assert mid[i].image == out[i].image;
    }
  }

  /** Marks the images the recorded versions name; tells whether some version names none. */
  method MarkDeployed(out: seq<Classified>, indices: seq<nat>, repo: Text, versions: seq<Text>)
    returns (marked: seq<Classified>, unmatched: bool)
    requires Distinct(indices) && forall r :: 0 <= r < |indices| ==> indices[r] < |out|
    ensures MarksAll(out, marked, Elements(indices), repo, versions, |versions|)
    ensures unmatched <==> exists v :: 0 <= v < |versions| && NoneNames(out, Elements(indices), repo, versions[v])
  {
    marked, unmatched := out, false;
    for v := 0 to |versions|
      invariant MarksAll(out, marked, Elements(indices), repo, versions, v)
      invariant unmatched <==> exists u :: 0 <= u < v && NoneNames(out, Elements(indices), repo, versions[u])
    {
      var matched;
      ghost var before := marked;
      marked, matched := MarkVersion(marked, indices, repo, versions[v]);
      MarksOneMore(out, before, marked, Elements(indices), repo, versions, v);
      unmatched := unmatched || !matched;
    }
  }

  /** sort.SliceStable of the collected indices. */
  method SortIndices(images: seq<Image>, group: seq<nat>) returns (sorted: seq<nat>)
    requires InRange(images, group)
    ensures sorted == Order(images, group)
  {
    sorted := [];
    for i := 0 to |group|
      invariant sorted == Order(images, group[..i])
    {
      assert group[..i + 1][..i] == group[..i];
      sorted := Place(images, sorted, group[i]);
    }
    assert group[..|group|] == group;
  }

  /** One repository's built images, sorted and marked. */
  method MarkGroup(images: seq<Image>, facts: Facts, repo: Text, group: seq<nat>, out: seq<Classified>)
    returns (marked: seq<Classified>)
    requires repo in facts.built && |out| == |images| && group == Group(images, facts, repo, |images|)
    requires forall i: nat :: BuiltIn(images, facts, repo, i) ==> out[i] == Basic(images[i], facts)
    requires Newest(images, facts, repo) != []
    ensures |marked| == |out|
    ensures forall r :: 0 <= r < |Newest(images, facts, repo)| ==> marked[Newest(images, facts, repo)[r]] == Ranked(images, facts, repo, r)
    ensures forall i :: 0 <= i < |out| && !BuiltIn(images, facts, repo, i) ==> marked[i] == out[i]
  {
    var policy := facts.built[repo];
    var indices := SortIndices(images, group);
    NewestLists(images, facts, repo);
    var kept := MarkKept(out, indices, policy.keep);
    var unmatched;
    marked, unmatched := MarkDeployed(kept, indices, repo, policy.deployments);
    UnmatchedAgree(images, facts, repo, kept, policy.deployments);
    ghost var named := marked;
    if unmatched {
      marked := marked[indices[0] := marked[indices[0]].(deployed := true, fallback := true)];
    }
    forall r | 0 <= r < |indices| ensures marked[indices[r]] == Ranked(images, facts, repo, r) {
      assert indices[r] in indices;
      RankedIs(images, facts, repo, r, kept[indices[r]], named[indices[r]], unmatched);
    }
  }

  lemma RankedIs(images: seq<Image>, facts: Facts, repo: Text, r: nat, kept: Classified, named: Classified, unmatched: bool)
    requires repo in facts.built && r < |Newest(images, facts, repo)|
    requires var policy := facts.built[repo];
             && kept == Basic(images[Newest(images, facts, repo)[r]], facts).(withinKeep := r < policy.keep)
             && named == (if NamedBySome(kept.image, repo, policy.deployments, |policy.deployments|) then kept.(deployed := true) else kept)
             && unmatched == SomeUnmatched(images, facts, repo, policy.deployments)
    ensures Ranked(images, facts, repo, r) == if r == 0 && unmatched then named.(deployed := true, fallback := true) else named
  {
  }

  lemma UnmatchedAgree(images: seq<Image>, facts: Facts, repo: Text, kept: seq<Classified>, versions: seq<Text>)
    requires |kept| == |images|
    requires forall i: nat :: BuiltIn(images, facts, repo, i) ==> kept[i].image == images[i]
    ensures SomeUnmatched(images, facts, repo, versions)
            <==> exists v :: 0 <= v < |versions| && NoneNames(kept, Elements(Newest(images, facts, repo)), repo, versions[v])
  {
    NewestLists(images, facts, repo);
    forall v | 0 <= v < |versions|
      ensures Unmatched(images, facts, repo, versions[v]) <==> NoneNames(kept, Elements(Newest(images, facts, repo)), repo, versions[v])
    {
    }
  }

  /** Gives every image its class and marks what retention and deployments keep. */
  method Classify(images: seq<Image>, facts: Facts) returns (out: seq<Classified>)
    ensures WellClassified(images, facts, out)
  {
    var byRepo;
    out, byRepo := FirstPass(images, facts);
    var rest := byRepo.Keys;
    while rest != {}
      invariant rest <= byRepo.Keys && |out| == |images|
      invariant forall i :: 0 <= i < |images| && (ClassOf(images[i], facts) != Built || images[i].repo in rest) ==>
        out[i] == Basic(images[i], facts)
      invariant forall repo, r :: repo in byRepo && repo !in rest && repo in facts.built && 0 <= r < |Newest(images, facts, repo)| ==>
        out[Newest(images, facts, repo)[r]] == Ranked(images, facts, repo, r)
      decreases rest
    {
      var repo :| repo in rest;
      GroupIsNewest(images, facts, repo);
      ghost var before := out;
      out := MarkGroup(images, facts, repo, byRepo[repo], out);
      forall other, r | other in byRepo && other !in rest && other in facts.built && 0 <= r < |Newest(images, facts, other)|
        ensures out[Newest(images, facts, other)[r]] == Ranked(images, facts, other, r)
      {
        NewestLists(images, facts, other);
        assert BuiltIn(images, facts, other, Newest(images, facts, other)[r]);
      }
      rest := rest - {repo};
    }
    forall repo | Newest(images, facts, repo) != [] ensures repo in byRepo {
      NewestLists(images, facts, repo);
      GroupLists(images, facts, repo, |images|);
      assert Newest(images, facts, repo)[0] in Group(images, facts, repo, |images|);
    }
  }

  lemma GroupIsNewest(images: seq<Image>, facts: Facts, repo: Text)
    requires Group(images, facts, repo, |images|) != []
    ensures Newest(images, facts, repo) != [] && repo in facts.built
  {
    NewestLists(images, facts, repo);
    GroupLists(images, facts, repo, |images|);
    var i := Group(images, facts, repo, |images|)[0];
    assert i in Group(images, facts, repo, |images|);
    assert BuiltIn(images, facts, repo, i);
    assert i in Newest(images, facts, repo);
  }

  // ----- PlanPrune -----

  /** Why an image stays, or that it goes. */
  function Decide(c: Classified): Classified {
    var refusal :=
      if c.kind == Required then RequiredByPipeline
      else if c.image.inUse then InUse
      else if c.kind == Other then (if c.image.tag == [] then Dangling else Undeclared)
      else if c.refusal != NotRefused then c.refusal
      else if c.deployed && c.fallback then NewestKept
      else if c.deployed then Deployed
      else if c.withinKeep then WithinNewest(c.keep)
      else NotRefused;
    c.(refusal := refusal, prunable := refusal == NotRefused)
  }

  /** The decided images with the given outcome, in inventory order. */
  function Outcome(images: seq<Classified>, prunable: bool): seq<Classified> {
    if images == [] then []
    else
      var n := |images| - 1;
      Outcome(images[..n], prunable) + if Decide(images[n]).prunable == prunable then [Decide(images[n])] else []
  }

  function Decided(images: seq<Classified>): (d: seq<Classified>)
    ensures |d| == |images| && forall i :: 0 <= i < |d| ==> d[i] == Decide(images[i])
  {
    seq(|images|, i requires 0 <= i < |images| => Decide(images[i]))
  }

  /** The outcomes split the inventory: nothing is lost, nothing duplicated. */
  lemma {:induction false} OutcomesSplit(images: seq<Classified>)
    ensures multiset(Outcome(images, true)) + multiset(Outcome(images, false)) == multiset(Decided(images))
    ensures forall c :: c in Outcome(images, true) ==> c.prunable
    ensures forall c :: c in Outcome(images, false) ==> !c.prunable
  {
    if images != [] {
      var n := |images| - 1;
      OutcomesSplit(images[..n]);
      assert Decided(images) == Decided(images[..n]) + [Decide(images[n])];
    } else {
      assert Decided(images) == [];
    }
  }

  function Sizes(images: seq<Classified>): int {
    if images == [] then 0 else Sizes(images[..|images| - 1]) + images[|images| - 1].image.size
  }

  lemma {:induction false} SizesAppend(a: seq<Classified>, b: seq<Classified>)
    ensures Sizes(a + b) == Sizes(a) + Sizes(b)
  {
    if b == [] {
      assert a + b == a;
    } else {
      var n := |b| - 1;
      SizesAppend(a, b[..n]);
      assert (a + b)[..|a + b| - 1] == a + b[..n];
    }
  }

  predicate Precedes(a: Image, b: Image) {
    if a.repo != b.repo then Less(a.repo, b.repo)
    else if a.tag != b.tag then Less(a.tag, b.tag)
    else Less(a.id, b.id)
  }

  /** A plan lists images by repository, then tag, then identifier. */
  lemma PrecedesMeans(a: Image, b: Image)
    ensures Precedes(a, b) <==>
      || SmallerAtFirstDifference(a.repo, b.repo)
      || (a.repo == b.repo && SmallerAtFirstDifference(a.tag, b.tag))
      || (a.repo == b.repo && a.tag == b.tag && SmallerAtFirstDifference(a.id, b.id))
  {
    LessMeans(a.repo, b.repo);
    LessMeans(a.tag, b.tag);
    LessMeans(a.id, b.id);
    LessTotal(a.repo, b.repo);
    LessTotal(a.tag, b.tag);
  }

  ghost predicate InOrder(s: seq<Classified>) {
    forall i, j :: 0 <= i < j < |s| ==> !Precedes(s[j].image, s[i].image)
  }

  lemma PrecedesOrder(a: Image, b: Image, c: Image)
    ensures !(Precedes(a, b) && Precedes(b, a))
    ensures !Precedes(b, a) && !Precedes(c, b) ==> !Precedes(c, a)
  {
    LessTotal(a.repo, b.repo);
    LessTotal(b.repo, c.repo);
    LessTotal(a.repo, c.repo);
    LessTotal(a.tag, b.tag);
    LessTotal(b.tag, c.tag);
    LessTotal(a.tag, c.tag);
    LessTotal(a.id, b.id);
    LessTotal(b.id, c.id);
    LessTotal(a.id, c.id);
    if Less(a.repo, b.repo) && Less(b.repo, c.repo) {
      LessTransitive(a.repo, b.repo, c.repo);
    }
    if Less(a.tag, b.tag) && Less(b.tag, c.tag) {
      LessTransitive(a.tag, b.tag, c.tag);
    }
    if Less(a.id, b.id) && Less(b.id, c.id) {
      LessTransitive(a.id, b.id, c.id);
    }
  }

  method Insert(s: seq<Classified>, c: Classified) returns (r: seq<Classified>)
    requires InOrder(s)
    ensures InOrder(r) && multiset(r) == multiset(s) + multiset{c} && Sizes(r) == Sizes(s) + c.image.size
  {
    var i := |s|;
    while i > 0 && Precedes(c.image, s[i - 1].image)
      invariant 0 <= i <= |s|
      invariant forall j :: i <= j < |s| ==> Precedes(c.image, s[j].image)
    {
      i := i - 1;
    }
    r := s[..i] + [c] + s[i..];
    InsertInOrder(s, c, i);
    InsertAdds(s, c, i);
  }

  lemma InsertAdds(s: seq<Classified>, c: Classified, i: nat)
    requires i <= |s|
    ensures multiset(s[..i] + [c] + s[i..]) == multiset(s) + multiset{c}
    ensures Sizes(s[..i] + [c] + s[i..]) == Sizes(s) + c.image.size
  {
    var a, b := s[..i], s[i..];
    assert s == a + b;
    SizesAround(a, c, b);
  }

  lemma SizesAround(a: seq<Classified>, c: Classified, b: seq<Classified>)
    ensures Sizes(a + [c] + b) == Sizes(a + b) + c.image.size
  {
    SizesAppend(a, b);
    SizesAppend(a, [c]);
    SizesAppend(a + [c], b);
    assert Sizes([c]) == c.image.size;
  }

  lemma InsertInOrder(s: seq<Classified>, c: Classified, i: nat)
    requires InOrder(s) && i <= |s| && (i == 0 || !Precedes(c.image, s[i - 1].image))
    requires forall j :: i <= j < |s| ==> Precedes(c.image, s[j].image)
    ensures InOrder(s[..i] + [c] + s[i..])
  {
    forall j | 0 <= j < i ensures !Precedes(c.image, s[j].image) {
      if j < i - 1 {
        assert !Precedes(s[i - 1].image, s[j].image);
        PrecedesOrder(s[j].image, s[i - 1].image, c.image);
      }
    }
    forall j | i <= j < |s| ensures !Precedes(s[j].image, c.image) {
      PrecedesOrder(c.image, s[j].image, c.image);
    }
  }

  method SortClassified(images: seq<Classified>) returns (sorted: seq<Classified>)
    ensures InOrder(sorted) && multiset(sorted) == multiset(images) && Sizes(sorted) == Sizes(images)
  {
    sorted := [];
    for i := 0 to |images|
      invariant InOrder(sorted) && multiset(sorted) == multiset(images[..i]) && Sizes(sorted) == Sizes(images[..i])
    {
      sorted := Insert(sorted, images[i]);
      assert images[..i + 1] == images[..i] + [images[i]];
      assert images[..i + 1][..i] == images[..i];
    }
    assert images[..|images|] == images;
  }

  /** Splits the images into those a prune removes and those it refuses, and adds up what
      the removed ones occupy. */
  method PlanPrune(images: seq<Classified>) returns (plan: PrunePlan)
    ensures multiset(plan.remove) == multiset(Outcome(images, true)) && multiset(plan.refuse) == multiset(Outcome(images, false))
    ensures InOrder(plan.remove) && InOrder(plan.refuse)
    ensures plan.reclaimable == Sizes(plan.remove)
  {
    var remove, refuse, bytes := [], [], 0;
    for i := 0 to |images|
      invariant remove == Outcome(images[..i], true) && refuse == Outcome(images[..i], false) && bytes == Sizes(remove)
    {
      var image := images[i];
      image := image.(prunable := false);
      if image.kind == Required {
        image := image.(refusal := RequiredByPipeline);
      } else if image.image.inUse {
        image := image.(refusal := InUse);
      } else if image.kind == Other && image.image.tag == [] {
        image := image.(refusal := Dangling);
      } else if image.kind == Other {
        image := image.(refusal := Undeclared);
      } else if image.refusal != NotRefused {
      } else if image.deployed && image.fallback {
        image := image.(refusal := NewestKept);
      } else if image.deployed {
        image := image.(refusal := Deployed);
      } else if image.withinKeep {
        image := image.(refusal := WithinNewest(image.keep));
      } else {
        image := image.(prunable := true);
      }
      assert images[..i + 1][..i] == images[..i];
      assert image == Decide(images[i]);
      if image.prunable {
        remove := remove + [image];
        bytes := bytes + image.image.size;
      } else {
        refuse := refuse + [image];
      }
    }
    assert images[..|images|] == images;
    var removed := SortClassified(remove);
    var refused := SortClassified(refuse);
    return PrunePlan(removed, refused, bytes);
  }

  // ----- what a prune never does -----

  /** Where a built image stands in its repository. */
  lemma BuiltHasRank(images: seq<Image>, facts: Facts, i: nat) returns (r: nat)
    requires i < |images| && ClassOf(images[i], facts) == Built
    ensures images[i].repo in facts.built && r < |Newest(images, facts, images[i].repo)| && Newest(images, facts, images[i].repo)[r] == i
  {
    NewestLists(images, facts, images[i].repo);
    assert BuiltIn(images, facts, images[i].repo, i);
    r :| 0 <= r < |Newest(images, facts, images[i].repo)| && Newest(images, facts, images[i].repo)[r] == i;
  }

  /** The images a prune removes: built here, unused, beyond the newest `keep`, named by no
      deployment and not the stand-in for one, and only with complete facts. */
  ghost predicate Goes(images: seq<Image>, facts: Facts, i: nat)
    requires i < |images|
  {
    && ClassOf(images[i], facts) == Built && !images[i].inUse && !facts.incomplete
    && var repo := images[i].repo;
    && i !in FirstOf(Newest(images, facts, repo), facts.built[repo].keep)
    && !NamedBySome(images[i], repo, facts.built[repo].deployments, |facts.built[repo].deployments|)
    && !(SomeUnmatched(images, facts, repo, facts.built[repo].deployments) && FirstOf(Newest(images, facts, repo), 1) == [i])
  }

  /** An image goes exactly when the facts are complete, no container uses it, it is built
      here, not among the newest, named by no deployment and not the stand-in for one. */
  lemma RemovedExactly(images: seq<Image>, facts: Facts, out: seq<Classified>, i: nat)
    requires WellClassified(images, facts, out) && i < |images|
    ensures Decide(out[i]).prunable <==> Goes(images, facts, i)
  {
    if ClassOf(images[i], facts) == Built {
      var repo := images[i].repo;
      var r := BuiltHasRank(images, facts, i);
      assert out[i] == Ranked(images, facts, repo, r);
      NewestLists(images, facts, repo);
      FirstByRank(Newest(images, facts, repo), facts.built[repo].keep, r);
    }
  }

  /** Some deployment was of a tag that no built image of the repository has. */
  ghost predicate SomeTagGone(images: seq<Image>, facts: Facts, repo: Text)
    requires repo in facts.built
  {
    exists v :: 0 <= v < |facts.built[repo].deployments| && TagGone(images, facts, repo, facts.built[repo].deployments[v])
  }

  ghost predicate TagGone(images: seq<Image>, facts: Facts, repo: Text, tag: Text) {
    forall j: nat :: j < |images| && BuiltHere(images[j], facts) && images[j].repo == repo ==> images[j].tag != tag
  }

  ghost predicate TagDeployed(tag: Text, deployments: seq<Text>) {
    exists v :: 0 <= v < |deployments| && deployments[v] == tag
  }

  /** The reason given for an image, each if and only if: a pipeline requires it; else a
      container uses it; else it is untagged, or not built here, or the facts are incomplete;
      else it stands in for a deployment of a tag that is gone, or its tag was deployed, or it
      is among the newest that are kept. */
  ghost predicate Explained(images: seq<Image>, facts: Facts, i: nat, refusal: Refusal)
    requires i < |images|
  {
    var image := images[i];
    && (refusal == RequiredByPipeline <==> Needed(image, facts))
    && (refusal == InUse <==> image.inUse && !Needed(image, facts))
    && (refusal == Dangling <==> !image.inUse && image.tag == [])
    && (refusal == Undeclared <==> !image.inUse && image.tag != [] && !Needed(image, facts) && image.repo !in facts.built)
    && (refusal == FactsIncomplete <==> BuiltHere(image, facts) && !image.inUse && facts.incomplete)
    && (refusal.NewestKept? || refusal.Deployed? || refusal.WithinNewest? || refusal.NotRefused? <==>
          BuiltHere(image, facts) && !image.inUse && !facts.incomplete)
    && (BuiltHere(image, facts) && !image.inUse && !facts.incomplete ==> Retained(images, facts, i, refusal))
  }

  ghost predicate Retained(images: seq<Image>, facts: Facts, i: nat, refusal: Refusal)
    requires i < |images| && images[i].repo in facts.built
  {
    var repo := images[i].repo;
    var standsIn := SomeTagGone(images, facts, repo) && FirstOf(Newest(images, facts, repo), 1) == [i];
    var deployed := TagDeployed(images[i].tag, facts.built[repo].deployments);
    var recent := i in FirstOf(Newest(images, facts, repo), facts.built[repo].keep);
    && (refusal == NewestKept <==> standsIn)
    && (refusal == Deployed <==> deployed && !standsIn)
    && (refusal == WithinNewest(facts.built[repo].keep) <==> recent && !deployed && !standsIn)
    && (refusal == NotRefused <==> !recent && !deployed && !standsIn)
  }

  lemma TagGoneMeans(images: seq<Image>, facts: Facts, repo: Text, tag: Text)
    ensures TagGone(images, facts, repo, tag) <==> Unmatched(images, facts, repo, tag)
  {
    forall j: nat | j < |images| && images[j].repo == repo && images[j].tag != []
      ensures BuiltIn(images, facts, repo, j) <==> BuiltHere(images[j], facts)
      ensures Names(images[j], repo, tag) <==> images[j].tag == tag
    {
      ClassMeans(images[j], facts);
      VersionNamesTag(images[j], tag);
    }
  }

  lemma SomeTagGoneMeans(images: seq<Image>, facts: Facts, repo: Text)
    requires repo in facts.built
    ensures SomeTagGone(images, facts, repo) <==> SomeUnmatched(images, facts, repo, facts.built[repo].deployments)
  {
    var versions := facts.built[repo].deployments;
    forall v | 0 <= v < |versions| ensures TagGone(images, facts, repo, versions[v]) <==> Unmatched(images, facts, repo, versions[v]) {
      TagGoneMeans(images, facts, repo, versions[v]);
    }
  }

  lemma TagDeployedMeans(image: Image, versions: seq<Text>)
    requires image.tag != []
    ensures TagDeployed(image.tag, versions) <==> NamedBySome(image, image.repo, versions, |versions|)
  {
    forall v | 0 <= v < |versions| ensures Names(image, image.repo, versions[v]) <==> image.tag == versions[v] {
      VersionNamesTag(image, versions[v]);
    }
  }

  lemma RetainedMeans(images: seq<Image>, facts: Facts, i: nat, r: nat)
    requires i < |images| && BuiltHere(images[i], facts) && !images[i].inUse && !facts.incomplete
    requires r < |Newest(images, facts, images[i].repo)| && Newest(images, facts, images[i].repo)[r] == i
    ensures Retained(images, facts, i, Decide(Ranked(images, facts, images[i].repo, r)).refusal)
  {
    var repo := images[i].repo;
    ClassMeans(images[i], facts);
    NewestLists(images, facts, repo);
    FirstByRank(Newest(images, facts, repo), facts.built[repo].keep, r);
    SomeTagGoneMeans(images, facts, repo);
    TagDeployedMeans(images[i], facts.built[repo].deployments);
  }

  /** Every refusal gives the reason that holds. */
  lemma RefusalIsExplained(images: seq<Image>, facts: Facts, out: seq<Classified>, i: nat)
    requires WellClassified(images, facts, out) && i < |images|
    ensures Explained(images, facts, i, Decide(out[i]).refusal)
  {
    ClassMeans(images[i], facts);
    if ClassOf(images[i], facts) == Built {
      var r := BuiltHasRank(images, facts, i);
      assert out[i] == Ranked(images, facts, images[i].repo, r);
      if !images[i].inUse && !facts.incomplete {
        RetainedMeans(images, facts, i, r);
      }
    }
  }

  /** Each row of the list shows an image of the inventory and the reason that holds for it. */
  ghost predicate AllExplained(images: seq<Image>, facts: Facts, rows: seq<Classified>) {
    forall k :: 0 <= k < |rows| ==> ExplainedRow(images, facts, rows[k])
  }

  ghost predicate ExplainedRow(images: seq<Image>, facts: Facts, row: Classified) {
    exists i: nat :: i < |images| && images[i] == row.image && Explained(images, facts, i, row.refusal)
  }

  lemma {:induction false} OutcomeRow(out: seq<Classified>, prunable: bool, c: Classified) returns (i: nat)
    requires c in Outcome(out, prunable)
    ensures i < |out| && c == Decide(out[i])
  {
    var n := |out| - 1;
    if c == Decide(out[n]) {
      i := n;
    } else {
      i := OutcomeRow(out[..n], prunable, c);
    }
  }

  lemma PlanExplains(images: seq<Image>, facts: Facts, out: seq<Classified>, rows: seq<Classified>, prunable: bool)
    requires WellClassified(images, facts, out) && multiset(rows) == multiset(Outcome(out, prunable))
    ensures AllExplained(images, facts, rows)
  {
    forall k | 0 <= k < |rows| ensures ExplainedRow(images, facts, rows[k]) {
      assert rows[k] in multiset(rows);
      var i := OutcomeRow(out, prunable, rows[k]);
      RefusalIsExplained(images, facts, out, i);
      ImageKept(images, facts, out, i);
    }
  }

  function FirstOf(s: seq<nat>, keep: int): seq<nat> {
    if keep <= 0 then [] else if keep >= |s| then s else s[..keep]
  }

  lemma FirstByRank(s: seq<nat>, keep: int, r: nat)
    requires Distinct(s) && r < |s|
    ensures s[r] in FirstOf(s, keep) <==> r < keep
    ensures FirstOf(s, 1) == [s[r]] <==> r == 0
  {
    if r < keep {
      assert FirstOf(s, keep)[r] == s[r];
    }
    assert FirstOf(s, 1) == [s[0]];
  }

  /** Nothing goes while the facts are incomplete. */
  lemma {:induction false} IncompleteRemovesNothing(images: seq<Image>, facts: Facts, out: seq<Classified>, n: nat)
    requires WellClassified(images, facts, out) && facts.incomplete && n <= |out|
    ensures Outcome(out[..n], true) == []
  {
    if n > 0 {
      IncompleteRemovesNothing(images, facts, out, n - 1);
      assert out[..n][..n - 1] == out[..n - 1];
      RemovedExactly(images, facts, out, n - 1);
    }
  }

  ghost function BuiltSet(images: seq<Image>, facts: Facts, repo: Text): set<nat> {
    set i | 0 <= i < |images| && BuiltIn(images, facts, repo, i)
  }

  ghost function KeptSet(images: seq<Image>, facts: Facts, out: seq<Classified>, repo: Text): set<nat>
    requires |out| == |images|
  {
    set i | 0 <= i < |images| && BuiltIn(images, facts, repo, i) && !Decide(out[i]).prunable
  }

  lemma {:induction false} ElementsCount(s: seq<nat>)
    requires Distinct(s)
    ensures |Elements(s)| == |s|
  {
    if s != [] {
      var n := |s| - 1;
      ElementsCount(s[..n]);
      assert s == s[..n] + [s[n]];
      assert Elements(s) == Elements(s[..n]) + {s[n]};
      assert s[n] !in Elements(s[..n]);
    }
  }

  /** Every declared repository keeps at least its newest `keep` built tags, or all of them. */
  lemma KeepsEnough(images: seq<Image>, facts: Facts, out: seq<Classified>, repo: Text)
    requires WellClassified(images, facts, out) && repo in facts.built
    ensures |KeptSet(images, facts, out, repo)| >= Min(facts.built[repo].keep, |BuiltSet(images, facts, repo)|)
  {
    var s, keep := Newest(images, facts, repo), facts.built[repo].keep;
    NewestLists(images, facts, repo);
    assert Elements(s) == BuiltSet(images, facts, repo);
    ElementsCount(s);
    var first := FirstOf(s, keep);
    ElementsCount(first);
    forall i | i in Elements(first) ensures i in KeptSet(images, facts, out, repo) {
      assert i in s;
      assert BuiltIn(images, facts, repo, i);
      RemovedExactly(images, facts, out, i);
    }
    Subset(Elements(first), KeptSet(images, facts, out, repo));
  }

  function Min(a: int, b: int): int {
    if a < b then a else b
  }

  lemma {:induction false} Subset(a: set<nat>, b: set<nat>)
    requires a <= b
    ensures |a| <= |b|
  {
    if a != {} {
      var x :| x in a;
      Subset(a - {x}, b - {x});
    }
  }

  /** For every recorded deployment the tag it names survives, or the newest built tag does. */
  lemma DeploymentSurvives(images: seq<Image>, facts: Facts, out: seq<Classified>, repo: Text, v: nat) returns (i: nat)
    requires WellClassified(images, facts, out) && repo in facts.built && v < |facts.built[repo].deployments|
    requires exists j: nat :: BuiltIn(images, facts, repo, j)
    ensures BuiltIn(images, facts, repo, i) && !Decide(out[i]).prunable
    ensures images[i].tag == facts.built[repo].deployments[v] || FirstOf(Newest(images, facts, repo), 1) == [i]
  {
    var version := facts.built[repo].deployments[v];
    NewestLists(images, facts, repo);
    var j: nat :| BuiltIn(images, facts, repo, j);
    assert j in Newest(images, facts, repo);
    if Unmatched(images, facts, repo, version) {
      i := Newest(images, facts, repo)[0];
      assert i in Newest(images, facts, repo);
      assert FirstOf(Newest(images, facts, repo), 1) == [i];
    } else {
      i :| BuiltIn(images, facts, repo, i) && Names(images[i], repo, version);
      VersionNamesTag(images[i], version);
    }
    RemovedExactly(images, facts, out, i);
  }

  // ----- Classify and PlanPrune together -----

  function ImagesOf(s: seq<Classified>): (r: seq<Image>)
    ensures |r| == |s| && forall i :: 0 <= i < |s| ==> r[i] == s[i].image
  {
    seq(|s|, i requires 0 <= i < |s| => s[i].image)
  }

  /** Which rows go. */
  ghost function Flags(images: seq<Image>, facts: Facts): (flags: seq<bool>)
    ensures |flags| == |images| && forall i :: 0 <= i < |images| ==> flags[i] == Goes(images, facts, i)
  {
    seq(|images|, i requires 0 <= i < |images| => Goes(images, facts, i))
  }

  /** The images of the first `n` rows with the given flag. */
  ghost function Marked(images: seq<Image>, flags: seq<bool>, flag: bool, n: nat): multiset<Image>
    requires n <= |images| == |flags|
  {
    if n == 0 then multiset{}
    else Marked(images, flags, flag, n - 1) + if flags[n - 1] == flag then multiset{images[n - 1]} else multiset{}
  }

  /** The images that go, or that stay, each as often as the inventory has it. */
  ghost function Chosen(images: seq<Image>, facts: Facts, goes: bool): multiset<Image> {
    Marked(images, Flags(images, facts), goes, |images|)
  }

  lemma {:induction false} OutcomeIsMarked(images: seq<Image>, flags: seq<bool>, out: seq<Classified>, flag: bool, n: nat)
    requires n <= |images| == |flags| == |out|
    requires forall i :: 0 <= i < |out| ==> Decide(out[i]).prunable == flags[i] && Decide(out[i]).image == images[i]
    ensures multiset(ImagesOf(Outcome(out[..n], flag))) == Marked(images, flags, flag, n)
  {
    if n > 0 {
      OutcomeIsMarked(images, flags, out, flag, n - 1);
      assert out[..n][..n - 1] == out[..n - 1];
      var front, d := Outcome(out[..n - 1], flag), Decide(out[n - 1]);
      if flags[n - 1] == flag {
        assert Outcome(out[..n], flag) == front + [d];
        ImagesAppend(front, [d]);
        assert ImagesOf([d]) == [images[n - 1]];
      } else {
        assert Outcome(out[..n], flag) == front;
      }
    } else {
      assert ImagesOf(Outcome(out[..n], flag)) == [];
    }
  }

  lemma OutcomeIsChosen(images: seq<Image>, facts: Facts, out: seq<Classified>, goes: bool)
    requires WellClassified(images, facts, out)
    ensures multiset(ImagesOf(Outcome(out, goes))) == Chosen(images, facts, goes)
  {
    forall i | 0 <= i < |out| ensures Decide(out[i]).prunable == Flags(images, facts)[i] && Decide(out[i]).image == images[i] {
      RemovedExactly(images, facts, out, i);
      ImageKept(images, facts, out, i);
    }
    OutcomeIsMarked(images, Flags(images, facts), out, goes, |images|);
    assert out[..|images|] == out;
  }

  lemma ImageKept(images: seq<Image>, facts: Facts, out: seq<Classified>, i: nat)
    requires WellClassified(images, facts, out) && i < |images|
    ensures Decide(out[i]).image == images[i]
  {
    if ClassOf(images[i], facts) == Built {
      var r := BuiltHasRank(images, facts, i);
      assert out[i] == Ranked(images, facts, images[i].repo, r);
    }
  }

  /** The last row of one list, taken out of the other. */
  lemma TakeOut(a: seq<Classified>, b: seq<Classified>) returns (j: nat)
    requires a != [] && multiset(a) == multiset(b)
    ensures j < |b| && b[j] == a[|a| - 1] && multiset(a[..|a| - 1]) == multiset(b[..j] + b[j + 1..])
    ensures b == b[..j] + ([b[j]] + b[j + 1..])
  {
    var n := |a| - 1;
    assert a[n] in multiset(b);
    j :| 0 <= j < |b| && b[j] == a[n];
    assert b == b[..j] + ([b[j]] + b[j + 1..]);
    assert a == a[..n] + [a[n]];
    assert multiset(a[..n]) == multiset(a) - multiset{a[n]};
  }

  lemma EmptyAlike(a: seq<Classified>, b: seq<Classified>)
    requires a == [] && multiset(a) == multiset(b)
    ensures b == []
  {
    assert |multiset(b)| == 0;
  }

  lemma ImagesAppend(a: seq<Classified>, b: seq<Classified>)
    ensures ImagesOf(a + b) == ImagesOf(a) + ImagesOf(b)
  {
  }

  lemma {:induction false} SameImages(a: seq<Classified>, b: seq<Classified>)
    requires multiset(a) == multiset(b)
    ensures multiset(ImagesOf(a)) == multiset(ImagesOf(b))
    decreases |a|
  {
    if a == [] {
      EmptyAlike(a, b);
    } else {
      var n := |a| - 1;
      var j := TakeOut(a, b);
      SameImages(a[..n], b[..j] + b[j + 1..]);
      assert a == a[..n] + [a[n]];
      ImagesAppend(a[..n], [a[n]]);
      ImagesAppend(b[..j], [b[j]] + b[j + 1..]);
      ImagesAppend([b[j]], b[j + 1..]);
      ImagesAppend(b[..j], b[j + 1..]);
      assert ImagesOf([a[n]]) == [a[n].image] && ImagesOf([b[j]]) == [a[n].image];
    }
  }

  /** The two lists hold the images that go and the images that stay, each as often as the
      inventory has it; together they are the inventory. */
  ghost predicate Splits(images: seq<Image>, facts: Facts, plan: PrunePlan) {
    && multiset(ImagesOf(plan.remove)) == Chosen(images, facts, true)
    && multiset(ImagesOf(plan.refuse)) == Chosen(images, facts, false)
    && multiset(ImagesOf(plan.remove)) + multiset(ImagesOf(plan.refuse)) == multiset(images)
  }

  ghost function Bag(images: seq<Image>, n: nat): multiset<Image>
    requires n <= |images|
  {
    if n == 0 then multiset{} else Bag(images, n - 1) + multiset{images[n - 1]}
  }

  lemma {:induction false} BagOfPrefix(images: seq<Image>, n: nat)
    requires n <= |images|
    ensures Bag(images, n) == multiset(images[..n])
  {
    if n > 0 {
      BagOfPrefix(images, n - 1);
      assert images[..n] == images[..n - 1] + [images[n - 1]];
    }
  }

  lemma {:induction false} MarkedSplit(images: seq<Image>, flags: seq<bool>, n: nat)
    requires n <= |images| == |flags|
    ensures Marked(images, flags, true, n) + Marked(images, flags, false, n) == Bag(images, n)
  {
    if n > 0 {
      MarkedSplit(images, flags, n - 1);
    }
  }

  /** How many rows of the repository the list holds. */
  function CountOf(s: seq<Classified>, repo: Text): nat {
    if s == [] then 0
    else CountOf(s[..|s| - 1], repo) + if s[|s| - 1].kind == Built && s[|s| - 1].image.repo == repo then 1 else 0
  }

  lemma {:induction false} CountAppend(a: seq<Classified>, b: seq<Classified>, repo: Text)
    ensures CountOf(a + b, repo) == CountOf(a, repo) + CountOf(b, repo)
  {
    if b == [] {
      assert a + b == a;
    } else {
      var n := |b| - 1;
      CountAppend(a, b[..n], repo);
      assert (a + b)[..|a + b| - 1] == a + b[..n];
    }
  }

  lemma {:induction false} CountSame(a: seq<Classified>, b: seq<Classified>, repo: Text)
    requires multiset(a) == multiset(b)
    ensures CountOf(a, repo) == CountOf(b, repo)
    decreases |a|
  {
    if a == [] {
      EmptyAlike(a, b);
    } else {
      var n := |a| - 1;
      var j := TakeOut(a, b);
      CountSame(a[..n], b[..j] + b[j + 1..], repo);
      CountAppend(b[..j], [b[j]] + b[j + 1..], repo);
      CountAppend([b[j]], b[j + 1..], repo);
      CountAppend(b[..j], b[j + 1..], repo);
    }
  }

  ghost function KeptBelow(kept: set<nat>, n: nat): set<nat> {
    set i | i in kept && i < n
  }

  lemma KeptOneMore(kept: set<nat>, n: nat)
    ensures |KeptBelow(kept, n + 1)| == |KeptBelow(kept, n)| + if n in kept then 1 else 0
  {
    assert KeptBelow(kept, n + 1) == KeptBelow(kept, n) + if n in kept then {n} else {};
  }

  /** The refused built rows of a repository, counted row by row. */
  lemma {:induction false} CountIsKept(images: seq<Image>, facts: Facts, out: seq<Classified>, repo: Text, n: nat)
    requires WellClassified(images, facts, out) && n <= |images|
    ensures CountOf(Outcome(out[..n], false), repo) == |KeptBelow(KeptSet(images, facts, out, repo), n)|
  {
    if n == 0 {
      assert KeptBelow(KeptSet(images, facts, out, repo), 0) == {};
    } else {
      CountIsKept(images, facts, out, repo, n - 1);
      KeptOneMore(KeptSet(images, facts, out, repo), n - 1);
      KeptByRow(images, facts, out, repo, n - 1);
      assert out[..n][..n - 1] == out[..n - 1];
      var front, d := Outcome(out[..n - 1], false), Decide(out[n - 1]);
      CountAppend(front, [d], repo);
      assert [d][..0] == [] && front + [] == front;
      assert CountOf([d], repo) == if d.kind == Built && d.image.repo == repo then 1 else 0;
    }
  }

  lemma KeptByRow(images: seq<Image>, facts: Facts, out: seq<Classified>, repo: Text, i: nat)
    requires WellClassified(images, facts, out) && i < |images|
    ensures var d := Decide(out[i]);
            i in KeptSet(images, facts, out, repo) <==> !d.prunable && d.kind == Built && d.image.repo == repo
  {
    ImageKept(images, facts, out, i);
    KindKept(images, facts, out, i);
  }

  lemma KindKept(images: seq<Image>, facts: Facts, out: seq<Classified>, i: nat)
    requires WellClassified(images, facts, out) && i < |images|
    ensures Decide(out[i]).kind == ClassOf(images[i], facts)
  {
    if ClassOf(images[i], facts) == Built {
      var r := BuiltHasRank(images, facts, i);
      assert out[i] == Ranked(images, facts, images[i].repo, r);
    }
  }

  lemma PlanKeepsEnough(images: seq<Image>, facts: Facts, out: seq<Classified>, refuse: seq<Classified>, repo: Text)
    requires WellClassified(images, facts, out) && repo in facts.built && multiset(refuse) == multiset(Outcome(out, false))
    ensures CountOf(refuse, repo) >= Min(facts.built[repo].keep, |BuiltSet(images, facts, repo)|)
  {
    CountSame(refuse, Outcome(out, false), repo);
    assert out[..|images|] == out;
    CountIsKept(images, facts, out, repo, |images|);
    assert KeptBelow(KeptSet(images, facts, out, repo), |images|) == KeptSet(images, facts, out, repo);
    KeepsEnough(images, facts, out, repo);
  }

  /** The refused row that stands for a recorded deployment. */
  ghost predicate Stands(images: seq<Image>, facts: Facts, refuse: seq<Classified>, repo: Text, version: Text) {
    exists i: nat :: BuiltIn(images, facts, repo, i) && HoldsImage(refuse, images[i])
                     && (images[i].tag == version || FirstOf(Newest(images, facts, repo), 1) == [i])
  }

  ghost predicate HoldsImage(s: seq<Classified>, image: Image) {
    exists k :: 0 <= k < |s| && s[k].image == image
  }

  lemma PlanKeepsDeployment(images: seq<Image>, facts: Facts, out: seq<Classified>, refuse: seq<Classified>, repo: Text, v: nat)
    requires WellClassified(images, facts, out) && multiset(refuse) == multiset(Outcome(out, false))
    requires repo in facts.built && v < |facts.built[repo].deployments| && BuiltSet(images, facts, repo) != {}
    ensures Stands(images, facts, refuse, repo, facts.built[repo].deployments[v])
  {
    var j :| j in BuiltSet(images, facts, repo);
    assert BuiltIn(images, facts, repo, j);
    var i := DeploymentSurvives(images, facts, out, repo, v);
    InOutcome(out, false, i);
    assert Decide(out[i]) in multiset(refuse);
    ImageKept(images, facts, out, i);
    assert HoldsImage(refuse, images[i]);
  }

  lemma {:induction false} InOutcome(out: seq<Classified>, prunable: bool, i: nat)
    requires i < |out| && Decide(out[i]).prunable == prunable
    ensures Decide(out[i]) in Outcome(out, prunable)
  {
    var n := |out| - 1;
    if i < n {
      InOutcome(out[..n], prunable, i);
    }
  }

  /** Classify followed by PlanPrune: the plan removes exactly the images that may go and
      refuses all others; every declared repository keeps min(keep, count) of its built tags,
      and for each recorded deployment its tag or the newest built tag. */
  method Plan(images: seq<Image>, facts: Facts) returns (plan: PrunePlan)
    ensures Splits(images, facts, plan) && plan.reclaimable == Sizes(plan.remove)
    ensures forall repo :: repo in facts.built ==>
              CountOf(plan.refuse, repo) >= Min(facts.built[repo].keep, |BuiltSet(images, facts, repo)|)
    ensures forall repo, v :: repo in facts.built && BuiltSet(images, facts, repo) != {} && 0 <= v < |facts.built[repo].deployments| ==>
              Stands(images, facts, plan.refuse, repo, facts.built[repo].deployments[v])
    ensures facts.incomplete ==> plan.remove == []
    ensures AllExplained(images, facts, plan.remove) && AllExplained(images, facts, plan.refuse)
    ensures InOrder(plan.remove) && InOrder(plan.refuse)
  {
    var out := Classify(images, facts);
    plan := PlanPrune(out);
    PlanExplains(images, facts, out, plan.remove, true);
    PlanExplains(images, facts, out, plan.refuse, false);
    PlanSplits(images, facts, out, plan);
    forall repo | repo in facts.built
      ensures CountOf(plan.refuse, repo) >= Min(facts.built[repo].keep, |BuiltSet(images, facts, repo)|)
    {
      PlanKeepsEnough(images, facts, out, plan.refuse, repo);
    }
    forall repo, v | repo in facts.built && BuiltSet(images, facts, repo) != {} && 0 <= v < |facts.built[repo].deployments|
      ensures Stands(images, facts, plan.refuse, repo, facts.built[repo].deployments[v])
    {
      PlanKeepsDeployment(images, facts, out, plan.refuse, repo, v);
    }
    if facts.incomplete {
      PlanRemovesNothing(images, facts, out, plan.remove);
    }
  }

  lemma PlanSplits(images: seq<Image>, facts: Facts, out: seq<Classified>, plan: PrunePlan)
    requires WellClassified(images, facts, out)
    requires multiset(plan.remove) == multiset(Outcome(out, true)) && multiset(plan.refuse) == multiset(Outcome(out, false))
    ensures Splits(images, facts, plan)
  {
    BagOfPrefix(images, |images|);
    assert images[..|images|] == images;
    OutcomeIsChosen(images, facts, out, true);
    OutcomeIsChosen(images, facts, out, false);
    SameImages(plan.remove, Outcome(out, true));
    SameImages(plan.refuse, Outcome(out, false));
    MarkedSplit(images, Flags(images, facts), |images|);
  }

  lemma PlanRemovesNothing(images: seq<Image>, facts: Facts, out: seq<Classified>, remove: seq<Classified>)
    requires WellClassified(images, facts, out) && facts.incomplete && multiset(remove) == multiset(Outcome(out, true))
    ensures remove == []
  {
    assert out[..|out|] == out;
    IncompleteRemovesNothing(images, facts, out, |out|);
    assert |multiset(remove)| == 0;
  }
}
